/**
 * The daily forecast aggregator of the dashboard's forecast panel: it reduces the
 * gateway's 3-hourly forecast list to at most five entries, preferring the
 * midday sample of each date and falling back to the first sample of each date.
 */
module Forecast {
  import opened TextOps

  /** One 3-hourly forecast entry as the backend forwards it. */
  datatype ForecastItem = ForecastItem(
    dt: int,            // observation instant, seconds since the epoch
    temp: real,         // degrees Celsius
    condition: string,
    icon: string,
    dtTxt: string)      // "YYYY-MM-DD HH:MM:SS"

  /** Number of entries the forecast panel shows. */
  const ShownDays: nat := 5

  /** The midday marker looked for inside `dtTxt`. */
  const Midday: string := "12:00:00"

  /** `text.split(' ')[0]`: the text before the first space, or all of it. */
  function DateKey(text: string): (r: string)
    ensures |r| <= |text| && r == text[..|r|]
    ensures ' ' !in r
    ensures |r| < |text| ==> text[|r|] == ' '
  {
    if text == [] || text[0] == ' ' then [] else [text[0]] + DateKey(text[1..])
  }

  /** The date an entry belongs to. */
  function DateOf(item: ForecastItem): string
  {
    DateKey(item.dtTxt)
  }

  /** Whether a pass may pick `item`: the primary pass only takes midday samples. */
  predicate Qualifies(item: ForecastItem, middayOnly: bool)
  {
    !middayOnly || Contains(item.dtTxt, Midday)
  }

  /**
   * One pass over the list: in input order, keep each qualifying entry whose date
   * is not yet in `seen`, and add its date to `seen`.
   */
  function FirstPerDate(list: seq<ForecastItem>, seen: set<string>, middayOnly: bool): (r: seq<ForecastItem>)
    ensures |r| <= |list|
    ensures forall x :: x in r ==> x in list && Qualifies(x, middayOnly) && DateOf(x) !in seen
  {
    if list == [] then []
    else if DateOf(list[0]) !in seen && Qualifies(list[0], middayOnly) then
      [list[0]] + FirstPerDate(list[1..], seen + {DateOf(list[0])}, middayOnly)
    else
      FirstPerDate(list[1..], seen, middayOnly)
  }

  /** `s.slice(0, 5)`: the first five entries, or all of them when there are fewer. */
  function TakeShown(s: seq<ForecastItem>): (r: seq<ForecastItem>)
    ensures |r| == if |s| < ShownDays then |s| else ShownDays
    ensures r == s[..|r|]
  {
    if |s| <= ShownDays then s else s[..ShownDays]
  }

  /**
   * What the forecast panel shows, as the code computes it: the primary pass, then
   * (when it found fewer than five) the first entry of every date, found with a
   * fresh set of dates, appended; then the first five.
   */
  function DailySummary(list: seq<ForecastItem>): (r: seq<ForecastItem>)
    ensures |r| <= ShownDays
    ensures forall x :: x in r ==> x in list
    ensures list == [] ==> r == []
  {
    var primary := FirstPerDate(list, {}, true);
    TakeShown(if |primary| < ShownDays then primary + FirstPerDate(list, {}, false) else primary)
  }

  /** The list reduction of the forecast renderer, loop for loop. */
  method SelectDaily(list: seq<ForecastItem>) returns (shown: seq<ForecastItem>)
    ensures shown == DailySummary(list)
  {
    var dailyData: seq<ForecastItem> := [];
    var seenDates: set<string> := {};
    var i := 0;
    while i < |list|
      invariant 0 <= i <= |list|
      invariant dailyData + FirstPerDate(list[i..], seenDates, true) == FirstPerDate(list, {}, true)
    {
      assert list[i..][1..] == list[i + 1..];
      var item := list[i];
      var dateTxt := DateKey(item.dtTxt);
      if dateTxt !in seenDates && Contains(item.dtTxt, Midday) {
        dailyData := dailyData + [item];
        seenDates := seenDates + {dateTxt};
      }
      i := i + 1;
    }
    assert list[|list|..] == [];
    assert dailyData == FirstPerDate(list, {}, true);
    if |dailyData| < ShownDays {
      ghost var primary := dailyData;
      var fallbackSet: set<string> := {};
      i := 0;
      while i < |list|
        invariant 0 <= i <= |list|
        invariant dailyData + FirstPerDate(list[i..], fallbackSet, false) == primary + FirstPerDate(list, {}, false)
      {
        assert list[i..][1..] == list[i + 1..];
        var item := list[i];
        var dateTxt := DateKey(item.dtTxt);
        if dateTxt !in fallbackSet {
          dailyData := dailyData + [item];
          fallbackSet := fallbackSet + {dateTxt};
        }
        i := i + 1;
      }
      assert list[|list|..] == [];
      assert dailyData == primary + FirstPerDate(list, {}, false);
    }
    shown := if |dailyData| <= ShownDays then dailyData else dailyData[..ShownDays];
  }

  /** No two entries of `s` share a date. */
  ghost predicate DistinctDates(s: seq<ForecastItem>)
  {
    forall i, j :: 0 <= i < j < |s| ==> DateOf(s[i]) != DateOf(s[j])
  }

  /** The dates that entries of `s` belong to. */
  function DatesOf(s: seq<ForecastItem>): set<string>
  {
    set item | item in s :: DateOf(item)
  }

  /** `list[i]` is the earliest qualifying entry of its date, and that date is not in `seen`. */
  ghost predicate FirstOfItsDate(list: seq<ForecastItem>, i: int, seen: set<string>, middayOnly: bool)
    requires 0 <= i < |list|
  {
    && Qualifies(list[i], middayOnly)
    && DateOf(list[i]) !in seen
    && forall j :: 0 <= j < i && Qualifies(list[j], middayOnly) ==> DateOf(list[j]) != DateOf(list[i])
  }

  /** `sub` is `s` with some entries dropped, the rest in their original order. */
  ghost predicate IsSubsequence(sub: seq<ForecastItem>, s: seq<ForecastItem>)
    decreases |s|
  {
    if sub == [] then true
    else if s == [] then false
    else if sub[0] == s[0] then IsSubsequence(sub[1..], s[1..])
    else IsSubsequence(sub, s[1..])
  }

  /** A pass picks qualifying entries of pairwise distinct dates, none of them in `seen`. */
  lemma {:induction false} FirstPerDateDates(list: seq<ForecastItem>, seen: set<string>, middayOnly: bool)
    ensures var r := FirstPerDate(list, seen, middayOnly);
      && DistinctDates(r)
      && (forall k :: 0 <= k < |r| ==> Qualifies(r[k], middayOnly) && DateOf(r[k]) !in seen)
    decreases |list|
  {
    if list != [] {
      var d := DateOf(list[0]);
      if d !in seen && Qualifies(list[0], middayOnly) {
        FirstPerDateDates(list[1..], seen + {d}, middayOnly);
      } else {
        FirstPerDateDates(list[1..], seen, middayOnly);
      }
    }
  }

  /** A pass keeps an entry exactly when it is the earliest qualifying entry of a date not in `seen`. */
  lemma {:induction false} FirstPerDateMembers(list: seq<ForecastItem>, seen: set<string>, middayOnly: bool)
    ensures forall x :: x in FirstPerDate(list, seen, middayOnly) <==>
      exists i :: 0 <= i < |list| && list[i] == x && FirstOfItsDate(list, i, seen, middayOnly)
    decreases |list|
  {
    if list != [] {
      var d := DateOf(list[0]);
      var picked := d !in seen && Qualifies(list[0], middayOnly);
      var seen' := if picked then seen + {d} else seen;
      var tail := list[1..];
      FirstPerDateMembers(tail, seen', middayOnly);
      // Index i of list is the earliest of its date exactly when index i - 1 of the tail is.
      forall i | 1 <= i < |list|
        ensures FirstOfItsDate(list, i, seen, middayOnly) <==> FirstOfItsDate(tail, i - 1, seen', middayOnly)
      {
        if FirstOfItsDate(list, i, seen, middayOnly) {
          forall j | 0 <= j < i - 1 && Qualifies(tail[j], middayOnly)
            ensures DateOf(tail[j]) != DateOf(tail[i - 1])
          {
            assert tail[j] == list[j + 1];
          }
        }
        if FirstOfItsDate(tail, i - 1, seen', middayOnly) {
          forall j | 0 <= j < i && Qualifies(list[j], middayOnly)
            ensures DateOf(list[j]) != DateOf(list[i])
          {
            if j > 0 { assert list[j] == tail[j - 1]; }
          }
        }
      }
      forall x
        ensures x in FirstPerDate(list, seen, middayOnly) <==>
          exists i :: 0 <= i < |list| && list[i] == x && FirstOfItsDate(list, i, seen, middayOnly)
      {
        if exists i :: 0 <= i < |list| && list[i] == x && FirstOfItsDate(list, i, seen, middayOnly) {
          var i :| 0 <= i < |list| && list[i] == x && FirstOfItsDate(list, i, seen, middayOnly);
          if i > 0 {
            assert tail[i - 1] == x;
          }
        }
        if x in FirstPerDate(tail, seen', middayOnly) {
          var i :| 0 <= i < |tail| && tail[i] == x && FirstOfItsDate(tail, i, seen', middayOnly);
          assert list[i + 1] == x;
        }
      }
    }
  }

  /** A pass keeps its entries in input order. */
  lemma {:induction false} FirstPerDateInOrder(list: seq<ForecastItem>, seen: set<string>, middayOnly: bool)
    ensures IsSubsequence(FirstPerDate(list, seen, middayOnly), list)
    decreases |list|
  {
    if list != [] {
      var d := DateOf(list[0]);
      if d !in seen && Qualifies(list[0], middayOnly) {
        FirstPerDateInOrder(list[1..], seen + {d}, middayOnly);
      } else {
        FirstPerDateInOrder(list[1..], seen, middayOnly);
        SubsequenceSkip(FirstPerDate(list[1..], seen, middayOnly), list);
      }
    }
  }

  /** A subsequence of the tail is a subsequence of the whole. */
  lemma {:induction false} SubsequenceSkip(sub: seq<ForecastItem>, s: seq<ForecastItem>)
    requires s != [] && IsSubsequence(sub, s[1..])
    ensures IsSubsequence(sub, s)
    decreases |s|, 0
  {
    if sub != [] && sub[0] == s[0] {
      SubsequenceDropHead(sub, s[1..]);
    }
  }

  /** Dropping the first entry of a subsequence leaves a subsequence. */
  lemma {:induction false} SubsequenceDropHead(sub: seq<ForecastItem>, s: seq<ForecastItem>)
    requires sub != [] && IsSubsequence(sub, s)
    ensures IsSubsequence(sub[1..], s)
    decreases |s|, 1
  {
    if sub[0] != s[0] {
      SubsequenceDropHead(sub, s[1..]);
    }
    SubsequenceSkip(sub[1..], s);
  }

  /** Every qualifying entry's date is either in `seen` or among the dates the pass picked. */
  lemma {:induction false} FirstPerDateCovers(list: seq<ForecastItem>, seen: set<string>, middayOnly: bool)
    ensures forall x :: x in list && Qualifies(x, middayOnly) ==>
      DateOf(x) in seen + DatesOf(FirstPerDate(list, seen, middayOnly))
    decreases |list|
  {
    if list != [] {
      var d := DateOf(list[0]);
      if d !in seen && Qualifies(list[0], middayOnly) {
        FirstPerDateCovers(list[1..], seen + {d}, middayOnly);
      } else {
        FirstPerDateCovers(list[1..], seen, middayOnly);
      }
      assert list == [list[0]] + list[1..];
    }
  }

  /** The dates of a non-empty sequence: its head's and its tail's. */
  lemma DatesOfCons(s: seq<ForecastItem>)
    requires s != []
    ensures DatesOf(s) == {DateOf(s[0])} + DatesOf(s[1..])
  {
    forall d ensures d in DatesOf(s) <==> d == DateOf(s[0]) || d in DatesOf(s[1..]) {
      if d in DatesOf(s) {
        var x :| x in s && DateOf(x) == d;
        var j :| 0 <= j < |s| && s[j] == x;
        if j > 0 { assert s[1..][j - 1] == x; }
      }
      if d in DatesOf(s[1..]) {
        var x :| x in s[1..] && DateOf(x) == d;
        assert x in s;
      }
    }
  }

  /** Entries with pairwise distinct dates cover exactly as many dates as there are entries. */
  lemma {:induction false} DistinctDatesCount(s: seq<ForecastItem>)
    requires DistinctDates(s)
    ensures |DatesOf(s)| == |s|
    decreases |s|
  {
    if s != [] {
      var tail := s[1..];
      assert DistinctDates(tail) by {
        forall i, j | 0 <= i < j < |tail| ensures DateOf(tail[i]) != DateOf(tail[j]) {
          assert tail[i] == s[i + 1] && tail[j] == s[j + 1];
        }
      }
      DistinctDatesCount(tail);
      DatesOfCons(s);
      assert DateOf(s[0]) !in DatesOf(tail) by {
        forall x | x in tail ensures DateOf(x) != DateOf(s[0]) {
          var j :| 0 <= j < |tail| && tail[j] == x;
          assert s[j + 1] == x;
        }
      }
    }
  }

  /** The dates on which the list has a midday sample. */
  ghost function MiddayDates(list: seq<ForecastItem>): set<string>
  {
    set x | x in list && Qualifies(x, true) :: DateOf(x)
  }

  /**
   * When the primary pass finds five or more midday entries, the fallback does not
   * run: the panel shows the first five of them, of distinct dates, in input order.
   */
  lemma DailySummaryPrimaryFull(list: seq<ForecastItem>)
    requires |FirstPerDate(list, {}, true)| >= ShownDays
    ensures var r := DailySummary(list);
      && r == FirstPerDate(list, {}, true)[..ShownDays]
      && DistinctDates(r)
      && (forall k :: 0 <= k < |r| ==> Contains(r[k].dtTxt, Midday))
  {
    FirstPerDateDates(list, {}, true);
  }

  /**
   * A list with midday samples on five or more dates shows exactly five midday
   * entries, one per date.
   */
  lemma DailySummaryFiveMiddayDates(list: seq<ForecastItem>)
    requires |MiddayDates(list)| >= ShownDays
    ensures var r := DailySummary(list);
      && |r| == ShownDays
      && DistinctDates(r)
      && (forall k :: 0 <= k < |r| ==> Contains(r[k].dtTxt, Midday))
  {
    var primary := FirstPerDate(list, {}, true);
    FirstPerDateCovers(list, {}, true);
    FirstPerDateDates(list, {}, true);
    DistinctDatesCount(primary);
    assert MiddayDates(list) <= DatesOf(primary);
    SubsetCount(MiddayDates(list), DatesOf(primary));
    DailySummaryPrimaryFull(list);
  }

  /** A subset is no larger than its superset. */
  lemma SubsetCount<T>(a: set<T>, b: set<T>)
    requires a <= b
    ensures |a| <= |b|
  {
    assert b == a + (b - a);
  }

  /**
   * A list without any midday sample shows the first entry of each of its first
   * five dates, in input order.
   */
  lemma DailySummaryNoMidday(list: seq<ForecastItem>)
    requires forall x :: x in list ==> !Contains(x.dtTxt, Midday)
    ensures var r := DailySummary(list);
      && r == TakeShown(FirstPerDate(list, {}, false))
      && DistinctDates(r)
      && IsSubsequence(r, list)
  {
    var primary := FirstPerDate(list, {}, true);
    NothingQualifiesNothingPicked(list, {}, true);
    assert primary + FirstPerDate(list, {}, false) == FirstPerDate(list, {}, false);
    var fallback := FirstPerDate(list, {}, false);
    FirstPerDateDates(list, {}, false);
    FirstPerDateInOrder(list, {}, false);
    if |fallback| > ShownDays {
      PrefixIsSubsequence(fallback, list, ShownDays);
    }
  }

  /**
   * The fallback's purpose: a list spanning five or more dates always fills the
   * panel with exactly five entries, whether or not it has midday samples.
   */
  lemma DailySummaryFullOnFiveDates(list: seq<ForecastItem>)
    requires |DatesOf(list)| >= ShownDays
    ensures |DailySummary(list)| == ShownDays
  {
    var fallback := FirstPerDate(list, {}, false);
    FirstPerDateCovers(list, {}, false);
    FirstPerDateDates(list, {}, false);
    DistinctDatesCount(fallback);
    assert DatesOf(list) <= DatesOf(fallback);
    SubsetCount(DatesOf(list), DatesOf(fallback));
  }

  /** A prefix of a subsequence is a subsequence. */
  lemma {:induction false} PrefixIsSubsequence(sub: seq<ForecastItem>, s: seq<ForecastItem>, n: nat)
    requires n <= |sub| && IsSubsequence(sub, s)
    ensures IsSubsequence(sub[..n], s)
    decreases |s|
  {
    if n > 0 {
      if sub[0] == s[0] {
        PrefixIsSubsequence(sub[1..], s[1..], n - 1);
        assert sub[..n][1..] == sub[1..][..n - 1];
      } else {
        PrefixIsSubsequence(sub, s[1..], n);
      }
    }
  }

  /** A pass over a list with no qualifying entry picks nothing. */
  lemma {:induction false} NothingQualifiesNothingPicked(list: seq<ForecastItem>, seen: set<string>, middayOnly: bool)
    requires forall x :: x in list ==> !Qualifies(x, middayOnly)
    ensures FirstPerDate(list, seen, middayOnly) == []
    decreases |list|
  {
    if list != [] {
      assert list[0] in list;
      NothingQualifiesNothingPicked(list[1..], seen, middayOnly);
    }
  }

  /** The date key of a "date time" stamp is its date. */
  lemma {:induction false} DateKeyOfStamp(date: string, time: string)
    requires ' ' !in date
    ensures DateKey(date + " " + time) == date
    decreases |date|
  {
    if date != [] {
      DateKeyOfStamp(date[1..], time);
      assert (date + " " + time)[1..] == date[1..] + " " + time;
    }
  }

  /**
   * As written, the fallback pass starts from a fresh set of dates, so a date the
   * primary pass already picked is picked again: a midday sample followed by a later
   * sample of the same day is shown twice.
   */
  lemma FallbackRepeatsDate(noon: ForecastItem, later: ForecastItem, date: string)
    requires ' ' !in date
    requires noon.dtTxt == date + " " + Midday
    requires later.dtTxt == date + " 15:00:00"
    ensures DailySummary([noon, later]) == [noon, noon]
    ensures !DistinctDates(DailySummary([noon, later]))
  {
    var list := [noon, later];
    DateKeyOfStamp(date, Midday);
    DateKeyOfStamp(date, "15:00:00");
    assert later.dtTxt == date + " " + "15:00:00";
    assert OccursAt(noon.dtTxt, Midday, |date| + 1);
    assert DateOf(noon) == date && DateOf(later) == date && Qualifies(noon, true);
    assert list[1..] == [later] && [later][1..] == [];
    assert FirstPerDate([later], {date}, true) == [] && FirstPerDate([later], {date}, false) == [];
    var none: set<string> := {};
    assert none + {DateOf(noon)} == {date};
    assert FirstPerDate(list, {}, true) == [noon] + FirstPerDate([later], {date}, true);
    assert FirstPerDate(list, {}, false) == [noon] + FirstPerDate([later], {date}, false);
    assert DailySummary(list)[0] == noon && DailySummary(list)[1] == noon;
  }

  /**
   * The evidently intended aggregation: the fallback pass goes on from the dates the
   * primary pass already picked, so no date is shown twice.
   */
  function DedupedSummary(list: seq<ForecastItem>): (r: seq<ForecastItem>)
    ensures |r| <= ShownDays
    ensures forall x :: x in r ==> x in list
  {
    var primary := FirstPerDate(list, {}, true);
    TakeShown(if |primary| < ShownDays then primary + FirstPerDate(list, DatesOf(primary), false) else primary)
  }

  /** Two passes whose second starts from the dates of the first pick distinct dates together. */
  lemma ChainedPassesDistinct(list: seq<ForecastItem>)
    ensures var primary := FirstPerDate(list, {}, true);
      DistinctDates(primary + FirstPerDate(list, DatesOf(primary), false))
  {
    var primary := FirstPerDate(list, {}, true);
    var fallback := FirstPerDate(list, DatesOf(primary), false);
    FirstPerDateDates(list, {}, true);
    FirstPerDateDates(list, DatesOf(primary), false);
    var combined := primary + fallback;
    forall i, j | 0 <= i < j < |combined| ensures DateOf(combined[i]) != DateOf(combined[j]) {
      if j >= |primary| && i < |primary| {
        assert combined[i] in primary;
        assert combined[j] == fallback[j - |primary|];
      } else if i >= |primary| {
        assert combined[i] == fallback[i - |primary|] && combined[j] == fallback[j - |primary|];
      }
    }
  }

  /** A prefix of entries with distinct dates has distinct dates. */
  lemma TakeShownDistinct(s: seq<ForecastItem>)
    requires DistinctDates(s)
    ensures DistinctDates(TakeShown(s)) && |TakeShown(s)| <= ShownDays
  {
    if |s| > ShownDays {
      var t := s[..ShownDays];
      forall i, j | 0 <= i < j < |t| ensures DateOf(t[i]) != DateOf(t[j]) {
        assert t[i] == s[i] && t[j] == s[j];
      }
    }
  }

  /**
   * The corrected aggregation shows at most five entries of the list, of pairwise
   * distinct dates, and agrees with the code whenever the primary pass found no
   * entry or five or more.
   */
  lemma DedupedSummaryDistinct(list: seq<ForecastItem>)
    ensures var r := DedupedSummary(list);
      && |r| <= ShownDays
      && DistinctDates(r)
      && (forall x :: x in r ==> x in list)
    ensures var primary := FirstPerDate(list, {}, true);
      primary == [] || |primary| >= ShownDays ==> DedupedSummary(list) == DailySummary(list)
  {
    var primary := FirstPerDate(list, {}, true);
    var fallback := FirstPerDate(list, DatesOf(primary), false);
    var combined := if |primary| < ShownDays then primary + fallback else primary;
    FirstPerDateDates(list, {}, true);
    ChainedPassesDistinct(list);
    TakeShownDistinct(combined);
    FirstPerDateMembers(list, {}, true);
    FirstPerDateMembers(list, DatesOf(primary), false);
    forall x | x in TakeShown(combined) ensures x in list {
      assert x in combined;
      var i :| 0 <= i < |list| && list[i] == x;
    }
    if primary == [] {
      assert DatesOf(primary) == {};
    }
  }
}
