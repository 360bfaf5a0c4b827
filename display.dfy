/**
 * The dashboard's display rules: the metric/imperial preference, the temperature
 * conversion it drives, and the choice of page theme from the current conditions.
 */
module Display {
  import opened TextOps

  /** The display-unit preference: degrees Celsius or degrees Fahrenheit. */
  datatype Unit = Metric | Imperial

  /** The unit toggle: metric becomes imperial and anything else becomes metric. */
  function Flip(u: Unit): (r: Unit)
    ensures r != u
  {
    if u == Metric then Imperial else Metric
  }

  /** Toggling twice restores the unit. */
  lemma FlipTwice(u: Unit)
    ensures Flip(Flip(u)) == u
  {
  }

  /** The temperature shown for `tempC` degrees Celsius in unit `unit`. */
  function ConvertTemp(tempC: real, unit: Unit): (r: real)
    ensures unit == Metric ==> r == tempC
    ensures unit == Imperial ==> (r - 32.0) * 5.0 / 9.0 == tempC
  {
    if unit == Imperial then tempC * 9.0 / 5.0 + 32.0 else tempC
  }

  /** Freezing and boiling water read 32 and 212 in Fahrenheit; -40 reads the same in both scales. */
  lemma ConvertTempLandmarks()
    ensures ConvertTemp(0.0, Imperial) == 32.0
    ensures ConvertTemp(100.0, Imperial) == 212.0
    ensures ConvertTemp(-40.0, Imperial) == -40.0
  {
  }

  /** Conversion keeps the order of temperatures. */
  lemma ConvertTempMonotonic(a: real, b: real, unit: Unit)
    requires a < b
    ensures ConvertTemp(a, unit) < ConvertTemp(b, unit)
  {
  }

  /** The page themes. */
  datatype Theme = Sunny | Cloudy | Rainy | Snow | Night

  /** Icon codes of night-time conditions end with this marker. */
  const NightMarker: string := "n"

  /**
   * The theme for a condition text and an icon code: night whatever the condition
   * when the icon code ends with the night marker, otherwise the first keyword
   * rule the lower-cased condition matches, otherwise cloudy.
   */
  function ThemeOf(condition: string, iconCode: string): (r: Theme)
    ensures r == Night <==> EndsWith(iconCode, NightMarker)
    ensures r == Sunny ==> Contains(Lower(condition), "clear")
    ensures r == Rainy ==>
      Contains(Lower(condition), "rain") || Contains(Lower(condition), "drizzle") || Contains(Lower(condition), "thunder")
    ensures r == Snow ==> Contains(Lower(condition), "snow")
  {
    var cond := Lower(condition);
    if EndsWith(iconCode, NightMarker) then Night
    else if Contains(cond, "clear") then Sunny
    else if Contains(cond, "cloud") then Cloudy
    else if Contains(cond, "rain") || Contains(cond, "drizzle") || Contains(cond, "thunder") then Rainy
    else if Contains(cond, "snow") then Snow
    else Cloudy
  }

  /** A keyword rule: a text containing any of `keywords` gets `theme`. */
  datatype Rule = Rule(keywords: seq<string>, theme: Theme)

  /** The day-time rules in the order they are tried. */
  const DayRules: seq<Rule> := [
    Rule(["clear"], Sunny),
    Rule(["cloud"], Cloudy),
    Rule(["rain", "drizzle", "thunder"], Rainy),
    Rule(["snow"], Snow)
  ]

  /** The theme when no rule matches. */
  const FallbackTheme: Theme := Cloudy

  /** `text` contains one of the rule's keywords. */
  predicate Matches(text: string, rule: Rule)
  {
    exists k :: k in rule.keywords && Contains(text, k)
  }

  /** The theme of the first rule `text` matches, or `fallback` when none does. */
  function FirstMatch(text: string, rules: seq<Rule>, fallback: Theme): (r: Theme)
    ensures (forall i :: 0 <= i < |rules| ==> !Matches(text, rules[i])) ==> r == fallback
    ensures forall i :: 0 <= i < |rules| && Matches(text, rules[i]) &&
                        (forall j :: 0 <= j < i ==> !Matches(text, rules[j]))
                        ==> r == rules[i].theme
  {
    if rules == [] then fallback
    else if Matches(text, rules[0]) then rules[0].theme
    else
      var r := FirstMatch(text, rules[1..], fallback);
      assert forall i :: 1 <= i < |rules| ==> rules[i] == rules[1..][i - 1];
      r
  }

  /** The theme selection is the night check followed by the first-match rule table. */
  lemma {:induction false} ThemeOfFollowsRules(condition: string, iconCode: string)
    ensures ThemeOf(condition, iconCode) ==
      if EndsWith(iconCode, NightMarker) then Night else FirstMatch(Lower(condition), DayRules, FallbackTheme)
  {
    var cond := Lower(condition);
    assert Matches(cond, DayRules[0]) <==> Contains(cond, "clear") by {
      assert DayRules[0].keywords == ["clear"];
    }
    assert Matches(cond, DayRules[1]) <==> Contains(cond, "cloud") by {
      assert DayRules[1].keywords == ["cloud"];
    }
    assert Matches(cond, DayRules[2]) <==>
      Contains(cond, "rain") || Contains(cond, "drizzle") || Contains(cond, "thunder") by {
      assert DayRules[2].keywords == ["rain", "drizzle", "thunder"];
    }
    assert Matches(cond, DayRules[3]) <==> Contains(cond, "snow") by {
      assert DayRules[3].keywords == ["snow"];
    }
  }

  /** The page is night-themed exactly when the icon code carries the night marker. */
  lemma ThemeNightIff(condition: string, iconCode: string)
    ensures ThemeOf(condition, iconCode) == Night <==> exists code :: iconCode == code + NightMarker
  {
  }

  /** The theme ignores the letter case of the condition. */
  lemma ThemeIgnoresCase(condition: string, other: string, iconCode: string)
    requires Lower(condition) == Lower(other)
    ensures ThemeOf(condition, iconCode) == ThemeOf(other, iconCode)
  {
  }

  /** A clear day is sunny and a clear night is night. */
  lemma ThemeClearExamples()
    ensures ThemeOf("Clear", "01d") == Sunny
    ensures ThemeOf("Clear", "01n") == Night
  {
    assert Lower("Clear") == "clear";
    assert OccursAt("clear", "clear", 0);
    assert !EndsWith("01d", NightMarker);
    assert "01n" == "01" + NightMarker;
  }

  /** Mist matches no rule and falls back to cloudy. */
  lemma ThemeMistExample()
    ensures ThemeOf("Mist", "50d") == Cloudy
  {
    assert !EndsWith("50d", NightMarker);
    assert Lower("Mist") == "mist";
    ContainedCharsOccur("mist", "clear", 'c');
    ContainedCharsOccur("mist", "cloud", 'c');
    ContainedCharsOccur("mist", "rain", 'r');
    ContainedCharsOccur("mist", "drizzle", 'd');
    ContainedCharsOccur("mist", "thunder", 'h');
    ContainedCharsOccur("mist", "snow", 'n');
  }

  /** A thunderstorm is rainy. */
  lemma ThemeThunderstormExample()
    ensures ThemeOf("Thunderstorm", "11d") == Rainy
  {
    assert !EndsWith("11d", NightMarker);
    assert Lower("Thunderstorm") == "thunderstorm";
    ContainedCharsOccur("thunderstorm", "clear", 'c');
    ContainedCharsOccur("thunderstorm", "cloud", 'c');
    assert OccursAt("thunderstorm", "thunder", 0);
  }
}
