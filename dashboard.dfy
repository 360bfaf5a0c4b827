/**
 * The dashboard page's session state: the display unit, the city on show, the
 * favorites list and the storage entry the favorites are saved under.
 */
module Dashboard {
  import opened Wrappers
  import opened Display
  import opened Favorites

  /** The city shown when the page opens. */
  const DefaultCity: string := "Delhi"

  class DashboardState {
    var currentUnit: Unit
    var currentCity: string
    var favorites: seq<string>
    /** The browser-storage entry holding the saved favorites, if any. */
    var stored: Option<seq<string>>

    /** The favorites on show are the ones a page reload would read back from storage. */
    ghost predicate Valid()
      reads this
    {
      favorites == Load(stored)
    }

    /** Page start-up: metric units, the default city, favorites loaded from storage. */
    constructor (saved: Option<seq<string>>)
      ensures Valid()
      ensures currentUnit == Metric && currentCity == DefaultCity
      ensures favorites == Load(saved) && stored == saved
    {
      currentUnit := Metric;
      currentCity := DefaultCity;
      favorites := Load(saved);
      stored := saved;
    }

    /** The unit-toggle button: the unit flips and nothing else changes. */
    method ToggleUnit()
      requires Valid()
      modifies this
      ensures Valid()
      ensures currentUnit == Flip(old(currentUnit))
      ensures currentCity == old(currentCity) && favorites == old(favorites) && stored == old(stored)
    {
      currentUnit := if currentUnit == Metric then Imperial else Metric;
    }

    /**
     * The favorite button for `city`: an absent city is appended, a present one loses
     * its first occurrence; the whole resulting list is then saved to storage.
     */
    method ToggleFavorite(city: string)
      modifies this
      ensures Valid()
      ensures favorites == Toggled(old(favorites), city)
      ensures stored == Some(favorites)
      ensures NoDuplicates(old(favorites)) ==> NoDuplicates(favorites)
      ensures currentUnit == old(currentUnit) && currentCity == old(currentCity)
    {
      ghost var was := favorites;
      var index := IndexOf(favorites, city);
      if index == -1 {
        favorites := favorites + [city];
      } else {
        RemoveFirstIsSplice(favorites, city);
        favorites := favorites[..index] + favorites[index + 1..];
      }
      assert favorites == Toggled(was, city);
      stored := Some(favorites);
      if NoDuplicates(was) {
        ToggledKeepsNoDuplicates(was, city);
      }
    }

    /** `favorites.includes(city)`, which agrees with `indexOf` finding it. */
    method IsFavorite(city: string) returns (b: bool)
      ensures b <==> city in favorites
      ensures b <==> IndexOf(favorites, city) >= 0
    {
      b := city in favorites;
    }
  }
}
