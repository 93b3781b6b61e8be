/** The page's own state: the stored favourites list and the location whose
    weather is on display, and the handlers that read and update them. The
    DOM is not modelled; each handler returns what it would render. */
module Page {
  import opened Text
  import opened Recommendations
  import opened Icons
  import opened Favorites

  class WeatherPage {
    /** The `weatherwise-favorites` storage slot, already parsed. */
    var favorites: seq<string>
    /** The location of the weather on display; empty before the first one. */
    var currentLocation: string

    /** Page start-up: no weather on display and the stored list loaded (an
        empty slot is passed as the empty list). */
    constructor (stored: seq<string>)
      ensures favorites == stored && currentLocation == ""
    {
      favorites := stored;
      currentLocation := "";
    }

    /** `updateFavoriteButton`: the button shows "remove" exactly when the
        location on display is stored. */
    method IsFavorite() returns (isFavorite: bool)
      ensures isFavorite <==> currentLocation in favorites
    {
      isFavorite := IndexOf(favorites, currentLocation) != -1;
    }

    /** `loadFavorites`: the favourites section is hidden when the list is
        empty and otherwise lists every stored location, in stored order. */
    method LoadFavorites() returns (sectionVisible: bool, items: seq<string>)
      ensures sectionVisible <==> |favorites| > 0
      ensures sectionVisible ==> items == favorites
    {
      if |favorites| == 0 {
        return false, [];
      }
      sectionVisible := true;
      items := [];
      var i := 0;
      while i < |favorites|
        invariant 0 <= i <= |favorites|
        invariant items == favorites[..i]
      {
        items := items + [favorites[i]];
        i := i + 1;
      }
    }

    /** `displayWeather`: the icon and the cards for the sample, and the
        location of the sample becomes the current one; the favourites list is
        left alone. */
    method DisplayWeather(data: Weather) returns (icon: Icon, cards: seq<Card>, isFavorite: bool)
      modifies this`currentLocation
      ensures currentLocation == data.location
      ensures icon == Lookup(IconTable, ToLower(data.condition))
      ensures cards == WeatherRecommendations(data)
      ensures isFavorite <==> data.location in favorites
    {
      icon := WeatherIcon(data.condition);
      cards := WeatherRecommendations(data);
      currentLocation := data.location;
      isFavorite := IsFavorite();
    }

    /** `toggleFavorite`: the current location is removed from the stored list
        if it is there and appended otherwise; the button then shows whether
        it is stored. A list without duplicates stays without them, and the
        button flips. */
    method ToggleFavorite() returns (isFavorite: bool)
      modifies this`favorites
      ensures favorites == Toggle(old(favorites), currentLocation)
      ensures isFavorite <==> currentLocation in favorites
      ensures NoDuplicates(old(favorites)) ==>
        NoDuplicates(favorites) && (isFavorite <==> currentLocation !in old(favorites))
    {
      var list := favorites;
      var index := IndexOf(list, currentLocation);
      if index > -1 {
        list := list[..index] + list[index + 1..];
      } else {
        list := list + [currentLocation];
      }
      favorites := list;
      if NoDuplicates(old(favorites)) {
        TogglePreservesNoDuplicates(old(favorites), currentLocation);
      }
      isFavorite := IsFavorite();
    }

    /** `removeFavorite(location)`: the first stored copy of `location` is
        spliced out, if there is one; the button is refreshed only when a copy
        was removed and `location` is the one on display. */
    method RemoveFavorite(location: string) returns (refreshButton: bool)
      modifies this`favorites
      ensures favorites == RemoveFirst(old(favorites), location)
      ensures refreshButton <==> location in old(favorites) && currentLocation == location
      ensures NoDuplicates(old(favorites)) ==> NoDuplicates(favorites) && location !in favorites
    {
      refreshButton := false;
      var list := favorites;
      var index := IndexOf(list, location);
      if index > -1 {
        list := list[..index] + list[index + 1..];
        favorites := list;
        if currentLocation == location {
          refreshButton := true;
        }
      }
      if NoDuplicates(old(favorites)) {
        RemovePreservesNoDuplicates(old(favorites), location);
      }
    }
  }
}
