# WeatherWise weather logic in Dafny

WeatherWise is a browser widget. It shows the weather for a location, an icon
for the weather condition, a list of advisory cards, and a list of favourite
locations kept in browser storage. This project models the logic in
`script.js` behind those views and proves its properties:

- `text.dfy` (module `Text`): the three string operations the logic relies on:
  - `toLowerCase`;
  - `includes`;
  - `replace(' ', '')`, which removes only the first space.
- `recommendations.dfy` (module `Recommendations`): `getWeatherRecommendations`. This is the rule table that maps a weather sample to an ordered list of cards:
  - one clothing block, chosen by temperature;
  - one activity block, chosen by condition and temperature;
  - one humidity block;
  - one heat check.

  Each card is identified by the rule that emitted it.
- `icons.dfy` (module `Icons`): `getWeatherIcon`. A specification function `Lookup` describes the first-match scan over the ordered key table. The method `FindIcon` carries out the scan with a loop. The module also holds the proof that one entry of the table is dead, and a corrected table in which every entry is reachable.
- `favorites.dfy` (module `Favorites`): the list logic of the favourites:
  - `indexOf`;
  - removing the first occurrence (`splice`);
  - toggling, which removes the first occurrence or appends.
- `page.dfy` (module `Page`): the page's mutable state, held in a class `WeatherPage` with two fields:
  - the stored favourites list;
  - `currentLocation`.

  Its handlers are displaying a sample, toggling, removing, refreshing the favourite button, and loading the favourites section. `DisplayWeather`, `ToggleFavorite` and `RemoveFavorite` update these fields. `IsFavorite` and `LoadFavorites` only read them. Every handler returns what would be rendered.

## Model

| member | source | states |
|---|---|---|
| Text.LowerChar | script.js:178 | `toLowerCase` on one character: capital ASCII letters are shifted to lower case and every other character is kept |
| Text.ToLower | script.js:178 | the lower-cased string has the same length, and each character is its original lower-cased |
| Text.IncludesIff | script.js:202 | `s.includes(sub)` holds exactly when `sub` occurs in `s` at some index |
| Text.NotIncludesMissingChar | script.js:202-219 | a string lacking one of the pattern's characters does not include the pattern |
| Text.IncludesTransitive | script.js:262 | if `mid` occurs in `s` and `sub` occurs in `mid`, then `sub` occurs in `s` |
| Text.RemoveFirstSpace | script.js:262 | `replace(' ', '')` leaves a string without spaces unchanged |
| Text.RemoveFirstSpaceAt | script.js:262 | `replace(' ', '')` deletes exactly the first space and keeps everything before and after it, in order |
| Recommendations.WeatherRecommendations | script.js:175-246 | at most four cards, each card's type matching its rule |
| Recommendations.CardTypes | script.js:180-243 | for every sample, a card's `type` is clothing iff the clothing block pushed it, activity iff the activity block did, and health iff the humidity or heat block did |
| Recommendations.BlocksInOrder | script.js:180-243 | cards come block by block: clothing, activity, humidity, heat, with at most one card per block |
| Recommendations.ClothingRule | script.js:180-199 | at most one clothing card; warm clothing iff t < 5; light jacket iff 5 <= t < 15; light clothing iff t > 25; none iff 15 <= t <= 25 |
| Recommendations.ActivityRule | script.js:201-220 | at most one activity card; indoor iff the condition mentions rain or storm; outdoor fun iff not that, sunny and 15 < t < 30; winter sports iff neither of those and snow |
| Recommendations.HumidityRule | script.js:222-235 | stay hydrated iff humidity > 70, moisturize iff humidity < 30, never both |
| Recommendations.HeatRule | script.js:237-243 | heat safety iff t > 30, independently of humidity, so it appears alongside a humidity card |
| Recommendations.ColdRainyHumid | script.js:175-246 | 2 degrees, "Rainy", 80 %: warm clothing, indoor activities, stay hydrated, in that order |
| Recommendations.MildSunny | script.js:175-246 | 20 degrees, "Sunny", 50 %: outdoor fun only |
| Recommendations.HotCloudyDry | script.js:175-246 | 32 degrees, "Cloudy", 20 %: light clothing, moisturize, heat safety, in that order |
| Icons.LookupSpec | script.js:259-266 | the lookup returns the icon of the first entry whose key (first space removed) occurs in the condition, and the default icon when no key does |
| Icons.FindIcon | script.js:261-266 | the loop over the table returns exactly what the first-match lookup specifies |
| Icons.WeatherIcon | script.js:248-267 | `getWeatherIcon(condition)` is the first-match lookup over the icon table on the lower-cased condition |
| Icons.StrippedKey | script.js:249-262 | the form the scan looks for, for each key of the icon table |
| Icons.ShadowedEntry | script.js:261-265 | an entry whose key form contains the key form of an earlier entry never decides the result. So if its icon is not the default and no other entry carries it, the lookup never returns that icon |
| Icons.PartlyCloudyNeverShown | script.js:249-266 | for every condition, `getWeatherIcon` never returns the "partly cloudy" icon |
| Icons.PartlyCloudyShowsCloud | script.js:248-267 | the condition "Partly Cloudy" gets the plain cloud icon |
| Icons.WeatherIconCorrected | script.js:248-267 | the corrected scan is the first-match lookup over the corrected table, on the condition lower-cased and with its first space removed |
| Icons.CorrectedEntriesReachable | script.js:249-258 | in the corrected table, every entry's icon is returned for that entry's own key |
| Icons.CorrectedPartlyCloudy | script.js:249-258 | with the correction, "Partly Cloudy" gets the sun-behind-cloud icon |
| Favorites.IndexOf | script.js:271 | `indexOf` is -1 iff the name is absent, and otherwise the index of its first occurrence |
| Favorites.RemoveFirstSpec | script.js:329-334 | removing an absent name changes nothing; removing a present name deletes exactly its first occurrence and keeps the other entries in order |
| Favorites.RemoveFirstMultiset | script.js:329-334 | removing takes out one copy of the name and no other entry |
| Favorites.ToggleSpec | script.js:269-277 | toggle removes the first occurrence of a present name and appends an absent one |
| Favorites.ToggleTwiceRestores | script.js:269-277 | toggling an absent name twice restores the list |
| Favorites.RemoveUndoesToggle | script.js:269-277 | removing a name just added by toggling restores the list |
| Favorites.RemovePreservesNoDuplicates | script.js:329-334 | removing keeps a duplicate-free list duplicate-free, and the name is then absent |
| Favorites.TogglePreservesNoDuplicates | script.js:269-277 | toggling keeps a duplicate-free list duplicate-free, flips the membership of the name and leaves every other name's membership alone |
| Favorites.ToggleParisTwice | script.js:269-277 | from no favourites, toggling "Paris" gives ["Paris"], and toggling again gives [] |
| Page.WeatherPage.constructor | script.js:8 | the page starts with no current location and the stored list |
| Page.WeatherPage.IsFavorite | script.js:317-322 | the button shows "remove" exactly when the current location is stored |
| Page.WeatherPage.LoadFavorites | script.js:293-315 | the section is visible iff the list is non-empty, and then shows every stored location in order |
| Page.WeatherPage.DisplayWeather | script.js:66-83 | returns the icon and cards for the sample; the sample's location becomes current; the favourites are unchanged |
| Page.WeatherPage.ToggleFavorite | script.js:269-282 | the stored list becomes the toggle of the current location; the button reflects the new list; duplicate-freedom is preserved and the button state flips |
| Page.WeatherPage.RemoveFavorite | script.js:329-340 | the stored list loses the first copy of the location; the button is refreshed iff a copy was removed and it is the current location; duplicate-freedom is preserved |

## Left out

- Rendering is not modelled: the DOM, the card titles and descriptions, the emoji text of each icon (kept only as `Icons.Glyph`), the detail panel and the favourite button's label.
- Storage is not modelled: `localStorage` and the JSON encoding of the favourites are left out. The stored list is the field `favorites`, already parsed, and an empty slot is passed to the constructor as the empty list.
- Input is not modelled: `getCoordinates`, the random mock of `getWeatherData`, browser geolocation, the asynchronous search flow and `showError`. A weather sample is a parameter of `DisplayWeather`.
- config.js is not part of this model; the logic does not read it.
- Text.LowerChar: only the ASCII letters A-Z are lower-cased. JavaScript's `toLowerCase` also maps non-ASCII letters.
- Recommendations.WeatherRecommendations: temperatures are integers, as the mock produces them. Fractional readings are not modelled.
- `windSpeed` is carried in `Weather`, but no rule reads it.
- Icons.WeatherIconCorrected: the correction removes only the condition's first space, as the keys have theirs removed. A condition with an earlier space, such as "a partly cloudy", still gets the plain cloud. The conditions the provider produces are covered.
- Page.WeatherPage.ToggleFavorite: the re-rendering of the favourites list after a toggle (`loadFavorites`) is not performed. `LoadFavorites` models that rendering separately.

## Findings

| source | as written | input that shows it | evidently intended | confidence | as-written member | corrected member |
|---|---|---|---|---|---|---|
| script.js:249-265 | the "partly cloudy" entry is looked for as "partlycloudy", after the "cloudy" entry. Any condition containing "partlycloudy" also contains "cloudy", so the ⛅ icon is never returned | the mock condition "Partly Cloudy" (it gets ☁️) | "Partly Cloudy" shows ⛅ | high (proved; not executed) | Icons.PartlyCloudyNeverShown | Icons.CorrectedEntriesReachable |
