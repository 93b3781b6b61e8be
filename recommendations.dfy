/** The recommendation rule table of `getWeatherRecommendations`: a weather
    sample is mapped to an ordered list of advisory cards. Every card is
    identified by the rule that emitted it; the emoji title and the prose
    description of each rule are fixed text and are not modelled. */
module Recommendations {
  import opened Text

  /** One weather sample as the mock provider produces it. */
  datatype Weather = Weather(
    temperature: int,   // degrees Celsius
    condition: string,  // free text such as "Partly Cloudy"
    humidity: int,      // percent
    windSpeed: int,     // km/h
    location: string)

  /** The `type` field of a card. */
  datatype Category = Clothing | Activity | Health

  /** One identifier per `push` in the rule table. */
  datatype Rule =
    | WarmClothing | LightJacket | LightClothing
    | IndoorActivities | OutdoorFun | WinterSports
    | StayHydrated | Moisturize
    | HeatSafety

  datatype Card = Card(kind: Category, rule: Rule)

  function CategoryOf(rule: Rule): Category {
    match rule
    case WarmClothing | LightJacket | LightClothing => Clothing
    case IndoorActivities | OutdoorFun | WinterSports => Activity
    case StayHydrated | Moisturize | HeatSafety => Health
  }

  /** The block of the table a rule belongs to, in the order the blocks run:
      clothing, activity, humidity, heat. */
  function Block(rule: Rule): nat {
    match rule
    case WarmClothing | LightJacket | LightClothing => 0
    case IndoorActivities | OutdoorFun | WinterSports => 1
    case StayHydrated | Moisturize => 2
    case HeatSafety => 3
  }

  function CardFor(rule: Rule): Card {
    Card(CategoryOf(rule), rule)
  }

  /** The clothing chain: first match on the temperature. */
  function ClothingCards(temp: int): seq<Card> {
    if temp < 5 then [CardFor(WarmClothing)]
    else if temp < 15 then [CardFor(LightJacket)]
    else if temp > 25 then [CardFor(LightClothing)]
    else []
  }

  /** The activity chain over the lower-cased condition. */
  function ActivityCards(temp: int, condition: string): seq<Card> {
    if Includes(condition, "rain") || Includes(condition, "storm") then [CardFor(IndoorActivities)]
    else if Includes(condition, "sunny") && temp > 15 && temp < 30 then [CardFor(OutdoorFun)]
    else if Includes(condition, "snow") then [CardFor(WinterSports)]
    else []
  }

  /** The humidity chain: high or low humidity, never both. */
  function HumidityCards(humidity: int): seq<Card> {
    if humidity > 70 then [CardFor(StayHydrated)]
    else if humidity < 30 then [CardFor(Moisturize)]
    else []
  }

  /** The independent heat check. */
  function HeatCards(temp: int): seq<Card> {
    if temp > 30 then [CardFor(HeatSafety)] else []
  }

  /** `getWeatherRecommendations(data)`: the four blocks, in order. */
  function WeatherRecommendations(data: Weather): (r: seq<Card>)
    ensures |r| <= 4
    ensures forall i :: 0 <= i < |r| ==> r[i].kind == CategoryOf(r[i].rule)
  {
    var condition := ToLower(data.condition);
    ClothingCards(data.temperature)
      + ActivityCards(data.temperature, condition)
      + HumidityCards(data.humidity)
      + HeatCards(data.temperature)
  }

  /** The list holds the card of `rule`. */
  predicate Advises(r: seq<Card>, rule: Rule) {
    CardFor(rule) in r
  }

  /** No two cards of the list share the category `kind`. */
  predicate AtMostOne(r: seq<Card>, kind: Category) {
    forall i, j :: 0 <= i < j < |r| && r[i].kind == kind ==> r[j].kind != kind
  }

  /** The cards come block by block: clothing, then activity, then humidity,
      then heat. The blocks strictly increase along the list, so each block
      contributes at most one card. */
  lemma BlocksInOrder(data: Weather)
    ensures var r := WeatherRecommendations(data);
      forall i, j :: 0 <= i < j < |r| ==> Block(r[i].rule) < Block(r[j].rule)
  {
  }

  /** The `type` of every card is fixed by the block that pushed it: the
      clothing block pushes only clothing cards, the activity block only
      activity cards, and the humidity and heat blocks only health cards. */
  lemma CardTypes(data: Weather)
    ensures var r := WeatherRecommendations(data);
      forall i :: 0 <= i < |r| ==>
        && (r[i].kind == Clothing <==> Block(r[i].rule) == 0)
        && (r[i].kind == Activity <==> Block(r[i].rule) == 1)
        && (r[i].kind == Health <==> Block(r[i].rule) >= 2)
  {
    var r := WeatherRecommendations(data);
    forall i | 0 <= i < |r|
      ensures r[i].kind == CategoryOf(r[i].rule)
    {
    }
  }

  /** Clothing: at most one card, chosen by the temperature alone. */
  lemma ClothingRule(data: Weather)
    ensures var r := WeatherRecommendations(data);
      && AtMostOne(r, Clothing)
      && (Advises(r, WarmClothing) <==> data.temperature < 5)
      && (Advises(r, LightJacket) <==> 5 <= data.temperature < 15)
      && (Advises(r, LightClothing) <==> data.temperature > 25)
      && ((forall i :: 0 <= i < |r| ==> r[i].kind != Clothing) <==> 15 <= data.temperature <= 25)
  {
    BlocksInOrder(data);
    var r := WeatherRecommendations(data);
    if data.temperature < 15 || data.temperature > 25 {
      assert r[0].kind == Clothing;
    }
  }

  /** Activity: at most one card; rain or storm always wins; "Outdoor Fun"
      needs sunshine, no rain or storm and 15 < temperature < 30; "Winter
      Sports" needs snow and neither earlier rule to fire. */
  lemma ActivityRule(data: Weather)
    ensures var r := WeatherRecommendations(data);
      var c := ToLower(data.condition);
      var wet := Includes(c, "rain") || Includes(c, "storm");
      var fair := Includes(c, "sunny") && 15 < data.temperature < 30;
      && AtMostOne(r, Activity)
      && (Advises(r, IndoorActivities) <==> wet)
      && (Advises(r, OutdoorFun) <==> !wet && fair)
      && (Advises(r, WinterSports) <==> !wet && !fair && Includes(c, "snow"))
  {
    BlocksInOrder(data);
  }

  /** Humidity: "Stay Hydrated" exactly above 70 %, "Moisturize" exactly
      below 30 %, so never both. */
  lemma HumidityRule(data: Weather)
    ensures var r := WeatherRecommendations(data);
      && (Advises(r, StayHydrated) <==> data.humidity > 70)
      && (Advises(r, Moisturize) <==> data.humidity < 30)
      && !(Advises(r, StayHydrated) && Advises(r, Moisturize))
  {
  }

  /** Heat: "Heat Safety" exactly above 30 degrees, whatever the humidity, so
      it appears beside a humidity card whenever the humidity is outside
      [30, 70]. */
  lemma HeatRule(data: Weather)
    ensures var r := WeatherRecommendations(data);
      && (Advises(r, HeatSafety) <==> data.temperature > 30)
      && (data.temperature > 30 && data.humidity > 70 ==>
            Advises(r, HeatSafety) && Advises(r, StayHydrated))
      && (data.temperature > 30 && data.humidity < 30 ==>
            Advises(r, HeatSafety) && Advises(r, Moisturize))
  {
  }

  /** Cold rain with high humidity. */
  lemma ColdRainyHumid(wind: int, location: string)
    ensures WeatherRecommendations(Weather(2, "Rainy", 80, wind, location))
      == [CardFor(WarmClothing), CardFor(IndoorActivities), CardFor(StayHydrated)]
  {
    LowerRainy("Rainy");
  }

  /** Mild sunshine with moderate humidity: only "Outdoor Fun". */
  lemma MildSunny(wind: int, location: string)
    ensures WeatherRecommendations(Weather(20, "Sunny", 50, wind, location)) == [CardFor(OutdoorFun)]
  {
    LowerSunny("Sunny");
  }

  /** Hot, cloudy and dry: light clothing, moisturiser and heat safety. */
  lemma HotCloudyDry(wind: int, location: string)
    ensures WeatherRecommendations(Weather(32, "Cloudy", 20, wind, location))
      == [CardFor(LightClothing), CardFor(Moisturize), CardFor(HeatSafety)]
  {
    LowerCloudy("Cloudy");
  }

  /* The three helpers below fix the condition through a parameter rather
     than writing the literal in the ensures, so that the solver evaluates
     `ToLower` and `Includes` on it only where the proof asks. */

  lemma LowerRainy(s: string)
    requires s == "Rainy"
    ensures var c := ToLower(s); Includes(c, "rain")
  {
    assert ToLower(s) == "rainy";
    IncludesAt("rainy", "rain", 0);
  }

  lemma LowerSunny(s: string)
    requires s == "Sunny"
    ensures var c := ToLower(s);
      !Includes(c, "rain") && !Includes(c, "storm") && Includes(c, "sunny")
  {
    var c := ToLower(s);
    assert c == "sunny";
    NotIncludesMissingChar(c, "rain", 0);
    NotIncludesMissingChar(c, "storm", 1);
    IncludesAt(c, "sunny", 0);
  }

  lemma LowerCloudy(s: string)
    requires s == "Cloudy"
    ensures var c := ToLower(s);
      !Includes(c, "rain") && !Includes(c, "storm") && !Includes(c, "snow")
  {
    var c := ToLower(s);
    assert c == "cloudy";
    NotIncludesMissingChar(c, "rain", 0);
    NotIncludesMissingChar(c, "storm", 0);
    NotIncludesMissingChar(c, "snow", 0);
  }
}
