/** `getWeatherIcon`: the icon shown beside a weather condition, found by
    scanning a fixed, ordered key table for the first key whose form with
    its first space removed occurs in the lower-cased condition. */
module Icons {
  import opened Text

  datatype Icon =
    | Sun               // "sunny"
    | Cloud             // "cloudy"
    | SunBehindCloud    // "partly cloudy"
    | CloudWithRain     // "rainy"
    | CloudWithStorm    // "thunderstorms"
    | Snowflake         // "snow"
    | FogIcon           // "fog"
    | WindFace          // "windy"
    | SunBehindSmallCloud  // the default

  /** The emoji each icon stands for. */
  function Glyph(icon: Icon): string {
    match icon
    case Sun => "\U{2600}\U{FE0F}"
    case Cloud => "\U{2601}\U{FE0F}"
    case SunBehindCloud => "\U{26C5}"
    case CloudWithRain => "\U{1F327}\U{FE0F}"
    case CloudWithStorm => "\U{26C8}\U{FE0F}"
    case Snowflake => "\U{2744}\U{FE0F}"
    case FogIcon => "\U{1F32B}\U{FE0F}"
    case WindFace => "\U{1F4A8}"
    case SunBehindSmallCloud => "\U{1F324}\U{FE0F}"
  }

  datatype Entry = Entry(key: string, icon: Icon)

  /** The `icons` object, in declaration order (the order `for ... in` visits
      its keys). */
  const IconTable: seq<Entry> := [
    Entry("sunny", Sun),
    Entry("cloudy", Cloud),
    Entry("partly cloudy", SunBehindCloud),
    Entry("rainy", CloudWithRain),
    Entry("thunderstorms", CloudWithStorm),
    Entry("snow", Snowflake),
    Entry("fog", FogIcon),
    Entry("windy", WindFace)
  ]

  const DefaultIcon: Icon := SunBehindSmallCloud

  /** `normalizedCondition.includes(key.replace(' ', ''))`. */
  predicate KeyMatches(key: string, normalized: string) {
    Includes(normalized, RemoveFirstSpace(key))
  }

  /** The icon of the first entry at or after `k` whose key matches, or the
      default when none does. */
  function LookupFrom(table: seq<Entry>, normalized: string, k: nat): Icon
    requires k <= |table|
    decreases |table| - k
  {
    if k == |table| then DefaultIcon
    else if KeyMatches(table[k].key, normalized) then table[k].icon
    else LookupFrom(table, normalized, k + 1)
  }

  function Lookup(table: seq<Entry>, normalized: string): Icon {
    LookupFrom(table, normalized, 0)
  }

  /** `i` is the first entry of the table whose key matches. */
  predicate FirstMatch(table: seq<Entry>, normalized: string, i: int) {
    && 0 <= i < |table|
    && KeyMatches(table[i].key, normalized)
    && forall j :: 0 <= j < i ==> !KeyMatches(table[j].key, normalized)
  }

  lemma {:induction false} LookupFromFirstMatch(table: seq<Entry>, normalized: string, k: nat, i: int)
    requires k <= i && FirstMatch(table, normalized, i)
    ensures LookupFrom(table, normalized, k) == table[i].icon
    decreases i - k
  {
    if k < i {
      LookupFromFirstMatch(table, normalized, k + 1, i);
    }
  }

  lemma {:induction false} LookupFromNoMatch(table: seq<Entry>, normalized: string, k: nat)
    requires k <= |table|
    requires forall j :: k <= j < |table| ==> !KeyMatches(table[j].key, normalized)
    ensures LookupFrom(table, normalized, k) == DefaultIcon
    decreases |table| - k
  {
    if k < |table| {
      LookupFromNoMatch(table, normalized, k + 1);
    }
  }

  /** The lookup returns the icon of the first entry whose key matches, and
      the default icon when no key matches. */
  lemma LookupSpec(table: seq<Entry>, normalized: string)
    ensures forall i :: FirstMatch(table, normalized, i) ==> Lookup(table, normalized) == table[i].icon
    ensures (forall j :: 0 <= j < |table| ==> !KeyMatches(table[j].key, normalized))
      ==> Lookup(table, normalized) == DefaultIcon
  {
    forall i | FirstMatch(table, normalized, i)
      ensures Lookup(table, normalized) == table[i].icon
    {
      LookupFromFirstMatch(table, normalized, 0, i);
    }
    if forall j :: 0 <= j < |table| ==> !KeyMatches(table[j].key, normalized) {
      LookupFromNoMatch(table, normalized, 0);
    }
  }

  /** The scan of `getWeatherIcon`: visit the entries in order and return at
      the first key that matches. */
  method FindIcon(table: seq<Entry>, normalized: string) returns (icon: Icon)
    ensures icon == Lookup(table, normalized)
  {
    var i := 0;
    while i < |table|
      invariant 0 <= i <= |table|
      invariant LookupFrom(table, normalized, i) == Lookup(table, normalized)
    {
      if KeyMatches(table[i].key, normalized) {
        return table[i].icon;
      }
      i := i + 1;
    }
    return DefaultIcon;
  }

  /** `getWeatherIcon(condition)`. */
  method WeatherIcon(condition: string) returns (icon: Icon)
    ensures icon == Lookup(IconTable, ToLower(condition))
  {
    icon := FindIcon(IconTable, ToLower(condition));
  }


  /** The forms in which the scan looks for the keys of `IconTable`: only
      "partly cloudy" holds a space, and it is looked for as "partlycloudy". */
  const KeyForms: seq<string> :=
    ["sunny", "cloudy", "partlycloudy", "rainy", "thunderstorms", "snow", "fog", "windy"]

  lemma StrippedKey(j: int)
    requires 0 <= j < |IconTable|
    ensures RemoveFirstSpace(IconTable[j].key) == KeyForms[j]
  {
    if j == 2 {
      PartlyCloudyKey(IconTable[2].key);
    } else {
      KeyWithoutSpace(IconTable[j].key);
    }
  }

  lemma KeyWithoutSpace(key: string)
    requires ' ' !in key
    ensures RemoveFirstSpace(key) == key
  {
  }

  /** The key "partly cloudy" is looked for as "partlycloudy".
      The literal is passed as a parameter so that the solver evaluates
      the string functions on it only where the proof asks. */
  lemma PartlyCloudyKey(key: string)
    requires key == "partly cloudy"
    ensures RemoveFirstSpace(key) == "partlycloudy"
  {
    assert ' ' !in key[..6];
    RemoveFirstSpaceAt(key, 6);
    assert key[..6] + key[7..] == "partlycloudy";
  }

  /** A scan from entry `k` whose entries carrying icon `x` all fail to match
      cannot return `x`. */
  lemma {:induction false} AvoidsIcon(table: seq<Entry>, normalized: string, k: nat, x: Icon)
    requires k <= |table| && x != DefaultIcon
    requires forall e :: k <= e < |table| && table[e].icon == x ==> !KeyMatches(table[e].key, normalized)
    ensures LookupFrom(table, normalized, k) != x
    decreases |table| - k
  {
    if k < |table| {
      AvoidsIcon(table, normalized, k + 1, x);
    }
  }

  /** A scan from entry `k` that meets a matching entry `j` before any entry
      carrying icon `x` stops there and cannot return `x`. */
  lemma {:induction false} StopsBefore(table: seq<Entry>, normalized: string, k: nat, j: int, x: Icon)
    requires k <= j < |table| && KeyMatches(table[j].key, normalized)
    requires forall e :: k <= e <= j ==> table[e].icon != x
    ensures LookupFrom(table, normalized, k) != x
    decreases j - k
  {
    if k < j && !KeyMatches(table[k].key, normalized) {
      StopsBefore(table, normalized, k + 1, j, x);
    }
  }

  /** An entry whose key, once its space is removed, contains the key of an
      earlier entry can never be chosen: whenever it matches, the earlier
      entry matches too. If its icon appears nowhere else in the table, the
      lookup never returns that icon. */
  lemma ShadowedEntry(table: seq<Entry>, normalized: string, j: int, i: int)
    requires 0 <= j < i < |table|
    requires Includes(RemoveFirstSpace(table[i].key), RemoveFirstSpace(table[j].key))
    requires table[i].icon != DefaultIcon
    requires forall e :: 0 <= e < |table| && e != i ==> table[e].icon != table[i].icon
    ensures Lookup(table, normalized) != table[i].icon
  {
    var x := table[i].icon;
    if KeyMatches(table[j].key, normalized) {
      StopsBefore(table, normalized, 0, j, x);
    } else {
      if KeyMatches(table[i].key, normalized) {
        IncludesTransitive(normalized, RemoveFirstSpace(table[i].key), RemoveFirstSpace(table[j].key));
      }
      AvoidsIcon(table, normalized, 0, x);
    }
  }

  /** The "sun behind cloud" entry is dead: any condition containing
      "partlycloudy" also contains "cloudy", and the "cloudy" entry comes
      first, so `getWeatherIcon` never returns that icon. */
  lemma PartlyCloudyNeverShown(normalized: string)
    ensures Lookup(IconTable, normalized) != SunBehindCloud
  {
    PartlyCloudyShadowed();
    PartlyCloudyIconUnique();
    ShadowedEntry(IconTable, normalized, 1, 2);
  }

  /** Entry 2 is the only entry with the "sun behind cloud" icon. */
  lemma PartlyCloudyIconUnique()
    ensures IconTable[2].icon == SunBehindCloud != DefaultIcon
    ensures forall e :: 0 <= e < |IconTable| && e != 2 ==> IconTable[e].icon != SunBehindCloud
  {
  }

  /** Entry 2 ("partly cloudy") is shadowed by entry 1 ("cloudy"). */
  lemma PartlyCloudyShadowed()
    ensures Includes(RemoveFirstSpace(IconTable[2].key), RemoveFirstSpace(IconTable[1].key))
  {
    StrippedKey(1);
    StrippedKey(2);
    CloudyInPartlyCloudy("partlycloudy");
  }

  /** "partlycloudy" contains "cloudy".
      The literal is passed as a parameter so that the solver evaluates
      the string functions on it only where the proof asks. */
  lemma CloudyInPartlyCloudy(s: string)
    requires s == "partlycloudy"
    ensures Includes(s, "cloudy")
  {
    assert s[6..12] == "cloudy";
    IncludesAt(s, "cloudy", 6);
  }

  /** The mock condition "Partly Cloudy" gets the plain cloud icon.
      The literal is passed as a parameter so that the solver
      evaluates the string functions on it only where the proof asks. */
  lemma PartlyCloudyShowsCloud(condition: string)
    requires condition == "Partly Cloudy"
    ensures Lookup(IconTable, ToLower(condition)) == Cloud
  {
    LowerPartlyCloudy(condition);
    PartlyCloudyMatchesCloudy(ToLower(condition));
    LookupFromFirstMatch(IconTable, ToLower(condition), 0, 1);
  }

  /** "Partly Cloudy" lower-cases to "partly cloudy".
      The literal is passed as a parameter so that the solver evaluates
      the string functions on it only where the proof asks. */
  lemma LowerPartlyCloudy(condition: string)
    requires condition == "Partly Cloudy"
    ensures ToLower(condition) == "partly cloudy"
  {
  }

  /** In "partly cloudy" the key "sunny" does not match and "cloudy" does.
      The literal is passed as a parameter so that the solver
      evaluates the string functions on it only where the proof asks. */
  lemma PartlyCloudyMatchesCloudy(normalized: string)
    requires normalized == "partly cloudy"
    ensures FirstMatch(IconTable, normalized, 1)
  {
    StrippedKey(0);
    StrippedKey(1);
    NotIncludesMissingChar(normalized, "sunny", 0);
    assert normalized[7..13] == "cloudy";
    IncludesAt(normalized, "cloudy", 7);
  }

  /* The corrected lookup. The intended behaviour is that each entry of the
     table can be shown: "Partly Cloudy" should get the sun behind a cloud.
     Two changes achieve it: "partly cloudy" is checked before "cloudy", and
     the condition is normalised like the keys, with its first space removed,
     so that "partly cloudy" is found as "partlycloudy". Only the first space
     of the condition is removed, as the keys have theirs removed, so a
     condition with an earlier space (such as "a partly cloudy") still gets
     the plain cloud; the correction covers the conditions the provider
     produces. */

  /** The icon table with "partly cloudy" moved ahead of "cloudy". */
  const CorrectedTable: seq<Entry> := [
    Entry("sunny", Sun),
    Entry("partly cloudy", SunBehindCloud),
    Entry("cloudy", Cloud),
    Entry("rainy", CloudWithRain),
    Entry("thunderstorms", CloudWithStorm),
    Entry("snow", Snowflake),
    Entry("fog", FogIcon),
    Entry("windy", WindFace)
  ]

  const CorrectedKeyForms: seq<string> :=
    ["sunny", "partlycloudy", "cloudy", "rainy", "thunderstorms", "snow", "fog", "windy"]

  /** The corrected `getWeatherIcon`. */
  method WeatherIconCorrected(condition: string) returns (icon: Icon)
    ensures icon == Lookup(CorrectedTable, RemoveFirstSpace(ToLower(condition)))
  {
    icon := FindIcon(CorrectedTable, RemoveFirstSpace(ToLower(condition)));
  }

  lemma CorrectedStrippedKey(j: int)
    requires 0 <= j < |CorrectedTable|
    ensures RemoveFirstSpace(CorrectedTable[j].key) == CorrectedKeyForms[j]
  {
    if j == 1 {
      PartlyCloudyKey(CorrectedTable[1].key);
    } else {
      KeyWithoutSpace(CorrectedTable[j].key);
    }
  }

  /** An entry whose key form contains no earlier key form is chosen for a
      condition equal to its own key form. */
  lemma UnshadowedEntry(table: seq<Entry>, forms: seq<string>, i: int)
    requires |forms| == |table| && 0 <= i < |table|
    requires forall j :: 0 <= j < |table| ==> RemoveFirstSpace(table[j].key) == forms[j]
    requires forall j :: 0 <= j < i ==> !Includes(forms[i], forms[j])
    ensures Lookup(table, forms[i]) == table[i].icon
  {
    IncludesAt(forms[i], forms[i], 0);
    assert FirstMatch(table, forms[i], i);
    LookupFromFirstMatch(table, forms[i], 0, i);
  }

  /** A character of the earlier form `j` that the later form `i` lacks. */
  function MissingChar(i: int, j: int): nat {
    if i == 4 && j == 0 then 4        // 'y' of "sunny" in "thunderstorms"
    else if i == 4 && j == 3 then 1   // 'a' of "rainy" in "thunderstorms"
    else if i == 5 && j == 0 then 1   // 'u' of "sunny" in "snow"
    else 0
  }

  /** No key form of the corrected table contains an earlier one. */
  lemma CorrectedFormsUnshadowed(i: int, j: int)
    requires 0 <= j < i < |CorrectedKeyForms|
    ensures !Includes(CorrectedKeyForms[i], CorrectedKeyForms[j])
  {
    NotIncludesMissingChar(CorrectedKeyForms[i], CorrectedKeyForms[j], MissingChar(i, j));
  }

  /** No entry of the corrected table is dead: looking up an entry's own key
      (in the form the scan looks for) returns that entry's icon. */
  lemma CorrectedEntriesReachable(i: int)
    requires 0 <= i < |CorrectedTable|
    ensures Lookup(CorrectedTable, RemoveFirstSpace(CorrectedTable[i].key)) == CorrectedTable[i].icon
  {
    forall j | 0 <= j < |CorrectedTable|
      ensures RemoveFirstSpace(CorrectedTable[j].key) == CorrectedKeyForms[j]
    {
      CorrectedStrippedKey(j);
    }
    forall j | 0 <= j < i
      ensures !Includes(CorrectedKeyForms[i], CorrectedKeyForms[j])
    {
      CorrectedFormsUnshadowed(i, j);
    }
    UnshadowedEntry(CorrectedTable, CorrectedKeyForms, i);
  }

  /** With the correction, the mock condition "Partly Cloudy" gets the sun
      behind a cloud. The literal is passed as a parameter so that the solver
      evaluates the string functions on it only where the proof asks. */
  lemma CorrectedPartlyCloudy(condition: string)
    requires condition == "Partly Cloudy"
    ensures Lookup(CorrectedTable, RemoveFirstSpace(ToLower(condition))) == SunBehindCloud
  {
    LowerPartlyCloudy(condition);
    PartlyCloudyKey(ToLower(condition));
    CorrectedEntriesReachable(1);
    CorrectedStrippedKey(1);
  }
}
