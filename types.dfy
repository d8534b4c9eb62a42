/** The value types shared by the state controller and the oracle client
    (types.ts). */
module Types {
  import opened Nullable

  /** The closed set of weather kinds (the `WeatherType` enum). */
  datatype WeatherType = Sunny | Rainy | Snowy | Windy

  /** The string values of the enum, which are also exactly the values the
      oracle's response schema accepts for `type`. */
  const SchemaTypeEnum: seq<string> := ["Sunny", "Rainy", "Snowy", "Windy"]

  /** The string form of a weather kind. */
  function WeatherTypeName(w: WeatherType): (s: string)
    ensures s in SchemaTypeEnum
  {
    match w
    case Sunny => "Sunny"
    case Rainy => "Rainy"
    case Snowy => "Snowy"
    case Windy => "Windy"
  }

  /** Reads a weather kind back from its string form. */
  function ParseWeatherType(s: string): (r: Option<WeatherType>)
    ensures r.Some? <==> s in SchemaTypeEnum
    ensures r.Some? ==> WeatherTypeName(r.value) == s
  {
    if s == "Sunny" then Some(Sunny)
    else if s == "Rainy" then Some(Rainy)
    else if s == "Snowy" then Some(Snowy)
    else if s == "Windy" then Some(Windy)
    else None
  }

  lemma WeatherTypeRoundTrip(w: WeatherType)
    ensures ParseWeatherType(WeatherTypeName(w)) == Some(w)
  {
  }

  /** Distinct kinds have distinct string forms. */
  lemma WeatherTypeNameInjective(a: WeatherType, b: WeatherType)
    ensures WeatherTypeName(a) == WeatherTypeName(b) ==> a == b
  {
  }

  /** Every schema value is the string form of some kind: the enum and the
      schema agree in both directions. */
  lemma SchemaEnumIsWeatherTypes(i: nat)
    requires i < |SchemaTypeEnum|
    ensures exists w: WeatherType :: WeatherTypeName(w) == SchemaTypeEnum[i]
  {
    var w := ParseWeatherType(SchemaTypeEnum[i]).value;
    assert WeatherTypeName(w) == SchemaTypeEnum[i];
  }

  /** The two display languages (`'zh' | 'en'`). */
  datatype Language = Zh | En

  function LanguageCode(l: Language): (s: string)
    ensures |s| == 2
  {
    match l
    case Zh => "zh"
    case En => "en"
  }

  function ParseLanguage(s: string): (r: Option<Language>)
    ensures r.Some? <==> s == "zh" || s == "en"
    ensures r.Some? ==> LanguageCode(r.value) == s
  {
    if s == "zh" then Some(Zh) else if s == "en" then Some(En) else None
  }

  lemma LanguageRoundTrip(l: Language)
    ensures ParseLanguage(LanguageCode(l)) == Some(l)
  {
  }

  /** The language button: `prev === 'zh' ? 'en' : 'zh'`. */
  function ToggleLanguage(l: Language): (r: Language)
    ensures r != l
  {
    if l == Zh then En else Zh
  }

  lemma ToggleInvolutive(l: Language)
    ensures ToggleLanguage(ToggleLanguage(l)) == l
  {
  }

  /** One city's weather snapshot. The source's fields `type` and `label`
      are named `kind` and `labelText` here (both words are taken by Dafny).
      No relation among temp, high and low is imposed. */
  datatype WeatherData = WeatherData(
    id: string,
    city: string,
    kind: WeatherType,
    temp: int,
    high: int,
    low: int,
    labelText: string)
}
