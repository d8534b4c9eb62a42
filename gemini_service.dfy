/** What the oracle client does with the model's answers (services/geminiService.ts).
    The request to the remote model is not modelled: its outcome is a parameter,
    and so is the timestamp `Date.now()`. */
module GeminiService {
  import opened Nullable
  import opened Types
  import opened JsString

  /** The fields of a schema-valid weather response, with the numbers already
      rounded to integers. */
  datatype WeatherFields = WeatherFields(
    kind: WeatherType,
    temp: int,
    high: int,
    low: int,
    labelText: string)

  /** How the weather request ended: it threw (network error, or JSON that
      does not parse), it answered with empty text, or it answered with the
      fields. */
  datatype WeatherOutcome = Failed | EmptyText | Ok(fields: WeatherFields)

  /** How the description request ended: it threw, or it answered with some
      text, possibly empty (an absent text counts as empty). */
  datatype DescOutcome = DescFailed | DescReply(text: string)

  /** In English, the first character of a non-empty label is upper-cased and
      the rest kept; a Chinese label is kept as it is. */
  function CapitaliseLabel(lang: Language, labelText: string): (r: string)
    ensures |r| == |labelText|
    ensures lang == Zh ==> r == labelText
    ensures forall i :: 0 < i < |labelText| ==> r[i] == labelText[i]
    ensures |labelText| > 0 ==>
      r[0] == if lang == En then UpperChar(labelText[0]) else labelText[0]
  {
    if lang == En && labelText != "" then [UpperChar(labelText[0])] + labelText[1..]
    else labelText
  }

  /** Capitalising an already capitalised label changes nothing. */
  lemma CapitaliseIdempotent(lang: Language, labelText: string)
    ensures CapitaliseLabel(lang, CapitaliseLabel(lang, labelText)) == CapitaliseLabel(lang, labelText)
  {
  }

  /** The record id: the city, a dash, and the timestamp in decimal. */
  function MakeId(city: string, stamp: nat): (r: string)
    ensures |r| > |city| + 1 && r[..|city|] == city && r[|city|] == '-'
    ensures IsDecimal(r[|city| + 1..]) && DecimalValue(r[|city| + 1..]) == stamp
    ensures r[|city| + 1] == '0' ==> stamp == 0 && |r| == |city| + 2
  {
    DecimalRoundTrip(stamp);
    var r := city + "-" + NatToDecimal(stamp);
    assert r[|city| + 1..] == NatToDecimal(stamp);
    r
  }

  /** Reads a city and a timestamp back from an id: the city is everything
      before the last dash, the timestamp the digits after it. */
  function SplitId(id: string): Option<(string, nat)>
  {
    match LastIndexOf(id, '-')
    case None => None
    case Some(k) =>
      if IsDecimal(id[k + 1..]) then Some((id[..k], DecimalValue(id[k + 1..]))) else None
  }

  /** An id gives back the city and the timestamp it was made from, whatever
      dashes the city name itself contains. */
  lemma {:induction false} IdRoundTrip(city: string, stamp: nat)
    ensures SplitId(MakeId(city, stamp)) == Some((city, stamp))
  {
    var id := MakeId(city, stamp);
    assert id[|city|] == '-';
    assert id[..|city|] == city;
    DecimalRoundTrip(stamp);
  }

  /** Two records get the same id only for the same city and timestamp. */
  lemma MakeIdInjective(city1: string, stamp1: nat, city2: string, stamp2: nat)
    ensures MakeId(city1, stamp1) == MakeId(city2, stamp2) ==> city1 == city2 && stamp1 == stamp2
  {
    IdRoundTrip(city1, stamp1);
    IdRoundTrip(city2, stamp2);
  }

  /** `fetchCityWeather` after the response: no record unless the oracle
      answered with fields; the record keeps the caller's city verbatim, gets
      an id made of that city and the timestamp, takes the kind and the
      numbers as the oracle gave them (no relation among them is checked),
      and capitalises the label in English. */
  function FetchCityWeather(city: string, lang: Language, stamp: nat, outcome: WeatherOutcome)
    : (r: Option<WeatherData>)
    ensures r.Some? <==> outcome.Ok?
    ensures r.Some? ==>
      && r.value.city == city
      && r.value.id == MakeId(city, stamp)
      && SplitId(r.value.id) == Some((city, stamp))
      && r.value.kind == outcome.fields.kind
      && r.value.temp == outcome.fields.temp
      && r.value.high == outcome.fields.high
      && r.value.low == outcome.fields.low
      && r.value.labelText == CapitaliseLabel(lang, outcome.fields.labelText)
  {
    match outcome
    case Failed => None
    case EmptyText => None
    case Ok(f) =>
      IdRoundTrip(city, stamp);
      Some(WeatherData(MakeId(city, stamp), city, f.kind, f.temp, f.high, f.low,
                       CapitaliseLabel(lang, f.labelText)))
  }

  /** `part` occurs somewhere in `s`: a helper for the fallback contracts. */
  predicate Mentions(s: string, part: string)
  {
    exists k :: 0 <= k <= |s| && part <= s[k..]
  }

  /** The sentence used when the model answers with empty text: it names
      the city and ends with a full stop of the language. */
  function EmptyReplyFallback(lang: Language, city: string): (r: string)
    ensures Mentions(r, city)
    ensures |r| > |city| && r[|r| - 1] == if lang == Zh then '。' else '.'
  {
    var (p, q) := if lang == Zh then ("感受", "的天气之美。") else ("Experience the atmosphere of ", ".");
    var r := p + city + q;
    assert city <= r[|p|..];
    r
  }

  /** The sentence used when the description request throws: it names the
      city and ends with the name of the weather kind. */
  function FailureFallback(lang: Language, city: string, kind: WeatherType): (r: string)
    ensures Mentions(r, city)
    ensures |r| > |WeatherTypeName(kind)| && r[|r| - |WeatherTypeName(kind)|..] == WeatherTypeName(kind)
  {
    var (p, q) := if lang == Zh then ("当前", "天气：") else ("Current weather in ", ": ");
    var r := p + city + q + WeatherTypeName(kind);
    assert city <= r[|p|..];
    r
  }

  /** `generateWeatherDescription` after the response: a non-empty answer
      verbatim, otherwise one of the two fallbacks; never empty. */
  function GenerateDescription(kind: WeatherType, city: string, lang: Language, outcome: DescOutcome)
    : (r: string)
    ensures r != ""
    ensures outcome.DescReply? && outcome.text != "" ==> r == outcome.text
    ensures outcome == DescReply("") ==> r == EmptyReplyFallback(lang, city)
    ensures outcome.DescFailed? ==> r == FailureFallback(lang, city, kind)
  {
    match outcome
    case DescFailed => FailureFallback(lang, city, kind)
    case DescReply(text) => if text != "" then text else EmptyReplyFallback(lang, city)
  }

  /** The two fallbacks never coincide, so the displayed sentence tells an
      empty answer from a failed request. */
  lemma FallbacksDiffer(lang: Language, city: string, kind: WeatherType)
    ensures EmptyReplyFallback(lang, city) != FailureFallback(lang, city, kind)
  {
  }

  /** The failure fallback names the weather kind: different kinds give
      different sentences. */
  lemma {:induction false} FailureFallbackNamesKind(lang: Language, city: string, a: WeatherType, b: WeatherType)
    ensures FailureFallback(lang, city, a) == FailureFallback(lang, city, b) ==> a == b
  {
    if FailureFallback(lang, city, a) == FailureFallback(lang, city, b) {
      var p := if lang == Zh then "当前" + city + "天气：" else "Current weather in " + city + ": ";
      assert WeatherTypeName(b) == (p + WeatherTypeName(b))[|p|..];
      WeatherTypeNameInjective(a, b);
    }
  }
}
