/**
 * The JMA forecast import: the mapping of JMA forecast text and JMA weather codes to WMO
 * present-weather codes (WMO code table 4677), and the per-date merge of the forecast series.
 */
module Weather {
  import opened Common
  import opened Text

  // ---------------------------------------------------------------- forecast text

  /** `_map_jma_weather_to_wmo_code`: keyword tests on the lowercased text, sunny first, overcast by default. */
  function MapWeatherText(weatherText: string): (code: int)
    ensures code in {0, 1, 2, 3, 45, 61, 63, 65, 68, 71, 75, 95}
  {
    var w := Lower(weatherText);
    if Contains(w, "晴") || Contains(w, "快晴") then 0
    else if Contains(w, "薄曇") || Contains(w, "うす曇") then 1
    else if Contains(w, "曇") then
      if Contains(w, "時々晴") || Contains(w, "一時晴") then 2 else 3
    else if Contains(w, "雨") then
      if Contains(w, "大雨") || Contains(w, "激しい雨") then 65
      else if Contains(w, "強い雨") then 63
      else 61
    else if Contains(w, "雪") then
      if Contains(w, "大雪") then 75
      else if Contains(w, "みぞれ") then 68
      else 71
    else if Contains(w, "雷") || Contains(w, "嵐") then 95
    else if Contains(w, "霧") then 45
    else 3
  }

  /** Any text holding "晴" maps to clear sky, whatever else it says ("曇時々晴" included). */
  lemma SunnyTextFirst(weatherText: string)
    requires Contains(weatherText, "晴")
    ensures MapWeatherText(weatherText) == 0
  {
    LowerKeepsContains(weatherText, "晴");
  }

  /** Partly cloudy (2) cannot come from text: both of its phrases contain "晴", which is tested first. */
  lemma TextNeverPartlyCloudy(weatherText: string)
    ensures MapWeatherText(weatherText) != 2
  {
    var w := Lower(weatherText);
    if Contains(w, "時々晴") {
      ContainsAt("時々晴", "晴", 2);
      ContainsTrans(w, "時々晴", "晴");
    }
    if Contains(w, "一時晴") {
      ContainsAt("一時晴", "晴", 2);
      ContainsTrans(w, "一時晴", "晴");
    }
  }

  /** A text lacking the first character of a keyword does not contain it. */
  lemma Lacks(s: string, t: string)
    requires t != [] && t[0] !in s
    ensures !Contains(s, t)
  {
    NotContainsMissingChar(s, t, 0);
  }

  /** A text lacking `u` lacks every text that contains `u`. */
  lemma LacksContaining(w: string, t: string, u: string)
    requires !Contains(w, u) && Contains(t, u)
    ensures !Contains(w, t)
  {
    if Contains(w, t) {
      ContainsTrans(w, t, u);
    }
  }

  /** A lowercased text without "晴" and "曇" takes none of the sunny or cloudy branches. */
  lemma NeitherSunNorCloud(w: string)
    requires !Contains(w, "晴") && !Contains(w, "曇")
    ensures !Contains(w, "快晴") && !Contains(w, "薄曇") && !Contains(w, "うす曇")
  {
    ContainsAt("快晴", "晴", 1);
    LacksContaining(w, "快晴", "晴");
    ContainsAt("薄曇", "曇", 1);
    LacksContaining(w, "薄曇", "曇");
    ContainsAt("うす曇", "曇", 2);
    LacksContaining(w, "うす曇", "曇");
  }

  /**
   * Rain without sun or cloud is one of the three rain tiers: heavy rain (65) where "大雨" or
   * "激しい雨" is named, otherwise moderate rain (63) where "強い雨" is named, otherwise light rain (61).
   */
  lemma RainTiers(weatherText: string)
    requires !Contains(Lower(weatherText), "晴") && !Contains(Lower(weatherText), "曇")
    requires Contains(Lower(weatherText), "雨")
    ensures MapWeatherText(weatherText) in {61, 63, 65}
    ensures var w := Lower(weatherText);
      && (MapWeatherText(weatherText) == 65 <==> Contains(w, "大雨") || Contains(w, "激しい雨"))
      && (MapWeatherText(weatherText) == 63 <==> !Contains(w, "大雨") && !Contains(w, "激しい雨") && Contains(w, "強い雨"))
      && (MapWeatherText(weatherText) == 61 <==> !Contains(w, "大雨") && !Contains(w, "激しい雨") && !Contains(w, "強い雨"))
  {
    NeitherSunNorCloud(Lower(weatherText));
  }

  /**
   * Snow without sun, cloud or rain is one of the three snow tiers: heavy snow (75) where "大雪"
   * is named, otherwise sleet (68) where "みぞれ" is named, otherwise snow (71).
   */
  lemma SnowTiers(weatherText: string)
    requires !Contains(Lower(weatherText), "晴") && !Contains(Lower(weatherText), "曇")
    requires !Contains(Lower(weatherText), "雨") && Contains(Lower(weatherText), "雪")
    ensures MapWeatherText(weatherText) in {68, 71, 75}
    ensures var w := Lower(weatherText);
      && (MapWeatherText(weatherText) == 75 <==> Contains(w, "大雪"))
      && (MapWeatherText(weatherText) == 68 <==> !Contains(w, "大雪") && Contains(w, "みぞれ"))
      && (MapWeatherText(weatherText) == 71 <==> !Contains(w, "大雪") && !Contains(w, "みぞれ"))
  {
    NeitherSunNorCloud(Lower(weatherText));
  }

  /** Rain is tested before snow: "雨か雪" is light rain. */
  lemma RainBeforeSnow()
    ensures MapWeatherText("雨か雪") == 61
  {
    var w := "雨か雪";
    assert Lower(w) == w;
    NoSunOrCloud(w);
    ContainsAt(w, "雨", 0);
    Lacks(w, "大雨"); Lacks(w, "激しい雨"); Lacks(w, "強い雨");
  }

  /** A text without "晴", "薄", "う" and "曇" takes none of the sunny or cloudy branches. */
  lemma NoSunOrCloud(w: string)
    requires '晴' !in w && '薄' !in w && 'う' !in w && '曇' !in w
    ensures !Contains(w, "晴") && !Contains(w, "快晴") && !Contains(w, "薄曇") && !Contains(w, "うす曇") && !Contains(w, "曇")
  {
    Lacks(w, "晴"); Lacks(w, "薄曇"); Lacks(w, "うす曇"); Lacks(w, "曇");
    NotContainsMissingChar(w, "快晴", 1);
  }

  /** Snow with sleet named is sleet. */
  lemma SnowAndSleet()
    ensures MapWeatherText("雪かみぞれ") == 68
  {
    var w := "雪かみぞれ";
    assert Lower(w) == w;
    NoSunOrCloud(w);
    Lacks(w, "雨");
    SnowSleetKeywords();
    SleetRule(w);
  }

  /** The sleet branch: a lowercase text naming snow and sleet, but no heavy snow and nothing tested earlier. */
  lemma SleetRule(w: string)
    requires Lower(w) == w
    requires !Contains(w, "晴") && !Contains(w, "快晴") && !Contains(w, "薄曇") && !Contains(w, "うす曇")
    requires !Contains(w, "曇") && !Contains(w, "雨")
    requires Contains(w, "雪") && !Contains(w, "大雪") && Contains(w, "みぞれ")
    ensures MapWeatherText(w) == 68
  {
  }

  lemma SnowSleetKeywords()
    ensures Contains("雪かみぞれ", "雪") && !Contains("雪かみぞれ", "大雪") && Contains("雪かみぞれ", "みぞれ")
  {
    var w := "雪かみぞれ";
    ContainsAt(w, "雪", 0);
    Lacks(w, "大雪");
    assert w[2..5] == "みぞれ";
    ContainsAt(w, "みぞれ", 2);
  }

  /** Sleet counts only where snow is named: "みぞれ" alone is overcast. */
  lemma SleetAloneIsOvercast()
    ensures MapWeatherText("みぞれ") == 3
  {
    var v := "みぞれ";
    assert Lower(v) == v;
    NoSunOrCloud(v);
    Lacks(v, "雨"); Lacks(v, "雪"); Lacks(v, "雷"); Lacks(v, "嵐"); Lacks(v, "霧");
  }

  /** "曇時々晴" is read as clear sky, not partly cloudy. */
  lemma CloudyThenSunny()
    ensures MapWeatherText("曇時々晴") == 0
  {
    ContainsAt("曇時々晴", "晴", 3);
    SunnyTextFirst("曇時々晴");
  }

  // ---------------------------------------------------------------- forecast codes

  /** Python's `int(s)` on a string: surrounding whitespace, an optional sign, then decimal digits. */
  function ParseInt(s: string): (r: Option<int>)
    ensures r.Some? ==> Strip(s) != []
  {
    var t := Strip(s);
    if t == [] then None
    else
      var negative := t[0] == '-';
      var body := if t[0] == '-' || t[0] == '+' then t[1..] else t;
      if body == [] || !AllDigits(body) then None
      else
        var magnitude: int := DigitsValue(body);
        Some(if negative then -magnitude else magnitude)
  }

  /** A text without whitespace at either end is its own strip. */
  lemma StripSigned(s: string)
    requires s != []
    requires forall k :: 0 <= k < |s| ==> s[k] == '-' || IsAsciiDigit(s[k])
    ensures Strip(s) == s
  {
    assert s[0] == '-' || IsAsciiDigit(s[0]);
    assert !IsSpace(s[0]);
    assert TrimStart(s) == s;
    assert s[|s| - 1] == '-' || IsAsciiDigit(s[|s| - 1]);
    assert !IsSpace(s[|s| - 1]);
  }

  /** `int(str(n)) == n`. */
  lemma ParseIntRoundTrip(n: int)
    ensures ParseInt(IntToString(n)) == Some(n)
  {
    var m: nat := if n < 0 then -n else n;
    var digits := NatToString(m);
    NatToStringRoundTrip(m);
    var s := IntToString(n);
    if n < 0 {
      assert s == "-" + digits;
      StripSigned(s);
      assert s[1..] == digits;
    } else {
      assert s == digits;
      StripSigned(s);
      assert s[0] != '-' && s[0] != '+';
    }
  }

  /**
   * `_map_jma_code_to_wmo_code`: an unparsable or missing code gives overcast; otherwise the
   * table of sunny, cloudy, rain and snow codes. The thunder test looks for "雷" in the digits.
   */
  function MapJmaCode(jmaCode: Option<string>): int {
    var parsed := if jmaCode.Some? then ParseInt(jmaCode.value) else None;
    if parsed.None? then 3 else MapParsedJmaCode(parsed.value)
  }

  /** The code table of `_map_jma_code_to_wmo_code`, once the code has parsed as an integer. */
  function MapParsedJmaCode(code: int): int {
    if code == 100 || code == 101 then 0
    else if code == 110 || code == 111 then 1
    else if code == 200 || code == 201 then 2
    else if code == 210 || code == 211 then 3
    else if 300 <= code <= 350 then
      if code == 300 || code == 301 then 61
      else if code == 311 || code == 313 then 63
      else 65
    else if 400 <= code <= 450 then 71
    else if code >= 200 && Contains(IntToString(code), "雷") then 95
    else 3
  }

  /** The thunder branch is dead: the decimal form of a number never holds "雷". */
  lemma NoThunderInDigits(code: int)
    ensures !Contains(IntToString(code), "雷")
  {
    NotContainsMissingChar(IntToString(code), "雷", 0);
  }

  /** The code table, for every code written in decimal; no code maps to thunderstorm (95). */
  lemma JmaCodeTable(c: int)
    ensures var r := MapJmaCode(Some(IntToString(c)));
      && (c == 100 || c == 101 ==> r == 0)
      && (c == 110 || c == 111 ==> r == 1)
      && (c == 200 || c == 201 ==> r == 2)
      && (c == 210 || c == 211 ==> r == 3)
      && (c == 300 || c == 301 ==> r == 61)
      && (c == 311 || c == 313 ==> r == 63)
      && (300 <= c <= 350 && c !in {300, 301, 311, 313} ==> r == 65)
      && (400 <= c <= 450 ==> r == 71)
      && (c !in {100, 101, 110, 111, 200, 201, 210, 211} && !(300 <= c <= 350) && !(400 <= c <= 450) ==> r == 3)
      && r != 95
  {
    ParseIntRoundTrip(c);
    NoThunderInDigits(c);
  }

  /** Whatever the input, the result is never thunderstorm. */
  lemma JmaCodeNeverThunder(jmaCode: Option<string>)
    ensures MapJmaCode(jmaCode) != 95
  {
    var parsed := if jmaCode.Some? then ParseInt(jmaCode.value) else None;
    if parsed.Some? {
      ParsedNeverThunder(parsed.value);
    }
  }

  lemma ParsedNeverThunder(code: int)
    ensures MapParsedJmaCode(code) != 95
  {
    NoThunderInDigits(code);
  }

  /** A missing, empty or non-numeric code is overcast. */
  lemma JmaCodeFallbacks()
    ensures MapJmaCode(None) == 3
    ensures MapJmaCode(Some("")) == 3
    ensures MapJmaCode(Some("晴れ")) == 3
  {
    SunnyWordIsStripped();
    NonNumericCode("晴れ");
  }

  /** A stripped code that starts with neither a sign nor a digit is overcast. */
  lemma NonNumericCode(s: string)
    requires s != [] && Strip(s) == s && s[0] != '-' && s[0] != '+' && !IsDigit(s[0])
    ensures MapJmaCode(Some(s)) == 3
  {
    assert !AllDigits(s);
  }

  lemma SunnyWordIsStripped()
    ensures Strip("晴れ") == "晴れ" && !IsDigit("晴れ"[0])
  {
    var w := "晴れ";
    assert !IsSpace(w[0]) && !IsSpace(w[1]);
    assert TrimStart(w) == w;
  }

  // ---------------------------------------------------------------- the per-date merge

  /** What the first forecast entry for a date contributes: the code and the text at its index, when present. */
  datatype WeatherInfo = WeatherInfo(code: Option<string>, text: Option<string>)

  /**
   * One "weathers" area of a forecast time series: the day of each time define (None when
   * `fromisoformat` rejects it), the forecast texts and the forecast codes.
   */
  datatype WeatherSeries = WeatherSeries(times: seq<Option<int>>, weathers: seq<string>, codes: seq<string>)

  function InfoAt(s: WeatherSeries, i: nat): WeatherInfo {
    WeatherInfo(if |s.codes| > i then Some(s.codes[i]) else None, if |s.weathers| > i then Some(s.weathers[i]) else None)
  }

  /** The entries of a series in order: each time define paired with what its index carries. */
  function SeriesItems(s: WeatherSeries): (items: seq<(Option<int>, WeatherInfo)>)
    ensures |items| == |s.times|
    ensures forall i :: 0 <= i < |s.times| ==> items[i] == (s.times[i], InfoAt(s, i))
  {
    seq(|s.times|, i requires 0 <= i < |s.times| => (s.times[i], InfoAt(s, i)))
  }

  /** All entries of all series, in visiting order. */
  function Flatten(series: seq<WeatherSeries>): seq<(Option<int>, WeatherInfo)> {
    if series == [] then [] else Flatten(series[..|series| - 1]) + SeriesItems(series[|series| - 1])
  }

  /** One step of the indexing loop: a parsed date not seen before takes this entry. */
  function Visit(m: map<int, WeatherInfo>, item: (Option<int>, WeatherInfo)): map<int, WeatherInfo> {
    if item.0.Some? && item.0.value !in m then m[item.0.value := item.1] else m
  }

  /** The date index after visiting every entry. */
  function FirstWins(items: seq<(Option<int>, WeatherInfo)>): map<int, WeatherInfo> {
    if items == [] then map[] else Visit(FirstWins(items[..|items| - 1]), items[|items| - 1])
  }

  /** The indexing loops of `fetch_and_store_weather_data`. */
  method IndexWeatherByDate(series: seq<WeatherSeries>) returns (byDate: map<int, WeatherInfo>)
    ensures byDate == FirstWins(Flatten(series))
  {
    byDate := map[];
    var k := 0;
    while k < |series|
      invariant 0 <= k <= |series|
      invariant byDate == FirstWins(Flatten(series[..k]))
    {
      var s := series[k];
      ghost var pre := Flatten(series[..k]);
      ghost var items := SeriesItems(s);
      var i := 0;
      assert pre + items[..0] == pre;
      while i < |s.times|
        invariant 0 <= i <= |s.times|
        invariant byDate == FirstWins(pre + items[..i])
      {
        assert items[i] == (s.times[i], InfoAt(s, i));
        VisitNext(pre, items, i);
        if s.times[i].Some? && s.times[i].value !in byDate {
          byDate := byDate[s.times[i].value := InfoAt(s, i)];
        }
        i := i + 1;
      }
      assert items[..i] == items;
      FlattenNext(series, k);
      k := k + 1;
    }
    assert series[..k] == series;
  }

  /** Visiting one more entry of the current series is one more step of the index. */
  lemma VisitNext(pre: seq<(Option<int>, WeatherInfo)>, items: seq<(Option<int>, WeatherInfo)>, i: nat)
    requires i < |items|
    ensures FirstWins(pre + items[..i + 1]) == Visit(FirstWins(pre + items[..i]), items[i])
  {
    var before := pre + items[..i];
    assert pre + items[..i + 1] == before + [items[i]];
    assert (before + [items[i]])[..|before|] == before;
  }

  /** The entries of the first `k + 1` series are those of the first `k` followed by the next series'. */
  lemma FlattenNext(series: seq<WeatherSeries>, k: nat)
    requires k < |series|
    ensures Flatten(series[..k + 1]) == Flatten(series[..k]) + SeriesItems(series[k])
  {
    assert series[..k + 1][..k] == series[..k];
  }

  /** A date is indexed iff some entry carries it, and it keeps what its first entry carried. */
  lemma {:induction false} FirstWinsProperty(items: seq<(Option<int>, WeatherInfo)>, d: int)
    ensures d in FirstWins(items) <==> exists i :: 0 <= i < |items| && items[i].0 == Some(d)
    ensures d in FirstWins(items) ==>
      exists i :: 0 <= i < |items| && items[i] == (Some(d), FirstWins(items)[d])
                  && forall j :: 0 <= j < i ==> items[j].0 != Some(d)
  {
    if items != [] {
      var pre := items[..|items| - 1];
      FirstWinsProperty(pre, d);
      assert forall i :: 0 <= i < |pre| ==> pre[i] == items[i];
      if d in FirstWins(pre) {
        var i :| 0 <= i < |pre| && pre[i] == (Some(d), FirstWins(pre)[d]) && forall j :: 0 <= j < i ==> pre[j].0 != Some(d);
        assert items[i] == pre[i];
      } else if items[|items| - 1].0 == Some(d) {
        assert forall j :: 0 <= j < |items| - 1 ==> items[j].0 != Some(d);
      }
    }
  }

  /** The code stored for a date: the JMA code is preferred over the text; overcast (3) when neither came. */
  function WeatherCodeFor(info: Option<WeatherInfo>): int {
    if info.None? then 3
    else if info.value.code.Some? then MapJmaCode(info.value.code)
    else if info.value.text.Some? then MapWeatherText(info.value.text.value)
    else 3
  }

  datatype WeatherError = WeatherNotFound

  /**
   * The codes `fetch_and_store_weather_data` stores: 404 when no forecast area is the Fukuoka
   * weather area; otherwise one code for every date of the weather or the temperature series.
   */
  function MergeWeatherCodes(series: seq<WeatherSeries>, tempDates: set<int>): Result<map<int, int>, WeatherError> {
    if series == [] then Err(WeatherNotFound)
    else
      var byDate := FirstWins(Flatten(series));
      Ok(map d | d in byDate.Keys + tempDates :: WeatherCodeFor(if d in byDate then Some(byDate[d]) else None))
  }

  method FetchAndStoreWeatherCodes(series: seq<WeatherSeries>, tempDates: set<int>) returns (r: Result<map<int, int>, WeatherError>)
    ensures r == MergeWeatherCodes(series, tempDates)
  {
    if series == [] {
      return Err(WeatherNotFound);
    }
    var byDate := IndexWeatherByDate(series);
    r := Ok(map d | d in byDate.Keys + tempDates :: WeatherCodeFor(if d in byDate then Some(byDate[d]) else None));
  }

  /**
   * Every date of either series gets a code; the first weather entry for the date decides it,
   * its code preferred over its text; a date only the temperatures carry is overcast.
   */
  lemma MergeProperties(series: seq<WeatherSeries>, tempDates: set<int>, d: int)
    requires series != []
    ensures var codes := MergeWeatherCodes(series, tempDates).value;
      var items := Flatten(series);
      && (d in codes <==> d in tempDates || exists i :: 0 <= i < |items| && items[i].0 == Some(d))
      && ((exists i :: 0 <= i < |items| && items[i].0 == Some(d)) ==>
            exists i :: 0 <= i < |items| && items[i].0 == Some(d) && (forall j :: 0 <= j < i ==> items[j].0 != Some(d))
                        && codes[d] == WeatherCodeFor(Some(items[i].1)))
      && (d in tempDates && !(exists i :: 0 <= i < |items| && items[i].0 == Some(d)) ==> codes[d] == 3)
  {
    var items := Flatten(series);
    var byDate := FirstWins(items);
    var codes := MergeWeatherCodes(series, tempDates).value;
    assert codes == map d | d in byDate.Keys + tempDates :: WeatherCodeFor(if d in byDate then Some(byDate[d]) else None);
    assert d in codes <==> d in byDate || d in tempDates;
    FirstWinsProperty(items, d);
    assert d in byDate <==> exists i :: 0 <= i < |items| && items[i].0 == Some(d);
    assert d in codes <==> d in tempDates || exists i :: 0 <= i < |items| && items[i].0 == Some(d);
    if d in byDate {
      var i :| 0 <= i < |items| && items[i] == (Some(d), byDate[d]) && forall j :: 0 <= j < i ==> items[j].0 != Some(d);
      assert codes[d] == WeatherCodeFor(Some(items[i].1));
    } else if d in tempDates {
      assert codes[d] == WeatherCodeFor(None);
    }
  }
}
