/**
 * The AI advisor's reading of the language model's answer: advice lines are sorted into
 * product, customer and weather recommendations by keyword precedence.
 */
module LlmAdvisor {
  import opened Common
  import opened Text

  datatype Bucket = ProductPromotion | CustomerTargeting | WeatherStrategy

  const ProductKeywords: seq<string> := ["商品", "売れ", "メニュー", "セット"]
  const CustomerKeywords: seq<string> := ["客", "年代", "性別", "SNS", "ターゲット"]
  const WeatherKeywords: seq<string> := ["天", "雨", "晴", "気象"]

  /** The line contains at least one of the keywords (the `or` chain of `in` tests). */
  predicate HasAny(line: string, keywords: seq<string>) {
    exists i :: 0 <= i < |keywords| && Contains(line, keywords[i])
  }

  predicate HasProductKeyword(line: string) {
    HasAny(line, ProductKeywords)
  }

  predicate HasCustomerKeyword(line: string) {
    HasAny(line, CustomerKeywords)
  }

  predicate HasWeatherKeyword(line: string) {
    HasAny(line, WeatherKeywords)
  }

  /** The bucket of a classified line: product keywords first, then customer, then weather; products by default. */
  function Classify(line: string): Bucket {
    if HasProductKeyword(line) then ProductPromotion
    else if HasCustomerKeyword(line) then CustomerTargeting
    else if HasWeatherKeyword(line) then WeatherStrategy
    else ProductPromotion
  }

  /**
   * A stripped line is classified when it is not empty, is not a heading (`#` or `【`) and
   * starts like a list entry: a digit, `-` or `・`.
   */
  predicate IsAdviceLine(line: string) {
    && line != []
    && !StartsWith(line, "#") && !StartsWith(line, "【")
    && (IsDigit(line[0]) || StartsWith(line, "-") || StartsWith(line, "・"))
  }

  /** What a stripped line adds to bucket `b`: itself or nothing. */
  function Landing(line: string, b: Bucket): seq<string> {
    if IsAdviceLine(line) && Classify(line) == b then [line] else []
  }

  /** The stripped advice lines of `lines`, in order, that land in bucket `b`. */
  function Picked(lines: seq<string>, b: Bucket): seq<string> {
    if lines == [] then [] else Picked(lines[..|lines| - 1], b) + Landing(Strip(lines[|lines| - 1]), b)
  }

  /** How many of `lines` are advice lines once stripped. */
  function AdviceLineCount(lines: seq<string>): nat {
    if lines == [] then 0
    else AdviceLineCount(lines[..|lines| - 1]) + (if IsAdviceLine(Strip(lines[|lines| - 1])) then 1 else 0)
  }

  /** The classification loop of `_parse_advice_response`. */
  method BucketLines(lines: seq<string>) returns (products: seq<string>, customers: seq<string>, weather: seq<string>)
    ensures products == Picked(lines, ProductPromotion)
    ensures customers == Picked(lines, CustomerTargeting)
    ensures weather == Picked(lines, WeatherStrategy)
  {
    products, customers, weather := [], [], [];
    var i := 0;
    while i < |lines|
      invariant 0 <= i <= |lines|
      invariant products == Picked(lines[..i], ProductPromotion)
      invariant customers == Picked(lines[..i], CustomerTargeting)
      invariant weather == Picked(lines[..i], WeatherStrategy)
    {
      PickedNext(lines, i);
      products, customers, weather := BucketLine(Strip(lines[i]), products, customers, weather);
      i := i + 1;
    }
    assert lines[..i] == lines;
  }

  /** One pass of the classification loop: a stripped line joins the bucket it lands in, if any. */
  method BucketLine(line: string, products: seq<string>, customers: seq<string>, weather: seq<string>)
    returns (products': seq<string>, customers': seq<string>, weather': seq<string>)
    ensures products' == products + Landing(line, ProductPromotion)
    ensures customers' == customers + Landing(line, CustomerTargeting)
    ensures weather' == weather + Landing(line, WeatherStrategy)
  {
    products', customers', weather' := products, customers, weather;
    if line == [] || StartsWith(line, "#") || StartsWith(line, "【") {
      return;
    }
    if IsDigit(line[0]) || StartsWith(line, "-") || StartsWith(line, "・") {
      if HasProductKeyword(line) {
        products' := products + [line];
      } else if HasCustomerKeyword(line) {
        customers' := customers + [line];
      } else if HasWeatherKeyword(line) {
        weather' := weather + [line];
      } else {
        products' := products + [line];
      }
    }
  }

  /** One more input line adds its landing to every bucket. */
  lemma PickedNext(lines: seq<string>, i: nat)
    requires i < |lines|
    ensures Picked(lines[..i + 1], ProductPromotion) == Picked(lines[..i], ProductPromotion) + Landing(Strip(lines[i]), ProductPromotion)
    ensures Picked(lines[..i + 1], CustomerTargeting) == Picked(lines[..i], CustomerTargeting) + Landing(Strip(lines[i]), CustomerTargeting)
    ensures Picked(lines[..i + 1], WeatherStrategy) == Picked(lines[..i], WeatherStrategy) + Landing(Strip(lines[i]), WeatherStrategy)
  {
    assert lines[..i + 1][..i] == lines[..i];
  }

  /** Keyword precedence, both ways: what puts a line into each bucket. */
  lemma ClassifyPrecedence(line: string)
    ensures Classify(line) == CustomerTargeting <==> !HasProductKeyword(line) && HasCustomerKeyword(line)
    ensures Classify(line) == WeatherStrategy <==> !HasProductKeyword(line) && !HasCustomerKeyword(line) && HasWeatherKeyword(line)
    ensures Classify(line) == ProductPromotion <==> HasProductKeyword(line) || (!HasCustomerKeyword(line) && !HasWeatherKeyword(line))
  {
  }

  /** Every line of a bucket is an advice line that the keywords send there. */
  lemma {:induction false} PickedClassified(lines: seq<string>, b: Bucket)
    ensures forall k :: 0 <= k < |Picked(lines, b)| ==> IsAdviceLine(Picked(lines, b)[k]) && Classify(Picked(lines, b)[k]) == b
  {
    if lines != [] {
      var n := |lines| - 1;
      var pre := lines[..n];
      PickedClassified(pre, b);
      var p := Picked(pre, b);
      var l := Landing(Strip(lines[n]), b);
      assert Picked(lines, b) == p + l;
      forall k | 0 <= k < |p + l|
        ensures IsAdviceLine((p + l)[k]) && Classify((p + l)[k]) == b
      {
        if k < |p| {
          assert (p + l)[k] == p[k];
        } else {
          assert (p + l)[k] == l[0] == Strip(lines[n]);
        }
      }
    } else {
      assert Picked(lines, b) == [];
    }
  }

  /** Every line of a bucket is some input line, stripped; a bucket is never longer than the input. */
  lemma {:induction false} PickedFromInput(lines: seq<string>, b: Bucket)
    ensures forall k :: 0 <= k < |Picked(lines, b)| ==> exists j :: 0 <= j < |lines| && Strip(lines[j]) == Picked(lines, b)[k]
    ensures |Picked(lines, b)| <= |lines|
  {
    if lines != [] {
      var n := |lines| - 1;
      var pre := lines[..n];
      PickedFromInput(pre, b);
      var p := Picked(pre, b);
      assert Picked(lines, b) == p + Landing(Strip(lines[n]), b);
      forall k | 0 <= k < |Picked(lines, b)|
        ensures exists j :: 0 <= j < |lines| && Strip(lines[j]) == Picked(lines, b)[k]
      {
        if k < |p| {
          var j :| 0 <= j < |pre| && Strip(pre[j]) == p[k];
          assert lines[j] == pre[j];
          assert Strip(lines[j]) == Picked(lines, b)[k];
        } else {
          assert Strip(lines[n]) == Picked(lines, b)[k];
        }
      }
    } else {
      assert Picked(lines, b) == [];
    }
  }

  /** Every line of the customer bucket lacks product keywords and names a customer keyword. */
  lemma CustomerBucketKeywords(lines: seq<string>)
    ensures forall k :: 0 <= k < |Picked(lines, CustomerTargeting)| ==>
      !HasProductKeyword(Picked(lines, CustomerTargeting)[k]) && HasCustomerKeyword(Picked(lines, CustomerTargeting)[k])
  {
    PickedClassified(lines, CustomerTargeting);
    var c := Picked(lines, CustomerTargeting);
    forall k | 0 <= k < |c|
      ensures !HasProductKeyword(c[k]) && HasCustomerKeyword(c[k])
    {
      ClassifyPrecedence(c[k]);
    }
  }

  /** Every line of the weather bucket names a weather keyword and neither a product nor a customer keyword. */
  lemma WeatherBucketKeywords(lines: seq<string>)
    ensures forall k :: 0 <= k < |Picked(lines, WeatherStrategy)| ==>
      var line := Picked(lines, WeatherStrategy)[k];
      !HasProductKeyword(line) && !HasCustomerKeyword(line) && HasWeatherKeyword(line)
  {
    PickedClassified(lines, WeatherStrategy);
    var w := Picked(lines, WeatherStrategy);
    forall k | 0 <= k < |w|
      ensures !HasProductKeyword(w[k]) && !HasCustomerKeyword(w[k]) && HasWeatherKeyword(w[k])
    {
      ClassifyPrecedence(w[k]);
    }
  }

  /** Each advice line goes to exactly one bucket: the bucket sizes add up to the advice lines. */
  lemma {:induction false} PickedPartition(lines: seq<string>)
    ensures |Picked(lines, ProductPromotion)| + |Picked(lines, CustomerTargeting)| + |Picked(lines, WeatherStrategy)|
      == AdviceLineCount(lines)
  {
    if lines != [] {
      PickedPartition(lines[..|lines| - 1]);
    }
  }

  /** What the advisor hands back, besides echoing the analytics it was given. */
  datatype Advice = Advice(summary: string, aiGeneratedAdvice: seq<string>, productPromotions: seq<string>,
                           customerTargeting: seq<string>, weatherStrategy: seq<string>)

  /** `_parse_advice_response` with the `recommendation` entry of the weather analysis, if any. */
  function ParseAdvice(adviceText: string, recommendation: Option<string>): Advice {
    var lines := Split(adviceText, '\n');
    var products := Picked(lines, ProductPromotion);
    var customers := Picked(lines, CustomerTargeting);
    var weather := Picked(lines, WeatherStrategy);
    var allEmpty := products == [] && customers == [] && weather == [];
    Advice(adviceText, [adviceText], if allEmpty then [adviceText] else products, customers,
           if weather != [] then weather else [if recommendation.Some? then recommendation.value else ""])
  }

  method ParseAdviceResponse(adviceText: string, recommendation: Option<string>) returns (advice: Advice)
    ensures advice == ParseAdvice(adviceText, recommendation)
  {
    var lines := Split(adviceText, '\n');
    var products, customers, weather := BucketLines(lines);
    if products == [] && customers == [] && weather == [] {
      products := [adviceText];
    }
    var strategy := weather;
    if weather == [] {
      strategy := [if recommendation.Some? then recommendation.value else ""];
    }
    advice := Advice(adviceText, [adviceText], products, customers, strategy);
  }

  /**
   * The summary and the generated advice carry the whole text; without any advice line the text
   * itself becomes the one product promotion; an empty weather strategy falls back to the
   * weather analysis' recommendation, or "".
   */
  lemma ParseAdviceProperties(adviceText: string, recommendation: Option<string>)
    ensures var a := ParseAdvice(adviceText, recommendation);
      var lines := Split(adviceText, '\n');
      && a.summary == adviceText && a.aiGeneratedAdvice == [adviceText]
      && (AdviceLineCount(lines) == 0 ==> a.productPromotions == [adviceText] && a.customerTargeting == [])
      && (AdviceLineCount(lines) > 0 ==>
            a.productPromotions == Picked(lines, ProductPromotion) && a.customerTargeting == Picked(lines, CustomerTargeting))
      && (Picked(lines, WeatherStrategy) != [] ==> a.weatherStrategy == Picked(lines, WeatherStrategy))
      && (Picked(lines, WeatherStrategy) == [] ==> a.weatherStrategy == [if recommendation.Some? then recommendation.value else ""])
  {
    PickedPartition(Split(adviceText, '\n'));
  }

  /** A numbered or bulleted line naming a product is a product promotion, whatever else it names. */
  lemma ExampleAdviceLine()
    ensures Strip("- 雨の日限定の商品セット") == "- 雨の日限定の商品セット"
    ensures IsAdviceLine("- 雨の日限定の商品セット") && Classify("- 雨の日限定の商品セット") == ProductPromotion
  {
    var line := "- 雨の日限定の商品セット";
    assert !IsSpace(line[0]) && !IsSpace(line[|line| - 1]);
    assert TrimStart(line) == line;
    assert StartsWith(line, "-");
    ContainsAt(line, "商品", 8);
    assert ProductKeywords[0] == "商品";
  }

  /** A heading is never classified, even when it names the weather. */
  lemma ExampleHeading()
    ensures Strip("【天気】") == "【天気】" && !IsAdviceLine("【天気】")
  {
    var heading := "【天気】";
    assert !IsSpace(heading[0]) && !IsSpace(heading[|heading| - 1]);
    assert TrimStart(heading) == heading;
    assert StartsWith(heading, "【");
  }

  /** `_trend_to_japanese`: the four known trend keys; anything else is "不明" (unknown). */
  function TrendToJapanese(trend: string): (japanese: string)
    ensures japanese == "不明" <==> trend !in {"increasing", "decreasing", "stable", "insufficient_data"}
  {
    if trend == "increasing" then "上昇傾向"
    else if trend == "decreasing" then "下降傾向"
    else if trend == "stable" then "安定"
    else if trend == "insufficient_data" then "データ不足"
    else "不明"
  }

  /** Distinct trends keep distinct labels. */
  lemma TrendLabelsDistinct(a: string, b: string)
    requires a in {"increasing", "decreasing", "stable", "insufficient_data"}
    requires TrendToJapanese(a) == TrendToJapanese(b)
    ensures a == b
  {
  }
}
