/**
 * `POST /api/predict` (app/api/predict/route.ts): validates the review text
 * and returns a mock verdict whose label, confidence, keywords and flags come
 * from `Math.random()`. The random values are parameters here; the fixed
 * artificial delay does not change the response and is not modelled.
 */
module PredictRoute {
  import opened Common
  import opened Text

  /** The `reviewText` taken out of the parsed JSON body. `Missing` is its
      absence: an object without the member, or a JSON number, string,
      boolean or array, whose destructuring yields `undefined`. A value that
      is not a string is only distinguished by whether JavaScript finds it
      truthy. */
  datatype Field = Missing | Str(text: string) | NonString(truthy: bool)

  /** What `const { reviewText } = await request.json()` does with the body:
      `Unparsable` when that statement throws (the body is not JSON, or it is
      JSON `null`, which cannot be destructured), `Json` with the member's
      value otherwise. */
  datatype Body = Unparsable | Json(reviewText: Field)

  /** The values `Math.random()` returns for one request, each in [0, 1). */
  datatype Draws = Draws(labelDraw: real, confidenceDraw: real, keywordDraws: seq<real>, repetitiveDraw: real, patternDraw: real)

  /** One heatmap cell; its float `confidence` is not modelled. */
  datatype HeatCell = HeatCell(word: string, position: nat)

  /** The 200 response body; `ratingDeviation` and `sentimentScore` (floats)
      are not modelled. `labelValue` is the JSON member `label`, a Dafny keyword. */
  datatype Verdict = Verdict(
    labelValue: Label,
    confidence: int,
    suspiciousKeywords: seq<string>,
    reviewLength: nat,
    repetitivePatterns: bool,
    explanation: string,
    confidenceHeatmap: seq<HeatCell>)

  datatype Response = Ok(verdict: Verdict) | Error(status: nat, message: string)

  const CandidateKeywords: seq<string> := ["amazing", "perfect", "best ever", "highly recommend"]
  const RequiredMessage: string := "Review text is required"
  const FailureMessage: string := "Failed to analyze review. Please try again."

  predicate ValidDraws(d: Draws) {
    && IsUniform(d.labelDraw) && IsUniform(d.confidenceDraw)
    && |d.keywordDraws| == |CandidateKeywords|
    && (forall i :: 0 <= i < |d.keywordDraws| ==> IsUniform(d.keywordDraws[i]))
    && IsUniform(d.repetitiveDraw) && IsUniform(d.patternDraw)
  }

  // ---------------------------------------------------------------------------
  // keywords

  /** `xs.filter(() => Math.random() > 0.5)`, one draw per element. */
  function SelectKeywords(xs: seq<string>, draws: seq<real>): seq<string>
    requires |draws| == |xs|
  {
    if |xs| == 0 then []
    else (if draws[0] > 0.5 then [xs[0]] else []) + SelectKeywords(xs[1..], draws[1..])
  }

  /** `a` is `b` with some elements left out, the rest in their order. */
  predicate IsSubsequence(a: seq<string>, b: seq<string>)
    decreases |b|
  {
    if |a| == 0 then true
    else if |b| == 0 then false
    else (a[0] == b[0] && IsSubsequence(a[1..], b[1..])) || IsSubsequence(a, b[1..])
  }

  /** The filter keeps an order-preserving selection of the candidates. */
  lemma {:induction false} SelectedIsSubsequence(xs: seq<string>, draws: seq<real>)
    requires |draws| == |xs|
    ensures IsSubsequence(SelectKeywords(xs, draws), xs)
    ensures |SelectKeywords(xs, draws)| <= |xs|
  {
    if |xs| > 0 {
      var rest := SelectKeywords(xs[1..], draws[1..]);
      SelectedIsSubsequence(xs[1..], draws[1..]);
      if draws[0] > 0.5 {
        assert SelectKeywords(xs, draws) == [xs[0]] + rest;
        assert ([xs[0]] + rest)[1..] == rest;
      } else {
        assert SelectKeywords(xs, draws) == rest;
      }
    }
  }

  // ---------------------------------------------------------------------------
  // heatmap and explanation

  /** `words.map((word, index) => ({ word, position: index }))`: the cells of
      all but the last word, then the last word's cell at its own index. */
  function Heatmap(words: seq<string>): (r: seq<HeatCell>)
    ensures |r| == |words|
    ensures forall i :: 0 <= i < |r| ==> r[i].word == words[i] && r[i].position == i
  {
    if |words| == 0 then []
    else Heatmap(words[..|words| - 1]) + [HeatCell(words[|words| - 1], |words| - 1)]
  }

  /** The explanation template, with the word count rendered in decimal. */
  function Explanation(wordCount: nat, suspicious: bool): string
  {
    AnalyzedPrefix + Decimal(wordCount) + " words and detected "
    + (if suspicious then "suspicious" else "normal")
    + " patterns in sentiment distribution and keyword usage."
  }

  const AnalyzedPrefix: string := "The model analyzed "

  /** A piece glued after a prefix is found right after it. */
  lemma PieceAfterPrefix(p: string, m: string, a: string, b: string, c: string)
    ensures var r := p + m + a + b + c;
      p <= r && |p| + |m| <= |r| && r[|p|..|p| + |m|] == m
  {
    var r := p + m + a + b + c;
    assert r == p + (m + (a + b + c));
  }

  /** Right after "The model analyzed " come the digits of `w`, and they
      read back as `w`. */
  predicate NamesWordCount(e: string, w: nat) {
    var k := |AnalyzedPrefix|;
    var n := |Decimal(w)|;
    && AnalyzedPrefix <= e && k + n <= |e|
    && e[k..k + n] == Decimal(w)
    && DecimalValue(e[k..k + n]) == w
  }

  /** The explanation names the word count it was built from. */
  lemma ExplanationWordCount(wordCount: nat, suspicious: bool)
    ensures NamesWordCount(Explanation(wordCount, suspicious), wordCount)
  {
    PieceAfterPrefix(AnalyzedPrefix, Decimal(wordCount), " words and detected ",
                     if suspicious then "suspicious" else "normal",
                     " patterns in sentiment distribution and keyword usage.");
    DecimalRoundTrip(wordCount);
  }

  /** The mock verdict for a review that passed validation. */
  function Analyze(text: string, d: Draws): Verdict
    requires ValidDraws(d)
  {
    var words := Words(text);
    Verdict(
      LabelOf(d.labelDraw),
      ConfidenceOf(d.confidenceDraw),
      SelectKeywords(CandidateKeywords, d.keywordDraws),
      |text|,
      d.repetitiveDraw > 0.6,
      Explanation(|words|, d.patternDraw > 0.5),
      Heatmap(words))
  }

  // ---------------------------------------------------------------------------
  // the route

  /** The `POST` handler: parse the body, validate `reviewText`, answer. */
  function Post(body: Body, d: Draws): Response
    requires ValidDraws(d)
  {
    match body
    case Unparsable => Error(500, FailureMessage)
    case Json(field) =>
      match field
      case Missing => Error(400, RequiredMessage)
      // `!reviewText` holds for a falsy value; a truthy non-string has no `trim` and throws
      case NonString(truthy) => if truthy then Error(500, FailureMessage) else Error(400, RequiredMessage)
      case Str(text) =>
        if text == "" || Trim(text) == "" then Error(400, RequiredMessage)
        else Ok(Analyze(text, d))
  }

  /** A body that holds a review text. */
  predicate HasReview(body: Body) {
    body.Json? && body.reviewText.Str? && !Blank(body.reviewText.text)
  }

  /** The three outcomes and when each happens: 400 "Review text is required"
      for a missing, falsy, empty or white-space-only `reviewText`; 500 for an
      unparsable body or a value whose `trim` throws; a verdict otherwise. */
  lemma PostOutcome(body: Body, d: Draws)
    requires ValidDraws(d)
    ensures Post(body, d) == Error(400, RequiredMessage) <==>
              body.Json? && (body.reviewText.Missing? || body.reviewText == NonString(false)
                             || (body.reviewText.Str? && Blank(body.reviewText.text)))
    ensures Post(body, d) == Error(500, FailureMessage) <==>
              body.Unparsable? || body == Json(NonString(true))
    ensures Post(body, d).Ok? <==> HasReview(body)
  {
    if body.Json? && body.reviewText.Str? {
      TrimEmptyIffBlank(body.reviewText.text);
    }
  }

  /** What a verdict says about the review it was computed from: one heatmap
      cell per `split(/\s+/)` word, cell i holding word i at position i; the
      word count is the number of white-space runs plus one; `reviewLength`
      is the raw length; the confidence lies in [70, 99]; the keywords are an
      order-preserving selection of the four candidates. */
  predicate DescribesReview(v: Verdict, text: string) {
    && |v.confidenceHeatmap| == |Words(text)| == RunCount(text) + 1
    && (forall i :: 0 <= i < |v.confidenceHeatmap| ==>
          v.confidenceHeatmap[i].word == Words(text)[i] && v.confidenceHeatmap[i].position == i)
    && v.reviewLength == |text|
    && 70 <= v.confidence <= 99
    && IsSubsequence(v.suspiciousKeywords, CandidateKeywords)
    && |v.suspiciousKeywords| <= |CandidateKeywords|
  }

  /** The verdict describes its review. */
  lemma AnalyzeProperties(text: string, d: Draws)
    requires ValidDraws(d)
    ensures DescribesReview(Analyze(text, d), text)
  {
    WordsCount(text);
    SelectedIsSubsequence(CandidateKeywords, d.keywordDraws);
  }

  /** The explanation names the number of words: it is the template filled
      with the heatmap's length, and the digits after "The model analyzed "
      read back as the `split(/\s+/)` word count. */
  lemma AnalyzeExplanation(text: string, d: Draws)
    requires ValidDraws(d)
    ensures Analyze(text, d).explanation
              == Explanation(|Analyze(text, d).confidenceHeatmap|, d.patternDraw > 0.5)
    ensures NamesWordCount(Analyze(text, d).explanation, |Words(text)|)
  {
    ExplanationWordCount(|Words(text)|, d.patternDraw > 0.5);
  }

  /** A non-blank review is answered with the verdict `Analyze` computes,
      which describes the review as `DescribesReview` states. */
  lemma VerdictProperties(text: string, d: Draws)
    requires ValidDraws(d)
    requires !Blank(text)
    ensures Post(Json(Str(text)), d) == Ok(Analyze(text, d))
    ensures DescribesReview(Post(Json(Str(text)), d).verdict, text)
  {
    PostOutcome(Json(Str(text)), d);
    AnalyzeProperties(text, d);
  }
}
