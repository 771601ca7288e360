/**
 * `POST /api/bulk-predict` (app/api/bulk-predict/route.ts): validates the
 * uploaded CSV file, takes the text before the first comma of each data line
 * (at most 100 of them), labels each row with `Math.random()` and aggregates
 * the counts. The random values and the elapsed time are parameters; the
 * fixed artificial delay is not modelled.
 */
module BulkPredictRoute {
  import opened Common
  import opened Text

  /** The `file` entry of the multipart form: absent, a plain text field, or
      an uploaded file with its declared content type and its text. */
  datatype FormField = NoField | TextField(value: string) | FileField(contentType: string, contents: string)

  /** What `request.formData()` yields: a parse failure, or a form. */
  datatype FormData = Unreadable | Form(file: FormField)

  /** The two `Math.random()` values drawn for one row, each in [0, 1). */
  datatype RowDraw = RowDraw(labelDraw: real, confidenceDraw: real)

  /** One entry of `results`; `labelValue` is the JSON member `label`. */
  datatype RowResult = RowResult(id: nat, text: string, labelValue: Label, confidence: int)

  /** The 200 response body. `averageConfidence` is the exact mean; the
      `toFixed(1)` rounding is not modelled. */
  datatype Summary = Summary(
    totalReviews: nat,
    fakeCount: nat,
    genuineCount: int,
    averageConfidence: real,
    results: seq<RowResult>,
    processingTime: nat)

  datatype Response = Ok(summary: Summary) | Error(status: nat, message: string)

  const MaxRows: nat := 100
  const CsvType: string := "text/csv"
  const FileRequiredMessage: string := "CSV file is required"
  const NotCsvMessage: string := "File must be a CSV"
  const TooShortMessage: string := "CSV must contain at least a header and one data row"
  const FailureMessage: string := "Failed to process CSV file. Please check the format and try again."
  const FallbackPrefix: string := "Sample review "

  predicate ValidRowDraws(draws: seq<RowDraw>) {
    forall i :: 0 <= i < |draws| ==> IsUniform(draws[i].labelDraw) && IsUniform(draws[i].confidenceDraw)
  }

  // ---------------------------------------------------------------------------
  // lines

  /** `lines.filter((line) => line.trim())`: the lines whose trim is non-empty,
      kept untrimmed. A trimmed line is empty exactly when the line is blank
      (`TrimEmptyIffBlank`), so the test is written as `!Blank`;
      `NonBlankLinesSingle` restates it with `Trim`. */
  function NonBlankLines(lines: seq<string>): seq<string>
  {
    if |lines| == 0 then []
    else (if !Blank(lines[0]) then [lines[0]] else []) + NonBlankLines(lines[1..])
  }

  /** The kept lines are exactly the input lines that are not blank. */
  lemma {:induction false} NonBlankLinesSpec(lines: seq<string>)
    ensures forall l :: l in NonBlankLines(lines) <==> l in lines && !Blank(l)
  {
    if |lines| > 0 {
      NonBlankLinesSpec(lines[1..]);
      TrimEmptyIffBlank(lines[0]);
      assert lines == [lines[0]] + lines[1..];
    }
  }

  /** One line is kept exactly when it is not blank. */
  lemma NonBlankLinesSingle(l: string)
    ensures NonBlankLines([l]) == if Blank(l) then [] else [l]
    ensures NonBlankLines([l]) == if Trim(l) != "" then [l] else []
  {
    TrimEmptyIffBlank(l);
    assert [l][1..] == [];
  }

  /** The filter works line by line, keeping the order: filtering two blocks of
      lines one after the other is filtering their concatenation. */
  lemma {:induction false} NonBlankLinesAppend(a: seq<string>, b: seq<string>)
    ensures NonBlankLines(a + b) == NonBlankLines(a) + NonBlankLines(b)
    decreases |a|
  {
    if |a| == 0 {
      assert a + b == b;
    } else {
      var x, r := a[0], a[1..];
      assert (a + b)[0] == x && (a + b)[1..] == r + b;
      NonBlankLinesAppend(r, b);
      var head := if !Blank(x) then [x] else [];
      assert NonBlankLines(a + b) == head + (NonBlankLines(r) + NonBlankLines(b));
    }
  }

  /** `csvText.split("\n").filter((line) => line.trim())`. */
  function KeptLines(csv: string): seq<string>
  {
    NonBlankLines(SplitOn(csv, '\n'))
  }

  /** Every kept line is a non-blank piece of the text between two newlines,
      and every such piece is kept. */
  lemma KeptLinesSpec(csv: string)
    ensures forall l :: l in KeptLines(csv) <==> l in SplitOn(csv, '\n') && !Blank(l)
    ensures forall l :: l in KeptLines(csv) ==> '\n' !in l
  {
    NonBlankLinesSpec(SplitOn(csv, '\n'));
  }

  /** A single line of text is kept exactly when it is not blank. */
  lemma KeptLinesOfLine(line: string)
    requires '\n' !in line
    ensures KeptLines(line) == if Blank(line) then [] else [line]
  {
    SplitOnWithout(line, '\n');
    NonBlankLinesSingle(line);
  }

  /** The kept lines of a text are those of the part before a newline followed
      by those of the part after it, so they appear in the text's order and the
      header is the first non-blank line. */
  lemma KeptLinesAppend(a: string, b: string)
    ensures KeptLines(a + "\n" + b) == KeptLines(a) + KeptLines(b)
  {
    SplitOnAppend(a, '\n', b);
    NonBlankLinesAppend(SplitOn(a, '\n'), SplitOn(b, '\n'));
  }

  // ---------------------------------------------------------------------------
  // rows

  /** `line.split(",")[0] || \`Sample review ${index + 1}\``. */
  function RowText(line: string, index: nat): string
  {
    var first := SplitOn(line, ',')[0];
    if first != "" then first else FallbackPrefix + Decimal(index + 1)
  }

  /** The row text is the part of the line before its first comma, unless that
      part is empty (the line starts with a comma), in which case it is
      "Sample review " followed by the 1-based row number. */
  lemma RowTextSpec(line: string, index: nat)
    ensures var t := RowText(line, index);
      if line != "" && line[0] != ',' then
        && t <= line && ',' !in t
        && (|t| == |line| || line[|t|] == ',')
      else
        && t == FallbackPrefix + Decimal(index + 1)
        && DecimalValue(t[|FallbackPrefix|..]) == index + 1
  {
    SplitOnFirst(line, ',');
    var t := RowText(line, index);
    if line == "" || line[0] == ',' {
      DecimalRoundTrip(index + 1);
      assert t[|FallbackPrefix|..] == Decimal(index + 1);
    } else {
      assert line[0] == SplitOn(line, ',')[0][0];
    }
  }

  /** One entry of `results`: row `index` (0-based) built from `line` and its draw. */
  function MakeRow(line: string, draw: RowDraw, index: nat): RowResult
    requires IsUniform(draw.confidenceDraw)
  {
    RowResult(index + 1, Truncate100(RowText(line, index)), LabelOf(draw.labelDraw), ConfidenceOf(draw.confidenceDraw))
  }

  /** `dataLines.map((line, index) => ...)`: row i is built from line i and
      draws its label and confidence from `draws[i]`. */
  function Rows(lines: seq<string>, draws: seq<RowDraw>): seq<RowResult>
    requires |lines| <= |draws| && ValidRowDraws(draws)
  {
    seq(|lines|, i requires 0 <= i < |lines| => MakeRow(lines[i], draws[i], i))
  }

  // ---------------------------------------------------------------------------
  // aggregates

  /** `results.filter((r) => r.label === l).length`. */
  function CountLabel(rs: seq<RowResult>, l: Label): nat
  {
    if |rs| == 0 then 0 else (if rs[0].labelValue == l then 1 else 0) + CountLabel(rs[1..], l)
  }

  /** `results.reduce((sum, r) => sum + r.confidence, 0)`. */
  function SumConfidence(rs: seq<RowResult>): int
  {
    if |rs| == 0 then 0 else rs[0].confidence + SumConfidence(rs[1..])
  }

  /** Every row is either Fake or Genuine, so the two counts add up. */
  lemma {:induction false} CountsPartition(rs: seq<RowResult>)
    ensures CountLabel(rs, Fake) + CountLabel(rs, Genuine) == |rs|
  {
    if |rs| > 0 {
      CountsPartition(rs[1..]);
    }
  }

  /** Confidences in [70, 99] sum to between 70 and 99 times their number. */
  lemma {:induction false} SumConfidenceBounds(rs: seq<RowResult>)
    requires forall i :: 0 <= i < |rs| ==> 70 <= rs[i].confidence <= 99
    ensures 70 * |rs| <= SumConfidence(rs) <= 99 * |rs|
  {
    if |rs| > 0 {
      SumConfidenceBounds(rs[1..]);
    }
  }

  /** Dividing by a positive number keeps the order. */
  lemma DivideMonotonic(a: real, b: real, n: real)
    requires n > 0.0 && a <= b
    ensures a / n <= b / n
  {
    assert b / n - a / n == (b - a) / n;
  }

  /** A mean of values in [70, 99] lies in [70, 99]. */
  lemma MeanBounds(sum: int, n: nat)
    requires n > 0 && 70 * n <= sum <= 99 * n
    ensures 70.0 <= sum as real / n as real <= 99.0
  {
    var m := n as real;
    assert (70 * n) as real == 70.0 * m;
    DivideMonotonic(70.0 * m, sum as real, m);
    DivideMonotonic(sum as real, 99.0 * m, m);
    assert 70.0 * m / m == 70.0;
    assert 99.0 * m / m == 99.0;
  }

  // ---------------------------------------------------------------------------
  // the route

  /** The summary of the data lines that follow the header. */
  function Summarize(lines: seq<string>, draws: seq<RowDraw>, elapsed: nat): Summary
    requires |lines| >= 2 && |draws| >= MaxRows && ValidRowDraws(draws)
  {
    var dataLines := lines[1..];
    var results := Rows(dataLines[..if |dataLines| <= MaxRows then |dataLines| else MaxRows], draws);
    var fakeCount := CountLabel(results, Fake);
    Summary(|results|, fakeCount, |results| - fakeCount,
            SumConfidence(results) as real / |results| as real, results, elapsed)
  }

  /** The `POST` handler. `draws` holds one draw per possible row and
      `elapsed` stands for `Date.now() - startTime`. */
  function Post(form: FormData, draws: seq<RowDraw>, elapsed: nat): Response
    requires |draws| >= MaxRows && ValidRowDraws(draws)
  {
    match form
    case Unreadable => Error(500, FailureMessage)
    case Form(field) =>
      match field
      case NoField => Error(400, FileRequiredMessage)
      // an empty text field is falsy; a non-empty one has no `type`
      case TextField(value) => if value == "" then Error(400, FileRequiredMessage) else Error(400, NotCsvMessage)
      case FileField(contentType, contents) =>
        if contentType != CsvType then Error(400, NotCsvMessage)
        else
          var lines := KeptLines(contents);
          if |lines| < 2 then Error(400, TooShortMessage)
          else Ok(Summarize(lines, draws, elapsed))
  }

  /** A CSV upload that gets past every check. */
  predicate Accepted(form: FormData) {
    form.Form? && form.file.FileField? && form.file.contentType == CsvType
    && |KeptLines(form.file.contents)| >= 2
  }

  /** The checks and their order: a missing (or falsy) file first, then the
      content type, then the line count; none of them looks at the text
      before the previous one passed. */
  lemma PostValidation(form: FormData, draws: seq<RowDraw>, elapsed: nat)
    requires |draws| >= MaxRows && ValidRowDraws(draws)
    ensures Post(form, draws, elapsed) == Error(400, FileRequiredMessage) <==>
              form == Form(NoField) || form == Form(TextField(""))
    ensures Post(form, draws, elapsed) == Error(400, NotCsvMessage) <==>
              form.Form? && ((form.file.TextField? && form.file.value != "")
                             || (form.file.FileField? && form.file.contentType != CsvType))
    ensures Post(form, draws, elapsed) == Error(400, TooShortMessage) <==>
              form.Form? && form.file.FileField? && form.file.contentType == CsvType
              && |KeptLines(form.file.contents)| < 2
    ensures Post(form, draws, elapsed) == Error(500, FailureMessage) <==> form.Unreadable?
    ensures Post(form, draws, elapsed).Ok? <==> Accepted(form)
  {
  }

  /** What the summary of the kept lines `lines` says: one result per data
      line after the header, at most 100 and at least one, in line order,
      numbered from 1, with the truncated text of the line's first column;
      the two counts are the Fake and Genuine counts and add up to the total;
      the mean confidence lies in [70, 99]. */
  predicate DescribesUpload(s: Summary, lines: seq<string>, draws: seq<RowDraw>, elapsed: nat)
    requires |lines| >= 2 && |draws| >= MaxRows && ValidRowDraws(draws)
  {
    && s.totalReviews == |s.results|
    && s.totalReviews == (if |lines| - 1 <= MaxRows then |lines| - 1 else MaxRows)
    && 1 <= s.totalReviews <= MaxRows
    && (forall i :: 0 <= i < |s.results| ==>
          && s.results[i].id == i + 1
          && s.results[i].text == Truncate100(RowText(lines[i + 1], i))
          && s.results[i].labelValue == LabelOf(draws[i].labelDraw)
          && s.results[i].confidence == ConfidenceOf(draws[i].confidenceDraw)
          && 70 <= s.results[i].confidence <= 99)
    && s.fakeCount == CountLabel(s.results, Fake)
    && s.genuineCount == CountLabel(s.results, Genuine)
    && s.fakeCount + s.genuineCount == s.totalReviews
    && s.averageConfidence == SumConfidence(s.results) as real / s.totalReviews as real
    && 70.0 <= s.averageConfidence <= 99.0
    && s.processingTime == elapsed
  }

  lemma SummarizeProperties(lines: seq<string>, draws: seq<RowDraw>, elapsed: nat)
    requires |lines| >= 2 && |draws| >= MaxRows && ValidRowDraws(draws)
    ensures DescribesUpload(Summarize(lines, draws, elapsed), lines, draws, elapsed)
  {
    var dataLines := lines[1..];
    var taken := dataLines[..if |dataLines| <= MaxRows then |dataLines| else MaxRows];
    var results := Rows(taken, draws);
    assert Summarize(lines, draws, elapsed).results == results;
    assert forall i :: 0 <= i < |taken| ==> taken[i] == lines[i + 1];
    CountsPartition(results);
    SumConfidenceBounds(results);
    MeanBounds(SumConfidence(results), |results|);
  }

  /** What an accepted upload returns: the summary of its kept lines. */
  lemma SummaryProperties(csv: string, draws: seq<RowDraw>, elapsed: nat)
    requires |draws| >= MaxRows && ValidRowDraws(draws)
    requires |KeptLines(csv)| >= 2
    ensures Post(Form(FileField(CsvType, csv)), draws, elapsed).Ok?
    ensures DescribesUpload(Post(Form(FileField(CsvType, csv)), draws, elapsed).summary, KeptLines(csv), draws, elapsed)
  {
    var lines := KeptLines(csv);
    assert Post(Form(FileField(CsvType, csv)), draws, elapsed) == Ok(Summarize(lines, draws, elapsed));
    SummarizeProperties(lines, draws, elapsed);
  }

  /** A file written as lines joined by newlines keeps exactly its non-blank
      lines, in order. */
  lemma {:induction false} KeptLinesOfJoin(ls: seq<string>)
    requires |ls| >= 1 && forall i :: 0 <= i < |ls| ==> '\n' !in ls[i]
    ensures KeptLines(JoinWith(ls, "\n")) == NonBlankLines(ls)
    decreases |ls|
  {
    KeptLinesOfLine(ls[0]);
    assert [ls[0]][1..] == [];
    if |ls| > 1 {
      var rest := ls[1..];
      assert forall i :: 0 <= i < |rest| ==> rest[i] == ls[i + 1];
      var j := JoinWith(rest, "\n");
      assert JoinWith(ls, "\n") == ls[0] + "\n" + j;
      KeptLinesOfJoin(rest);
      KeptLinesAppend(ls[0], j);
      assert ls == [ls[0]] + rest;
      NonBlankLinesAppend([ls[0]], rest);
      assert NonBlankLines(ls) == KeptLines(ls[0]) + NonBlankLines(rest);
    } else {
      assert ls == [ls[0]];
    }
  }

  /** An upload whose kept lines are a header and up to 100 reviews: one
      result per review, in file order, numbered from 1, with the fallback
      numbering following the review's position. */
  lemma UploadOfLines(csv: string, header: string, reviews: seq<string>, draws: seq<RowDraw>, elapsed: nat)
    requires |draws| >= MaxRows && ValidRowDraws(draws)
    requires KeptLines(csv) == [header] + reviews && 1 <= |reviews| <= MaxRows
    ensures var r := Post(Form(FileField(CsvType, csv)), draws, elapsed);
      && r.Ok? && r.summary.totalReviews == |reviews|
      && forall i :: 0 <= i < |reviews| ==>
           r.summary.results[i].id == i + 1 && r.summary.results[i].text == Truncate100(RowText(reviews[i], i))
  {
    SummaryProperties(csv, draws, elapsed);
    assert forall i :: 0 <= i < |reviews| ==> KeptLines(csv)[i + 1] == reviews[i];
  }

  /** A filter over lines none of which is blank keeps them all. */
  lemma {:induction false} NonBlankLinesAll(ls: seq<string>)
    requires forall i :: 0 <= i < |ls| ==> !Blank(ls[i])
    ensures NonBlankLines(ls) == ls
  {
    if |ls| > 0 {
      assert forall i :: 0 <= i < |ls| - 1 ==> ls[1..][i] == ls[i + 1];
      NonBlankLinesAll(ls[1..]);
      assert ls == [ls[0]] + ls[1..];
    }
  }
}
