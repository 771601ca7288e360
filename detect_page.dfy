/**
 * The controller part of app/detect/page.tsx: the page state and the three
 * handlers `handleAnalyze`, `handleFileUpload` and `handleBulkAnalyze`.
 * The network client of lib/api.ts is reduced to the outcome it delivers:
 * the parsed response, an `APIError` with its message, or another exception.
 * Each `async` handler is split at its `await`: a `Begin` method runs the
 * synchronous part up to the request, a `Settle` method the continuation
 * with its `catch` and `finally`, and the handler runs the two in turn.
 */
module Detect {
  import opened Common
  import opened Text
  import PredictRoute
  import BulkPredictRoute
  import opened Auth

  /** How an awaited API call ended. */
  datatype ApiOutcome<T> = Returned(value: T) | ApiError(message: string) | Unexpected

  /** The `DetectionResult` the page shows for one review. */
  datatype DetectionResult = DetectionResult(
    classification: Label,
    confidence: int,
    suspiciousKeywords: seq<string>,
    reviewLength: nat,
    repetitivePatterns: bool,
    explanation: string,
    confidenceHeatmap: seq<PredictRoute.HeatCell>)

  /** The `BulkResult` the page shows for a CSV upload. */
  datatype BulkResult = BulkResult(
    totalReviews: nat,
    fakeCount: nat,
    genuineCount: int,
    averageConfidence: real,
    processingTime: nat)

  /** A file chosen in the file input: its declared type and its text. */
  datatype SelectedFile = SelectedFile(contentType: string, contents: string)

  const UnexpectedMessage: string := "An unexpected error occurred. Please try again."
  const InvalidFileMessage: string := "Please select a valid CSV file."
  const BulkFailureMessage: string := "Failed to process CSV file. Please try again."

  /** The `detectionResult` built from the API response, `label` becoming `classification`. */
  function ToDetectionResult(v: PredictRoute.Verdict): DetectionResult
  {
    DetectionResult(v.labelValue, v.confidence, v.suspiciousKeywords, v.reviewLength,
                    v.repetitivePatterns, v.explanation, v.confidenceHeatmap)
  }

  /** The response a detection result was copied from. */
  function ToVerdict(r: DetectionResult): PredictRoute.Verdict
  {
    PredictRoute.Verdict(r.classification, r.confidence, r.suspiciousKeywords, r.reviewLength,
                         r.repetitivePatterns, r.explanation, r.confidenceHeatmap)
  }

  /** The copy is field for field: nothing of the response is lost or changed. */
  lemma DetectionResultRoundTrip(v: PredictRoute.Verdict)
    ensures ToVerdict(ToDetectionResult(v)) == v
    ensures ToDetectionResult(v).classification == v.labelValue
  {
  }

  /** The `setBulkResult` argument: the summary without its per-row results. */
  function ToBulkResult(s: BulkPredictRoute.Summary): BulkResult
  {
    BulkResult(s.totalReviews, s.fakeCount, s.genuineCount, s.averageConfidence, s.processingTime)
  }

  /** The history entry `handleAnalyze` records for a successful prediction. */
  function HistoryEntryFor(reviewText: string, v: PredictRoute.Verdict, id: string, timestamp: string): HistoryEntry
  {
    HistoryEntry(id, Truncate100(reviewText), v.labelValue, v.confidence, timestamp)
  }

  /** The entry keeps the verdict's label and confidence, and the review
      text as is when it has at most 100 characters, else its first 100
      characters followed by "...". */
  lemma HistoryEntryForShape(reviewText: string, v: PredictRoute.Verdict, id: string, timestamp: string)
    ensures var h := HistoryEntryFor(reviewText, v, id, timestamp);
      && h.id == id && h.timestamp == timestamp
      && h.classification == v.labelValue && h.confidence == v.confidence
      && (|reviewText| <= TruncateLimit ==> h.reviewText == reviewText)
      && (|reviewText| > TruncateLimit ==> h.reviewText == reviewText[..TruncateLimit] + Ellipsis)
  {
    TruncateShape(reviewText);
  }

  /** What the bulk panel shows for an accepted upload: between 1 and 100
      reviews, split into Fake and Genuine counts that add up to the total,
      a mean confidence in [70, 99] and the elapsed time. */
  lemma BulkResultOfUpload(csv: string, draws: seq<BulkPredictRoute.RowDraw>, elapsed: nat)
    requires |draws| >= BulkPredictRoute.MaxRows && BulkPredictRoute.ValidRowDraws(draws)
    requires |BulkPredictRoute.KeptLines(csv)| >= 2
    ensures var r := BulkPredictRoute.Post(BulkPredictRoute.Form(BulkPredictRoute.FileField(BulkPredictRoute.CsvType, csv)), draws, elapsed);
      r.Ok? &&
      var b := ToBulkResult(r.summary);
      && 1 <= b.totalReviews <= BulkPredictRoute.MaxRows
      && b.fakeCount + b.genuineCount == b.totalReviews
      && 70.0 <= b.averageConfidence <= 99.0
      && b.processingTime == elapsed
  {
    BulkPredictRoute.SummaryProperties(csv, draws, elapsed);
  }

  class DetectPage {
    var reviewText: string
    var isAnalyzing: bool
    var result: Option<DetectionResult>
    var bulkResult: Option<BulkResult>
    var uploadedFile: Option<SelectedFile>
    var error: Option<string>
    /** The session store from `useAuth()`. */
    const auth: AuthProvider

    /** The initial `useState` values. */
    constructor (auth: AuthProvider)
      ensures this.auth == auth
      ensures reviewText == "" && !isAnalyzing
      ensures result == None && bulkResult == None && uploadedFile == None && error == None
    {
      this.auth := auth;
      reviewText := "";
      isAnalyzing := false;
      result := None;
      bulkResult := None;
      uploadedFile := None;
      error := None;
    }

    /** The textarea's `onChange`. */
    method EditReviewText(text: string)
      modifies this`reviewText
      ensures reviewText == text
    {
      reviewText := text;
    }

    // -------------------------------------------------------------------------
    // handleAnalyze

    /** Up to the `await`: nothing happens for a blank review; otherwise the
        request is marked in flight and the old result and error are cleared. */
    method BeginAnalyze() returns (started: bool)
      modifies this`isAnalyzing, this`result, this`error
      ensures started <==> !Blank(reviewText)
      ensures !started ==> isAnalyzing == old(isAnalyzing) && result == old(result) && error == old(error)
      ensures started ==> isAnalyzing && result == None && error == None
    {
      TrimEmptyIffBlank(reviewText);
      if Trim(reviewText) == "" {
        return false;
      }
      isAnalyzing := true;
      result := None;
      error := None;
      started := true;
    }

    /** After the `await`: on success the result is shown and the prediction,
        its text cut to 100 characters, goes to the history; on failure the
        error is shown. Either way the request is no longer in flight. */
    method SettleAnalyze(submitted: string, outcome: ApiOutcome<PredictRoute.Verdict>,
                         entryId: string, timestamp: string)
      requires auth.Valid()
      modifies this`isAnalyzing, this`result, this`error, auth
      ensures auth.Valid() && !isAnalyzing
      ensures outcome.Returned? ==>
        && result == Some(ToDetectionResult(outcome.value))
        && error == old(error)
        && (old(auth.user).Some? ==>
              && auth.predictionHistory
                   == PrependCapped(HistoryEntryFor(submitted, outcome.value, entryId, timestamp),
                                    old(auth.predictionHistory))
              && auth.storage == old(auth.storage)[HistoryKey := StoredHistory(auth.predictionHistory)])
        && (old(auth.user).None? ==>
              auth.predictionHistory == old(auth.predictionHistory) && auth.storage == old(auth.storage))
        && auth.user == old(auth.user) && auth.isLoading == old(auth.isLoading)
      ensures outcome.ApiError? ==> result == old(result) && error == Some(outcome.message) && unchanged(auth)
      ensures outcome.Unexpected? ==> result == old(result) && error == Some(UnexpectedMessage) && unchanged(auth)
    {
      match outcome {
        case Returned(apiResult) =>
          var detectionResult := ToDetectionResult(apiResult);
          result := Some(detectionResult);
          auth.AddPredictionToHistory(Truncate100(submitted), detectionResult.classification,
                                      detectionResult.confidence, entryId, timestamp);
        case ApiError(message) =>
          error := Some(message);
        case Unexpected =>
          error := Some(UnexpectedMessage);
      }
      isAnalyzing := false;
    }

    /** `handleAnalyze`, with the API call's outcome and the entry's random id
        and timestamp as parameters. */
    method HandleAnalyze(outcome: ApiOutcome<PredictRoute.Verdict>, entryId: string, timestamp: string)
      requires auth.Valid()
      modifies this`isAnalyzing, this`result, this`error, auth
      ensures auth.Valid()
      ensures Blank(reviewText) ==>
        && isAnalyzing == old(isAnalyzing) && result == old(result) && error == old(error)
        && unchanged(auth)
      ensures !Blank(reviewText) ==> !isAnalyzing
      ensures !Blank(reviewText) && outcome.Returned? ==>
        && result == Some(ToDetectionResult(outcome.value)) && error == None
        && (old(auth.user).Some? ==>
              && auth.predictionHistory
                   == PrependCapped(HistoryEntryFor(reviewText, outcome.value, entryId, timestamp),
                                    old(auth.predictionHistory))
              && auth.storage == old(auth.storage)[HistoryKey := StoredHistory(auth.predictionHistory)])
        && (old(auth.user).None? ==>
              auth.predictionHistory == old(auth.predictionHistory) && auth.storage == old(auth.storage))
        && auth.user == old(auth.user) && auth.isLoading == old(auth.isLoading)
      ensures !Blank(reviewText) && outcome.ApiError? ==>
        result == None && error == Some(outcome.message) && unchanged(auth)
      ensures !Blank(reviewText) && outcome.Unexpected? ==>
        result == None && error == Some(UnexpectedMessage) && unchanged(auth)
    {
      var started := BeginAnalyze();
      if started {
        SettleAnalyze(reviewText, outcome, entryId, timestamp);
      }
    }

    // -------------------------------------------------------------------------
    // handleFileUpload

    /** `handleFileUpload`: a chosen file is kept only if its type is exactly
        "text/csv"; another file only sets the error; no file changes nothing. */
    method HandleFileUpload(file: Option<SelectedFile>)
      modifies this`uploadedFile, this`error
      ensures file.Some? && file.value.contentType == BulkPredictRoute.CsvType ==>
        uploadedFile == file && error == None
      ensures file.Some? && file.value.contentType != BulkPredictRoute.CsvType ==>
        uploadedFile == old(uploadedFile) && error == Some(InvalidFileMessage)
      ensures file.None? ==> uploadedFile == old(uploadedFile) && error == old(error)
    {
      if file.Some? && file.value.contentType == BulkPredictRoute.CsvType {
        uploadedFile := file;
        error := None;
      } else if file.Some? {
        error := Some(InvalidFileMessage);
      }
    }

    // -------------------------------------------------------------------------
    // handleBulkAnalyze

    /** Up to the `await`: nothing happens without an uploaded file; otherwise
        the request is marked in flight and the old summary and error cleared. */
    method BeginBulkAnalyze() returns (started: bool)
      modifies this`isAnalyzing, this`bulkResult, this`error
      ensures started <==> uploadedFile.Some?
      ensures !started ==> isAnalyzing == old(isAnalyzing) && bulkResult == old(bulkResult) && error == old(error)
      ensures started ==> isAnalyzing && bulkResult == None && error == None
    {
      if uploadedFile.None? {
        return false;
      }
      isAnalyzing := true;
      bulkResult := None;
      error := None;
      started := true;
    }

    /** After the `await`: the summary is shown, or the error. */
    method SettleBulkAnalyze(outcome: ApiOutcome<BulkPredictRoute.Summary>)
      modifies this`isAnalyzing, this`bulkResult, this`error
      ensures !isAnalyzing
      ensures outcome.Returned? ==> bulkResult == Some(ToBulkResult(outcome.value)) && error == old(error)
      ensures outcome.ApiError? ==> bulkResult == old(bulkResult) && error == Some(outcome.message)
      ensures outcome.Unexpected? ==> bulkResult == old(bulkResult) && error == Some(BulkFailureMessage)
    {
      match outcome {
        case Returned(apiResult) =>
          bulkResult := Some(ToBulkResult(apiResult));
        case ApiError(message) =>
          error := Some(message);
        case Unexpected =>
          error := Some(BulkFailureMessage);
      }
      isAnalyzing := false;
    }

    /** `handleBulkAnalyze`, with the API call's outcome as a parameter. */
    method HandleBulkAnalyze(outcome: ApiOutcome<BulkPredictRoute.Summary>)
      modifies this`isAnalyzing, this`bulkResult, this`error
      ensures uploadedFile.None? ==>
        isAnalyzing == old(isAnalyzing) && bulkResult == old(bulkResult) && error == old(error)
      ensures uploadedFile.Some? ==> !isAnalyzing
      ensures uploadedFile.Some? && outcome.Returned? ==>
        bulkResult == Some(ToBulkResult(outcome.value)) && error == None
      ensures uploadedFile.Some? && outcome.ApiError? ==> bulkResult == None && error == Some(outcome.message)
      ensures uploadedFile.Some? && outcome.Unexpected? ==> bulkResult == None && error == Some(BulkFailureMessage)
    {
      var started := BeginBulkAnalyze();
      if started {
        SettleBulkAnalyze(outcome);
      }
    }
  }
}
