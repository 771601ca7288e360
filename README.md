# ReviewGuard core, modelled in Dafny

ReviewGuard is a demo web app for "fake review detection". It has four pieces of logic with behaviour that can be stated precisely. This project models those four and proves properties about them:

- **`POST /api/predict`** (`predict.dfy`, module `PredictRoute`). It validates `reviewText` and splits it on runs of white space. It then builds a mock verdict: a label, a confidence, suspicious keywords, `reviewLength`, an explanation and a heatmap with one cell per word.
- **`POST /api/bulk-predict`** (`bulk_predict.dfy`, module `BulkPredictRoute`). It validates the uploaded CSV file, keeps the non-blank lines and skips the header. It takes the text before the first comma of at most 100 data lines, truncates it, and aggregates the Fake and Genuine counts and the mean confidence.
- **The session and history store** (`auth_context.dfy`, module `Auth`, class `AuthProvider`). It covers login against the single demo identity, signup, logout and the capped prediction history. The signed-in user and the history are mirrored in local storage under `reviewguard_user` and `reviewguard_history`. The `isLoading` flag is kept in memory only.
- **The detect page controller** (`detect_page.dfy`, module `Detect`, class `DetectPage`). It covers the state changes of `handleAnalyze`, `handleFileUpload` and `handleBulkAnalyze`. The network client is an oracle that returns the response, an `APIError` with its message, or some other exception.

Two modules are shared. `common.dfy` holds the label and the functions that turn `Math.random()` values into labels and confidences. `text.dfy` holds the JavaScript string built-ins the code relies on: `trim`, `split` on one character, `split(/\s+/)`, the 100-character truncation and the decimal rendering of integers. It also holds two helpers that only state round trips: `JoinWith`, which joins pieces with a separator, and `Gaps`, the white-space runs that `split(/\s+/)` removes.

The routes are pure, so they are modelled as functions. `Math.random()` results are real parameters in [0, 1). The elapsed time is a parameter. The page and the store change state step by step, so they are classes whose methods update fields. Local storage is a `map<string, Stored>` field of `AuthProvider`, and `JSON.stringify`/`JSON.parse` are the identity. Each `async` handler of the page is split at its `await`. A `Begin…` method runs the code before the request and a `Settle…` method runs the continuation with its `catch`/`finally`. This makes "in flight" an observable state.

The source's comment at app/api/predict/route.ts:51 says the confidence is "70-100%". The code `Math.floor(Math.random() * 30) + 70` gives 70 to 99, and the model follows the code.

## Model

| member | source | states |
|---|---|---|
| `Common.LabelOf` | app/api/predict/route.ts:50 | `Math.random() > 0.5 ? "Fake" : "Genuine"`, also used for each row at app/api/bulk-predict/route.ts:63. It has no contract of its own. `BulkPredictRoute.SummarizeProperties` states that row i carries the label of draw i, and `BulkPredictRoute.CountsPartition` that the Fake and Genuine counts add up to the total |
| `Common.ConfidenceOf` | app/api/predict/route.ts:51 | `Math.floor(r * 30) + 70` for r in [0, 1) is an integer in [70, 99], and it is the floor of r·30 shifted by 70 |
| `Text.TrimStart` | app/api/predict/route.ts:25 | The result is a suffix of the input, everything removed is white space, and the result does not start with white space |
| `Text.TrimEnd` | app/api/predict/route.ts:25 | The result is a prefix of the input, everything removed is white space, and the result does not end with white space |
| `Text.Trim` | app/api/predict/route.ts:25 | `s.trim()` is no longer than `s`, and it is empty or starts and ends with a non-white-space character |
| `Text.TrimEmptyIffBlank` | app/api/predict/route.ts:25 | `s.trim()` is empty exactly when every character of `s` is JavaScript white space |
| `Text.SplitOn` | app/api/bulk-predict/route.ts:31 | `split` on one character gives at least one piece, and no piece contains the separator |
| `Text.SplitOnJoin` | app/api/bulk-predict/route.ts:31 | Joining the `split("\n")` pieces with the separator gives back the original text |
| `Text.SplitOnWithout` | app/api/bulk-predict/route.ts:31 | A text without the separator splits into itself alone |
| `Text.SplitOnAppend` | app/api/bulk-predict/route.ts:31 | Splitting `a + "\n" + b` gives the pieces of `a` followed by the pieces of `b` |
| `Text.SplitOnFirst` | app/api/bulk-predict/route.ts:57 | `line.split(",")[0]` is a comma-free prefix of the line that ends at the first comma or at the end of the line |
| `Text.Words` | app/api/predict/route.ts:48 | `split(/\s+/)` gives at least one word, and no word holds white space. The first word is empty exactly when the text is empty or starts with white space. There is one word exactly when the text has no white space |
| `Text.WordsCount` | app/api/predict/route.ts:48 | The number of words is the number of maximal white-space runs plus one |
| `Text.WordsInnerNonEmpty` | app/api/predict/route.ts:48 | Only the first and the last word can be empty |
| `Text.WordsLastEmpty` | app/api/predict/route.ts:48 | The last word is empty exactly when the text is empty or ends with white space |
| `Text.WordsWellFormed` | app/api/predict/route.ts:48 | The words form a well-formed list: at least one, none holding white space, only the first and last possibly empty. The last is empty exactly when the text is empty or ends with white space |
| `Text.WordsOfJoin` | app/api/predict/route.ts:48 | The inverse direction: any word list of that shape, joined with single spaces, splits back into itself |
| `Text.Gaps` | app/api/predict/route.ts:48 | The separators `split(/\s+/)` removes: one fewer than the words, each a non-empty run of white space, the first one starting at the text's first character when that is white space |
| `Text.WordsGapsRoundTrip` | app/api/predict/route.ts:48 | The words, with the separators put back between them in order, give back the text. So the words are exactly the text's maximal non-white-space stretches and nothing else is dropped |
| `Text.TruncateShape` | app/api/bulk-predict/route.ts:62 | A text of at most 100 characters is kept unchanged. A longer text becomes its first 100 characters plus "...". The result is 103 characters long exactly when the input was longer than 100 |
| `Text.Truncate100` | app/detect/page.tsx:91 | `s.substring(0, 100) + (s.length > 100 ? "..." : "")`, shared by the bulk row text and the history entry. It has no contract of its own, and `Text.TruncateShape` and `Text.TruncateIdempotent` state its behaviour |
| `Text.TruncateIdempotent` | app/detect/page.tsx:91 | Truncating a truncated text changes nothing |
| `Text.Decimal` | app/api/bulk-predict/route.ts:58 | `${n}` renders n as a non-empty string of decimal digits without a leading zero |
| `Text.DecimalRoundTrip` | app/api/bulk-predict/route.ts:58 | Reading the rendered digits back gives n |
| `PredictRoute.SelectKeywords` | app/api/predict/route.ts:52 | The keyword filter, one draw per candidate. It has no contract of its own, and `PredictRoute.SelectedIsSubsequence` states what it keeps |
| `PredictRoute.SelectedIsSubsequence` | app/api/predict/route.ts:52 | The random keyword filter keeps an order-preserving subsequence of the four candidates |
| `PredictRoute.Heatmap` | app/api/predict/route.ts:62-66 | The recursion on the last word gives the `map`'s closed form: one heatmap cell per word, and cell i holds word i at position i |
| `PredictRoute.Explanation` | app/api/predict/route.ts:59-61 | The explanation template with the word count and "suspicious" or "normal". It has no contract of its own, and `PredictRoute.ExplanationWordCount` states what it says |
| `PredictRoute.ExplanationWordCount` | app/api/predict/route.ts:59 | The explanation starts with "The model analyzed ", followed by the decimal digits of the word count, which read back as that count |
| `PredictRoute.Analyze` | app/api/predict/route.ts:48-67 | The mock verdict. It has no contract of its own, and `PredictRoute.AnalyzeProperties` and `PredictRoute.AnalyzeExplanation` state what it holds |
| `PredictRoute.AnalyzeProperties` | app/api/predict/route.ts:48-66 | The verdict describes its review. The heatmap has one cell per `split(/\s+/)` word (white-space runs + 1), and cell i holds word i at position i. `reviewLength` is the raw length. The confidence is in [70, 99]. The keywords are an ordered selection of the four candidates |
| `PredictRoute.AnalyzeExplanation` | app/api/predict/route.ts:59-61 | The explanation is the template filled with the heatmap's length and the pattern draw, and the number after "The model analyzed " reads back as the number of `split(/\s+/)` words |
| `PredictRoute.Post` | app/api/predict/route.ts:21-74 | The handler: parse, validate, answer. It has no contract of its own, and `PredictRoute.PostOutcome` and `PredictRoute.VerdictProperties` state its outcomes |
| `PredictRoute.PostOutcome` | app/api/predict/route.ts:23-27 | 400 "Review text is required" exactly for a missing, falsy, empty or white-space-only `reviewText`. 500 "Failed to analyze review. Please try again." exactly when the body is not JSON, is JSON `null`, or holds a truthy non-string `reviewText`, whose missing `trim` throws. A verdict otherwise. "Missing" covers an object without the member and any number, string, boolean or array body, all of which destructure to `undefined` |
| `PredictRoute.VerdictProperties` | app/api/predict/route.ts:23-69 | A non-blank review is answered with exactly that verdict |
| `BulkPredictRoute.NonBlankLines` | app/api/bulk-predict/route.ts:31 | `filter((line) => line.trim())`. It has no contract of its own. `BulkPredictRoute.NonBlankLinesSingle`, `BulkPredictRoute.NonBlankLinesAppend` and `BulkPredictRoute.NonBlankLinesSpec` state it |
| `BulkPredictRoute.NonBlankLinesSingle` | app/api/bulk-predict/route.ts:31 | One line is kept exactly when its trim is non-empty, equivalently when it is not blank, and it is kept untrimmed |
| `BulkPredictRoute.NonBlankLinesAppend` | app/api/bulk-predict/route.ts:31 | The filter distributes over concatenation. With `NonBlankLinesSingle` this pins the result down completely: the kept lines are the non-blank ones, in their order, each as many times as it occurs |
| `BulkPredictRoute.NonBlankLinesSpec` | app/api/bulk-predict/route.ts:31 | A line occurs in the result exactly when it occurs in the input and is not blank |
| `BulkPredictRoute.NonBlankLinesAll` | app/api/bulk-predict/route.ts:31 | Lines none of which is blank are all kept, in order |
| `BulkPredictRoute.KeptLines` | app/api/bulk-predict/route.ts:31 | `csvText.split("\n").filter((line) => line.trim())`. It has no contract of its own, and the `KeptLines…` lemmas state it |
| `BulkPredictRoute.KeptLinesSpec` | app/api/bulk-predict/route.ts:31 | A line is kept exactly when it is a non-blank piece between newlines, and kept lines contain no newline |
| `BulkPredictRoute.KeptLinesOfLine` | app/api/bulk-predict/route.ts:31 | A text without a newline keeps itself when it is not blank and nothing otherwise |
| `BulkPredictRoute.KeptLinesAppend` | app/api/bulk-predict/route.ts:31 | The kept lines of `a + "\n" + b` are those of `a` followed by those of `b`, so the order of the file is kept |
| `BulkPredictRoute.KeptLinesOfJoin` | app/api/bulk-predict/route.ts:31 | A file written as newline-free lines joined by "\n" keeps exactly its non-blank lines, in order and with repetitions |
| `BulkPredictRoute.RowText` | app/api/bulk-predict/route.ts:57-58 | The row text: `columns[0]`, or "Sample review " and the 1-based row number when that is empty. It has no contract of its own, and `BulkPredictRoute.RowTextSpec` states it |
| `BulkPredictRoute.RowTextSpec` | app/api/bulk-predict/route.ts:57-58 | The row text is the text before the first comma. When the line starts with a comma, it is "Sample review " followed by the 1-based row number |
| `BulkPredictRoute.MakeRow` | app/api/bulk-predict/route.ts:60-65 | One `results` entry. It has no contract of its own, and `BulkPredictRoute.SummarizeProperties` states its fields |
| `BulkPredictRoute.Rows` | app/api/bulk-predict/route.ts:56-65 | `dataLines.map((line, index) => …)` as a sequence comprehension. It has no contract of its own. `BulkPredictRoute.SummarizeProperties` states one result per taken line, in line order, numbered from 1, with the truncated text of its line and the label and confidence of its draw |
| `BulkPredictRoute.CountLabel` | app/api/bulk-predict/route.ts:68 | `results.filter((r) => r.label === l).length`. It has no contract of its own, and `BulkPredictRoute.CountsPartition` relates the two counts |
| `BulkPredictRoute.CountsPartition` | app/api/bulk-predict/route.ts:68-69 | The Fake count plus the Genuine count is the number of results |
| `BulkPredictRoute.SumConfidence` | app/api/bulk-predict/route.ts:70 | The `reduce` sum of the confidences. It has no contract of its own, and `BulkPredictRoute.SumConfidenceBounds` bounds it |
| `BulkPredictRoute.SumConfidenceBounds` | app/api/bulk-predict/route.ts:70 | n confidences in [70, 99] sum to between 70·n and 99·n |
| `BulkPredictRoute.MeanBounds` | app/api/bulk-predict/route.ts:70 | The mean of such a sum over n > 0 lies in [70, 99] |
| `BulkPredictRoute.Summarize` | app/api/bulk-predict/route.ts:55-79 | The summary of the kept lines. It has no contract of its own, and `BulkPredictRoute.SummarizeProperties` states it |
| `BulkPredictRoute.SummarizeProperties` | app/api/bulk-predict/route.ts:55-79 | `totalReviews = min(kept - 1, 100)` lies in [1, 100]. Result i has id i+1, the truncated first-column text of kept line i+1, and the label and confidence of draw i. `fakeCount` and `genuineCount` are the label counts and sum to the total. `averageConfidence` is the confidence sum over the total, and it lies in [70, 99]. `processingTime` is the elapsed time |
| `BulkPredictRoute.Post` | app/api/bulk-predict/route.ts:17-89 | The handler. It has no contract of its own, and `BulkPredictRoute.PostValidation` and `BulkPredictRoute.SummaryProperties` state its outcomes |
| `BulkPredictRoute.PostValidation` | app/api/bulk-predict/route.ts:19-35 | The checks run in order: 400 "CSV file is required" for a missing or falsy file, then 400 "File must be a CSV" for any type other than "text/csv", then 400 for fewer than two kept lines. 500 for an unreadable form. Success exactly when all checks pass |
| `BulkPredictRoute.SummaryProperties` | app/api/bulk-predict/route.ts:19-79 | A "text/csv" upload with at least two kept lines succeeds, and its summary has those properties over its kept lines |
| `BulkPredictRoute.UploadOfLines` | app/api/bulk-predict/route.ts:31-66 | When the kept lines are a header and 1 to 100 reviews, there is one result per review, in file order, numbered from 1, with the truncated first column of that review |
| `Auth.PrependCapped` | contexts/auth-context.tsx:111 | `[entry, ...prev].slice(0, 10)`. It has no contract of its own, and `Auth.PrependCappedShape` states it |
| `Auth.PrependCappedShape` | contexts/auth-context.tsx:111 | `[entry, ...prev].slice(0, 10)` has length min(\|prev\|+1, 10) and starts with the new entry. The rest is a prefix of the old history, so the oldest entries are evicted |
| `Auth.AddAllKeepsNewest` | contexts/auth-context.tsx:110-114 | A series of adds leaves the new entries newest first, then the old history, cut to 10 |
| `Auth.AddAllNewestFirst` | contexts/auth-context.tsx:110-114 | From an empty history, the list is the last min(n, 10) entries added, newest first |
| `Auth.Restore` | contexts/auth-context.tsx:37-51 | The mount effect's reads. It has no contract of its own, and `Auth.RestoreRoundTrip` and `Auth.RestoreSyncs` state it |
| `Auth.RestoreRoundTrip` | contexts/auth-context.tsx:37-51 | When storage mirrors the in-memory session and history, a fresh mount reads back exactly that user and history |
| `Auth.RestoreSyncs` | contexts/auth-context.tsx:37-51 | After a fresh mount, memory and storage are in step |
| `Auth.AuthProvider.constructor` | contexts/auth-context.tsx:33-35 | The first render has no user, `isLoading` true and an empty history, over the browser's stored data |
| `Auth.AuthProvider.Mount` | contexts/auth-context.tsx:37-51 | The stored user and history replace the in-memory ones when their keys are present. Storage is untouched and `isLoading` ends false |
| `Auth.AuthProvider.Login` | contexts/auth-context.tsx:53-74 | Login completes exactly for "demo@example.com"/"password". It then sets user `{id "1", the email, "Demo User", now}`, stores it under "reviewguard_user" and clears `isLoading`. Otherwise it throws "Invalid credentials", leaves user and storage unchanged and leaves `isLoading` true. The history is untouched |
| `Auth.AuthProvider.LoginResettingLoading` | contexts/auth-context.tsx:53-74 | The corrected login: the same outcomes, with `isLoading` false on every path |
| `Auth.AuthProvider.Signup` | contexts/auth-context.tsx:76-92 | Signup always succeeds with the given email and name, stores the user under "reviewguard_user" and ends with `isLoading` false |
| `Auth.AuthProvider.Logout` | contexts/auth-context.tsx:94-99 | After logout there is no user and the history is empty. Both keys are removed from storage and every other key is kept |
| `Auth.AuthProvider.AddPredictionToHistory` | contexts/auth-context.tsx:101-115 | With no user, neither history nor storage changes. With a user, the history becomes `PrependCapped(entry, old)` with the given text, classification, confidence, id and timestamp, and the same list is stored under "reviewguard_history". It keeps at most 10 entries and keeps storage in step |
| `Detect.ToDetectionResult` | app/detect/page.tsx:79-86 | The `detectionResult` literal. It has no contract of its own, and `Detect.DetectionResultRoundTrip` states that it loses nothing |
| `Detect.DetectionResultRoundTrip` | app/detect/page.tsx:79-86 | The detection result is a field-for-field copy of the response, `label` becoming `classification` |
| `Detect.HistoryEntryFor` | app/detect/page.tsx:90-94 | The entry `handleAnalyze` adds. It has no contract of its own, and `Detect.HistoryEntryForShape` states it |
| `Detect.HistoryEntryForShape` | app/detect/page.tsx:90-94 | The entry carries the verdict's classification and confidence, and the review text unchanged up to 100 characters, or else its first 100 characters followed by "..." |
| `Detect.ToBulkResult` | app/detect/page.tsx:126-132 | The `setBulkResult` argument: the summary's aggregates without its rows. It has no contract of its own, and `Detect.BulkResultOfUpload` states what it shows |
| `Detect.BulkResultOfUpload` | app/detect/page.tsx:124-132 | For an accepted upload, the panel shows 1 to 100 reviews, Fake and Genuine counts that add up to the total, a mean confidence in [70, 99] and the elapsed time |
| `Detect.DetectPage.constructor` | app/detect/page.tsx:59-66 | The initial state: empty text, no result, no summary, no file, no error, not analyzing |
| `Detect.DetectPage.EditReviewText` | app/detect/page.tsx:209 | The textarea sets the review text |
| `Detect.DetectPage.BeginAnalyze` | app/detect/page.tsx:70-74 | A blank review starts nothing and changes nothing. Otherwise the request is in flight with result and error cleared |
| `Detect.DetectPage.SettleAnalyze` | app/detect/page.tsx:76-103 | On success the result is the copied response. A signed-in user's history gains the entry with text `Truncate100(review)`, and that history is written under "reviewguard_history". No user means no history or storage change, and the user and `isLoading` are untouched either way. On an `APIError` the error is its message, on any other exception "An unexpected error occurred. Please try again.", and the store is untouched. `isAnalyzing` ends false |
| `Detect.DetectPage.HandleAnalyze` | app/detect/page.tsx:69-104 | The whole handler: blank text changes nothing. Otherwise it ends not analyzing. Either the result is shown, with the history entry added and stored for a signed-in user (user and `isLoading` untouched, storage untouched without a user), or there is no result, the matching error is shown and the store is untouched |
| `Detect.DetectPage.HandleFileUpload` | app/detect/page.tsx:106-114 | A "text/csv" file is kept and the error cleared. Another file sets "Please select a valid CSV file." and keeps the previous upload. No file changes nothing |
| `Detect.DetectPage.BeginBulkAnalyze` | app/detect/page.tsx:117-121 | Without an uploaded file nothing starts and nothing changes. Otherwise the request is in flight with summary and error cleared |
| `Detect.DetectPage.SettleBulkAnalyze` | app/detect/page.tsx:123-141 | On success the summary is shown. On an `APIError` the error is its message, otherwise "Failed to process CSV file. Please try again.". `isAnalyzing` ends false |
| `Detect.DetectPage.HandleBulkAnalyze` | app/detect/page.tsx:116-142 | The whole handler: no file changes nothing. Otherwise it ends not analyzing, with either the summary or no summary and the matching error |

## Left out

- Floating-point outputs are not modelled: `ratingDeviation`, `sentimentScore` and the heatmap cell `confidence` of the predict route. The bulk route's `averageConfidence` is the exact rational mean, without the `toFixed(1)` rounding.
- Strings are sequences of Unicode scalar values. JavaScript's `length` and `substring` count UTF-16 code units, so `reviewLength` and the 100-character cut differ from the browser for text with characters outside the Basic Multilingual Plane.
- `Math.random()`, `Date.now()`, `new Date().toISOString()` and the random base-36 ids are parameters. The `setTimeout` delays are left out because they do not change any result.
- React scheduling is not modelled: effect timing, batched `setState`, and the stale `user` closure in `addPredictionToHistory`. The model runs each handler to completion, one at a time. Concurrent requests while one is in flight are not modelled, since the page disables its controls while `isAnalyzing` is set.
- Local storage holds typed records, and JSON text is not modelled. `AuthProvider` requires the two keys to hold what the app writes (a user, and a history of at most 10 entries). Corrupt or foreign data under those keys, which would make `JSON.parse` throw or yield a value of the wrong shape, is not modelled.
- lib/api.ts is not part of this model. Its `fetch` calls become the `ApiOutcome` oracle. The page reads the outcome and does not re-derive it from HTTP status codes.
- JSON values are not modelled as such. `PredictRoute.Body` and `PredictRoute.Field` keep only what decides the outcome. The body is unparsable (invalid JSON, or JSON `null`, which cannot be destructured) or gives a `reviewText`. That value is absent, a string, or a non-string known only by its truthiness. A number, string, boolean or array body destructures to an absent `reviewText`. The body's other members are ignored.
- `BulkPredictRoute.NonBlankLines` tests `!Blank(line)` instead of calling `trim`. `BulkPredictRoute.NonBlankLinesSingle` proves the two tests agree on every line.
- CSV quoting and embedded commas are not handled by the source, and the model reproduces its naive `split(",")`.
- The JSX of app/detect/page.tsx, the dashboard, landing and login pages, and the presentation components are rendering only and are not part of this model.
- `Auth.AddAllKeepsNewest`: requires the starting history to hold at most 10 entries. That is the invariant `AuthProvider.Valid()` keeps.

## Findings

| source | as written | input that shows it | evidently intended | confidence | as-written member | corrected member |
|---|---|---|---|---|---|---|
| contexts/auth-context.tsx:69-73 | `throw new Error("Invalid credentials")` skips `setIsLoading(false)`, so `isLoading` stays true. app/login/page.tsx disables its inputs and submit button on `isLoading`, so the user cannot retry | `login("demo@example.com", "wrong")`. `Auth.DemoSession` shows `isLoading` still set after it | Reset `isLoading` on every path (a `finally`) | likely; not executed | `Auth.AuthProvider.Login` | `Auth.AuthProvider.LoginResettingLoading` |
