# Purus client logic in Dafny

Purus is a browser app that turns medical documents into plain-language
reports with the help of a generative model. A user picks one document
(summary mode) or several (trend mode), may type their symptoms, and starts
an analysis. A loader with a clock and rotating status messages is shown
while the request runs. The report view then shows the answer. It cuts the
answer at a `---NEW_PAGE---` marker into a main report and a health-trend
report, and it can export the shown sections as a PDF.

This project models the client-side logic of that flow:

- `app.dfy`, module `App`: the session state machine of the `App` component.
  It is a class `Session` with the six state fields and the handlers that
  change them.
- `gemini_service.dfy`, module `GeminiService`: the two prompt templates,
  kept as literal fragments; how the request is assembled from the prompt
  and the encoded files; and how a failed call is classified.
- `result_card.dfy`, module `ResultCard`: the split of the answer, the test
  that decides whether the trend section is shown, and the page sequence of
  the PDF export. The PDF is a class `PdfDocument` that `DownloadPdf` fills
  in place.
- `analysis_loader.dfy`, module `AnalysisLoader`: the `MM:SS` clock format,
  and a class `LoaderState` holding the two counters that its timers advance.
- `strings.dfy`, module `Strings`, and `wrappers.dfy`, module `Wrappers`:
  the JavaScript string built-ins the code relies on (`includes`, `split`,
  `toString`, `padStart`) and an `Option` type. `IndexOf` and `Join` are
  reference definitions behind `includes` and `split`: `includes` is stated
  through `IndexOf`, and `split` is checked against a `Join` that puts the
  separator back between the pieces (`Strings.SplitJoin`).

Things outside the client are parameters:

- The generative model is a function `Generator` from a request to a
  settled promise.
- The file encoder is a function `Encoder` from a file to a settled promise.
- The screenshot of a rendered section is a function from its text to a
  `Canvas`.

A rejected promise carries a `Thrown` value. Its `isError` flag says
whether the thrown value is an `Error` instance.

Symptom text counts as present by JavaScript truthiness: it is defined and
not the empty string. The code (`if (symptoms)`, `symptoms ? … : ''`) does
not trim, so whitespace-only text counts as present.

The report view destructures `result.split('---NEW_PAGE---')` and keeps only
its first two pieces. With two or more markers, the trend report is only the
text between the first and the second marker, and the rest is dropped. The
trend section (`{trendResult && …}`) is rendered only when that piece is
present and non-empty.

## Model

| member | source | states |
|---|---|---|
| GeminiService.SymptomsPromptSection | services/geminiService.ts:32-34 | The symptom section: the lead-in, the symptoms verbatim between double quotes, and the request for a `### Symptom Analysis` section. Its placement is stated by `DocumentPromptSymptoms` |
| GeminiService.Truthy | services/geminiService.ts:80 | JavaScript truthiness of the optional symptoms: present and not empty, with no trimming. `DocumentPromptSymptoms` and `TrendPromptSymptoms` state what it switches |
| GeminiService.SymptomsLine | services/geminiService.ts:39 | The first interpolation of the trend template: the quoted symptom line when the symptoms are truthy, empty otherwise. Specified by `TrendPromptSymptoms` |
| GeminiService.SymptomCorrelation | services/geminiService.ts:54-57 | The second interpolation: the Symptom Correlation bullet when the symptoms are truthy, empty otherwise. Specified by `TrendPromptSymptoms` and `CorrelationHeading` |
| GeminiService.DocumentPrompt | services/geminiService.ts:79-82 | `singleDocPrompt`, followed by the symptom section when the symptoms are truthy. Specified by `DocumentPromptSymptoms` and `DocumentPromptHeadings` |
| GeminiService.TrendAnalysisPrompt | services/geminiService.ts:37-59 | The trend template with its two symptom interpolations. Specified by `TrendPromptSymptoms`, `TrendPromptSeparator`, `TrendReportHeadings` and `CorrelationHeading` |
| GeminiService.DocumentPromptSymptoms | services/geminiService.ts:79-82 | The single-document prompt always starts with the fixed prompt. It differs from the fixed prompt exactly when the symptoms are truthy, so whitespace-only symptoms count as present. When they are present, the symptom text appears verbatim between double quotes right after the section lead, and the `### Symptom Analysis` heading follows it |
| GeminiService.DocumentPromptHeadings | services/geminiService.ts:14-30 | For any symptoms, the single-document prompt contains the headings Document Type, Key Summary, Detailed Breakdown and Recommendations & Next Steps, in that order |
| GeminiService.TrendPromptSymptoms | services/geminiService.ts:37-59 | Without truthy symptoms, the trend prompt is the intro, the instructions and the closing, with both optional parts empty. With symptoms, the symptom line (symptoms verbatim in quotes) follows the intro, and the Symptom Correlation bullet follows the instructions |
| GeminiService.TrendPromptSeparator | services/geminiService.ts:44-53 | For every symptom text, `---NEW_PAGE---` occurs at a fixed, computed index between two backticks. The trend headings follow it in order: Health Trend Analysis, Key Changes Over Time, Visual Trend Spotlight, Potential Areas for Discussion, and also Symptom Correlation when symptoms are present |
| GeminiService.TrendReportHeadings | services/geminiService.ts:44-53 | The report instructions after the separator start with the closing backtick and list the four trend headings in order |
| GeminiService.CorrelationHeading | services/geminiService.ts:54-57 | The optional symptom block holds the `#### Symptom Correlation` heading, which comes after the four trend headings |
| GeminiService.FileParts | services/geminiService.ts:62-73 | The file parts are fulfilled exactly when every file encodes. Then there is one part per file, in input order, carrying that file's payload and MIME type. Otherwise the result is the failure of the first file in input order that cannot be encoded |
| GeminiService.FilePart | services/geminiService.ts:65-70 | One inline-data part carrying the encoded payload and the file's MIME type. `FileParts` and `AnalysisRequest` state where each lands |
| GeminiService.GetFileParts | services/geminiService.ts:62-73 | The loop over the files produces exactly `FileParts` |
| GeminiService.ClassifyFailure | services/geminiService.ts:93-99 | A classified failure is always an `Error`, and its message is either the rate-limit text or the entry point's generic text |
| GeminiService.RateLimitIff | services/geminiService.ts:95-98 | The result is the rate-limit text exactly when the caught value is an `Error` whose message contains "429" at some position. Otherwise it is exactly the generic `Error` |
| GeminiService.RequestFor | services/geminiService.ts:84-90 | The request: model `gemini-2.5-flash` and the parts `[textPart, ...fileParts]`. Specified by `AnalysisRequest` |
| GeminiService.Analysis | services/geminiService.ts:77-99 | The pipeline shared by both entry points (also services/geminiService.ts:104-120): encode, build the request, call, then return or classify. `AnalysisRequest` and `AnalysisOutcome` state what it sends and how it settles |
| GeminiService.AnalysisRequest | services/geminiService.ts:84-90 | A request is sent exactly when all files encode. It names model `gemini-2.5-flash` and has 1 + (number of files) parts: the text part first, then one inline-data part per file, in order, each with that file's MIME type |
| GeminiService.AnalysisOutcome | services/geminiService.ts:76-100 | An encoding failure is passed on unclassified, and no request is sent. A response text is returned unchanged. A failed call becomes the rate-limit error iff it was an `Error` containing "429", and the generic error otherwise |
| GeminiService.DocumentAnalysis | services/geminiService.ts:76-100 | The shared analysis of the one file with the single-document prompt and generic message. `AnalysisRequest` and `AnalysisOutcome` state what it sends and how it settles |
| GeminiService.TrendAnalysis | services/geminiService.ts:103-121 | The shared analysis of all files with the trend prompt and the trend generic message. `AnalysisRequest` and `AnalysisOutcome` state what it sends and how it settles |
| GeminiService.AnalyzeDocument | services/geminiService.ts:76-100 | The procedure builds `currentPrompt` in place and then requests and classifies. It returns the request sent and the outcome, which are exactly those of `DocumentAnalysis` |
| GeminiService.AnalyzeHealthTrend | services/geminiService.ts:103-121 | The procedure returns the request sent and the outcome, which are exactly those of `TrendAnalysis`, with the trend-specific generic failure |
| ResultCard.SplitReport | components/ResultCard.tsx:58 | The first two pieces of the split. Neither contains the marker, and with no second piece the main report is the whole answer. `SplitNoMarker`, `SplitOneMarker`, `SplitTwoMarkers` and `SplitReassembles` relate it to the answer |
| ResultCard.TrendRendered | components/ResultCard.tsx:92 | The trend section is shown for a present, non-empty second piece. `SplitTrailingMarker` and `ReportPageCount` state its consequences |
| ResultCard.MarkerIsPromptSeparator | components/ResultCard.tsx:58 | The view cuts at the same marker that the trend prompt asks the model to emit |
| ResultCard.SplitNoMarker | components/ResultCard.tsx:58 | There is a trend piece exactly when the answer contains the marker. Without one, the main report is the whole answer |
| ResultCard.SplitEmpty | components/ResultCard.tsx:58 | The empty answer gives an empty main report, no trend piece and no trend section |
| ResultCard.SplitOneMarker | components/ResultCard.tsx:58 | With exactly one marker, the pieces are the text before and after it, and main + marker + trend rebuilds the answer |
| ResultCard.SplitTwoMarkers | components/ResultCard.tsx:58 | With two or more markers, the trend report is the text between the first and the second marker. Whatever follows the second marker is not shown |
| ResultCard.SplitTrailingMarker | components/ResultCard.tsx:92-105 | An answer that ends with its first marker has an empty trend piece, so no trend section is rendered |
| ResultCard.SplitReassembles | components/ResultCard.tsx:58 | For every answer, neither shown piece contains the marker. The answer is the main report alone, or main + marker + trend followed by nothing or by a second marker and dropped text |
| ResultCard.SectionPage | components/ResultCard.tsx:42-51 | The page of one captured section: its own size, portrait, with the capture placed from the top-left corner at full size. `ReportPages`, `ReportPageCount` and `DownloadPdf` state how the pages are assembled |
| ResultCard.ReportPages | components/ResultCard.tsx:36-52 | One or two pages: the main section's page first and, exactly when the trend section is rendered, the trend section's page second. `DownloadPdf` is proved to build exactly these pages |
| ResultCard.ReportPageCount | components/ResultCard.tsx:36-52 | The export has one page per rendered section: the main section's page first, then the trend section's page. There are two pages exactly when the trend section is rendered. An answer without a marker, or ending in its first marker, exports one page |
| ResultCard.DownloadPdf | components/ResultCard.tsx:22-56 | Nothing is produced while the main section is unmounted. Otherwise the saved document is "Purus-Report.pdf" with exactly the pages of `ReportPages` |
| ResultCard.PdfDocument.constructor | components/ResultCard.tsx:36-40 | A new document has one empty portrait page of the first canvas's size |
| ResultCard.PdfDocument.AddImage | components/ResultCard.tsx:42 | The image is appended to the current (last) page, and every other page is unchanged |
| ResultCard.PdfDocument.AddPage | components/ResultCard.tsx:50 | A new, empty page of the given size is appended |
| ResultCard.PdfDocument.Save | components/ResultCard.tsx:55 | The saved file has the given name and the current pages |
| AnalysisLoader.Padded | components/AnalysisLoader.tsx:33-34 | `toString().padStart(2, '0')` of one field. Specified by `PaddedNumeral` |
| AnalysisLoader.FormatTime | components/AnalysisLoader.tsx:32-36 | Whole minutes and remaining seconds, each padded, joined by a colon. Specified by `FormatTimeFields`, `FormatTimeRoundTrip` and `FormatTimeInjective` |
| AnalysisLoader.PaddedNumeral | components/AnalysisLoader.tsx:33-34 | A padded field is a numeral of at least two digits that reads back as its value. It has exactly two digits below 100, and at 100 or more it is the unpadded, uncut numeral |
| AnalysisLoader.FormatTimeFields | components/AnalysisLoader.tsx:32-36 | The display is minutes, ':' and seconds. The seconds are exactly two digits with a value below 60. The minutes have at least two digits, read as seconds / 60, and have three or more digits from 6000 seconds on. 60 * minutes + seconds equals the input |
| AnalysisLoader.FormatTimeRoundTrip | components/AnalysisLoader.tsx:32-36 | Parsing a display back at its first colon gives the elapsed seconds |
| AnalysisLoader.FormatTimeInjective | components/AnalysisLoader.tsx:32-36 | Different elapsed times never give the same display |
| AnalysisLoader.NextMessageIndex | components/AnalysisLoader.tsx:23 | The next message index is always a valid index into the seven messages |
| AnalysisLoader.MessageIndexCycles | components/AnalysisLoader.tsx:22-24 | After n ticks from 0, the index is n mod 7 |
| AnalysisLoader.LoaderState.constructor | components/AnalysisLoader.tsx:14-15 | Both counters start at 0 |
| AnalysisLoader.LoaderState.TimerTick | components/AnalysisLoader.tsx:19 | The elapsed time goes up by exactly 1, and the message index is unchanged |
| AnalysisLoader.LoaderState.MessageTick | components/AnalysisLoader.tsx:23 | The index becomes (i + 1) mod 7, stays below 7, equals the tick count mod 7, and the elapsed time is unchanged |
| AnalysisLoader.LoaderState.CurrentMessage | components/AnalysisLoader.tsx:47 | The shown message is always one of the seven messages |
| AnalysisLoader.LoaderState.Display | components/AnalysisLoader.tsx:49 | The clock shown reads back as the elapsed seconds |
| App.KeptFiles | App.tsx:23-25 | The kept files are always a prefix of the selection. Summary mode keeps the first file only (none if nothing was selected), and trend mode keeps all files in order |
| App.ChooseCall | App.tsx:39-43 | The trend analysis is called iff the mode is trend and there is more than one file, and it gets all files. Otherwise the single-document analysis gets `files[0]`, so trend mode with one file falls back to it. The symptoms are passed unchanged |
| App.ErrorText | App.tsx:48 | The error line shows an `Error`'s own message, and "An unknown error occurred." for any other thrown value |
| App.CallOutcome | App.tsx:39-43 | How the routed call settles, with the symptoms always passed as present. `CallIsAnalysis` and `AnalysisErrorText` state it |
| App.CallIsAnalysis | App.tsx:39-43 | A document call analyses its one file with the single-document prompt and generic message. A trend call analyses all its files with the trend prompt and generic message. The symptom text is always passed, so an empty one reaches the service as present but falsy |
| App.AnalysisErrorText | App.tsx:46-49 | If all files encode, a failed analysis shows the rate-limit text exactly when the model's failure was an `Error` mentioning "429", and the entry point's generic text otherwise. If a file cannot be read, it shows that file's own failure |
| App.RateLimitMessages | services/geminiService.ts:93-99 | The rate-limit text differs from both generic texts and from the unknown-error text |
| App.Session.constructor | App.tsx:11-16 | The initial state is IDLE, with no files, empty symptoms, an empty result, summary mode and an empty error |
| App.Session.HandleFileChange | App.tsx:18-26 | No selection empties the files and keeps the error. A selection keeps `KeptFiles` for the current mode and clears the error. Nothing else changes |
| App.Session.SetSymptoms | App.tsx:89 | Only the symptom text changes |
| App.Session.SetAnalysisType | App.tsx:91 | Only the mode changes, and the files already selected stay |
| App.Session.BeginAnalysis | App.tsx:29-35 | With no files, the error becomes "Please select at least one file.", the status is unchanged, and no call is made. Otherwise the status becomes ANALYZING, the error is cleared, and the routed call is returned |
| App.Session.SettleAnalysis | App.tsx:44-49 | On success, the result is stored verbatim and the status becomes SUCCESS. On failure, the error becomes `ErrorText` of the reason and the status becomes ERROR, with the old result kept |
| App.Session.HandleAnalyze | App.tsx:28-51 | The whole handler: the guard, the routed call, and the final state in terms of that call's outcome. Files, symptoms and mode are untouched |
| App.Session.HandleReset | App.tsx:53-60 | From any state, the session returns to exactly the initial state |

## Left out

- The model call itself (`ai.models.generateContent`), the `API_KEY` check and the client construction (services/geminiService.ts:4-10) are foreign SDK and network code. The model is the `Generator` parameter.
- `fileToBase64` reads the file asynchronously and is not part of this model. The encoder is the `Encoder` parameter, and the payload is an opaque string.
- GeminiService.FileParts: `Promise.all` rejects with whichever file fails first in time. The model takes the first unreadable file in input order, because the model has no timing.
- GeminiService.TrendPromptSeparator: it proves that the marker sits at a fixed position between backticks for every symptom text. It does not prove that the literal template holds no second occurrence. Character-level facts about such long literals are out of the verifier's reach.
- `response.text` is taken to be a string. The SDK's possibly-undefined text is not modelled.
- html2canvas and jsPDF internals are left out: `toDataURL`, the `scale` and `backgroundColor` options, the `'px'` unit, and toggling the `pdf-capture` class on `document.body`. Each capture is a `Canvas` parameter, and a document is only its page sequence.
- Markdown rendering, JSX markup and styling, and components/FileUpload.tsx are left out. They are presentation only.
- Timers (`setInterval`, `clearInterval`, effect cleanup) are left out. Each tick is a method call on `LoaderState`.
- `console.error` logging is left out.
- App.Session.HandleAnalyze runs the handler to the end without interruption. Any handler that the browser runs while the request is pending can be expressed with `BeginAnalysis` and `SettleAnalysis` called separately.
- AnalysisLoader.FormatTime takes a natural number. The counter never holds a negative or fractional value.
- AnalysisLoader.LoaderState.TimerTick, Strings.DecimalString: `elapsedTime` is a JavaScript double, so `prev + 1` stops changing at 2^53 and `toString()` switches to exponent notation from 1e21. The model uses an unbounded natural number and a plain decimal numeral. Neither limit can be reached: 2^53 seconds is about 285 million years.
