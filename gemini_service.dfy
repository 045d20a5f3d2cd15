/**
  The analysis client of services/geminiService.ts: the prompt templates,
  the ordered request parts, the single call to the generative model and the
  narrowing of its failures into two user-facing messages.

  The model call and the file encoder are collaborators the client cannot
  see: they are parameters here (`Generator`, `Encoder`), total functions from
  their input to a settled promise.
 */
module GeminiService {
  import opened Wrappers
  import opened Strings

  // ---- Data -------------------------------------------------------------

  /** A file the user selected; its bytes are opaque to the client. */
  datatype File = File(name: string, mimeType: string, bytes: seq<bv8>)

  /** A thrown value: `isError` tells whether it is an `Error` instance, in
      which case `message` is its message. */
  datatype Thrown = Thrown(message: string, isError: bool)

  /** How a promise settles. */
  datatype Settled<+T> = Fulfilled(value: T) | Rejected(reason: Thrown)

  /** One part of a request: the instruction text, or an encoded file. */
  datatype Part = Text(text: string) | InlineData(data: string, mimeType: string)

  datatype Request = Request(model: string, parts: seq<Part>)

  /** The file encoder (base64 of the file's bytes), which may fail to read the file. */
  type Encoder = File -> Settled<string>

  /** The generative model: one request in, the response text or a failure out. */
  type Generator = Request -> Settled<string>

  const ModelName := "gemini-2.5-flash"

  // ---- Single-document prompt ---------------------------------------------

  const HeadingBullet := "\n    *   "
  const DocumentTypeHeading := "### Document Type"
  const KeySummaryHeading := "### Key Summary"
  const DetailedBreakdownHeading := "### Detailed Breakdown"
  const NextStepsHeading := "### Recommendations & Next Steps"

  const SingleDocIntro := @"
You are a helpful medical assistant AI named Purus. Your task is to analyze a medical document (which could be a prescription, lab report, ECG, scan, etc.) and generate a simple, easy-to-understand summary for a patient.

**Instructions:**
1.  **Do Not Provide Medical Advice:** Start your response with a clear disclaimer: ""This is an AI-generated summary and not a substitute for professional medical advice. Please consult your doctor for any health concerns.""
2.  **Structure the Report:** Organize the output in clear sections using Markdown. Use the following headings:
    *   "

  const SingleDocRules := @"
3.  **Simplify Language:** Avoid jargon. Explain complex terms in plain language.
4.  **Analyze Content:**
    *   **For Lab Reports:** Identify values that are outside the normal range. Explain what these markers generally relate to in simple terms.
    *   **For Prescriptions:** List each medication, its purpose, dosage, and frequency clearly in a table.
    *   **For other documents (ECG, Scans):** Summarize the findings mentioned in the report.
5.  **Maintain a supportive and clear tone.**
"

  /** `singleDocPrompt` */
  const SingleDocPrompt := SingleDocIntro + DocumentTypeHeading + HeadingBullet + KeySummaryHeading
    + HeadingBullet + DetailedBreakdownHeading + HeadingBullet + NextStepsHeading + SingleDocRules

  const Quote := "\""
  const SymptomLead := @"
6.  **Symptom Analysis:** The user has reported the following symptoms: "
  const SymptomRequestLead := ". Please add a section titled "
  const SymptomAnalysisHeading := "### Symptom Analysis"
  const SymptomRequestTail := @" where you analyze these symptoms in the context of the provided medical document. Discuss potential correlations or points of discussion for their doctor, while reiterating that this is not a medical diagnosis.
"

  /** What follows the symptoms in the symptom section, closing quote included. */
  const SymptomRequest := Quote + SymptomRequestLead + Quote + SymptomAnalysisHeading + Quote + SymptomRequestTail

  /** `symptomsPromptSection(symptoms)`: the symptoms are embedded as given, in quotes. */
  function SymptomsPromptSection(symptoms: string): string {
    SymptomLead + Quote + symptoms + SymptomRequest
  }

  /** JavaScript truthiness of an optional string: present and non-empty.
      A string of blanks is truthy; nothing is trimmed. */
  predicate Truthy(symptoms: Option<string>) {
    symptoms.Some? && symptoms.value != ""
  }

  /** The prompt `analyzeDocument` sends: `singleDocPrompt`, followed by the
      symptom section when the symptoms are truthy. */
  function DocumentPrompt(symptoms: Option<string>): string {
    if Truthy(symptoms) then SingleDocPrompt + SymptomsPromptSection(symptoms.value) else SingleDocPrompt
  }

  // ---- Trend prompt --------------------------------------------------------

  const TrendIntro := @"
You are a helpful medical assistant AI named Purus. Your task is to analyze a series of medical documents provided over time and generate a comprehensive health trend report for a patient.
"
  const SymptomsLineLead := "You should also consider the user's current symptoms: "

  const TrendBeforeSeparator := @"

**Instructions:**
1.  **Do Not Provide Medical Advice:** Start your response with a clear disclaimer: ""This is an AI-generated summary and not a substitute for professional medical advice. Please consult your doctor for any health concerns.""
2.  **Summarize Latest Document:** First, provide a summary of the most recent document (based on content and filenames if possible), following the structure for a single document analysis (Document Type, Key Summary, Detailed Breakdown).
3.  **Introduce Trend Analysis Section:** After the summary of the latest document, you MUST insert a special separator on its own line: "
  const Backtick := "`"
  /** The separator the model is told to put between the two reports. */
  const NewPageSeparator := "---NEW_PAGE---"
  const TrendStructureLead := @". This is critical for formatting the downloadable report.
4.  **Structure the Trend Analysis:** After the separator, create the trend analysis report with the following Markdown headings:
    *   "

  const HealthTrendHeading := "### Health Trend Analysis"
  const KeyChangesHeading := "#### Key Changes Over Time"
  const KeyChangesGuidance := @"
        *   Analyze all provided documents chronologically.
        *   Highlight significant changes in lab results (e.g., rising/falling levels of specific markers), changes in prescriptions (new medications, dosage adjustments), and findings from scans or other reports. Use bullet points for clarity.
    *   "
  const VisualSpotlightHeading := "#### Visual Trend Spotlight"
  const VisualSpotlightGuidance := @"
        *   Create a Markdown table for one or two of the most significant changing lab markers. The table should show the date (if available in the document) and the value.
    *   "
  const DiscussionHeading := "#### Potential Areas for Discussion"
  const DiscussionGuidance := @"
        *   Based on the trends, suggest topics the user might want to discuss with their doctor. Do not give advice, but frame them as questions or discussion points.
"
  const SymptomCorrelationHeading := "#### Symptom Correlation"
  const CorrelationGuidance := @"
        *   Briefly discuss if any of the observed trends could be related to the reported symptoms, framing this as a point for discussion with a healthcare professional.
"
  const TrendClosing := @"
5.  **Maintain a supportive and clear tone throughout.**
"

  /** What follows the separator up to the end of instruction 4, closing
      backtick included. */
  const TrendReportInstructions := Backtick + TrendStructureLead + HealthTrendHeading + HeadingBullet
    + KeyChangesHeading + KeyChangesGuidance + VisualSpotlightHeading + VisualSpotlightGuidance
    + DiscussionHeading + DiscussionGuidance

  /** Instructions 1 to 4 of the trend prompt, separator included. */
  const TrendInstructions := TrendBeforeSeparator + Backtick + NewPageSeparator + TrendReportInstructions

  /** The first interpolation of the trend template. */
  function SymptomsLine(symptoms: Option<string>): string {
    if Truthy(symptoms) then SymptomsLineLead + Quote + symptoms.value + Quote else ""
  }

  /** The second interpolation of the trend template. */
  function SymptomCorrelation(symptoms: Option<string>): string {
    if Truthy(symptoms) then HeadingBullet + SymptomCorrelationHeading + CorrelationGuidance else ""
  }

  /** `trendAnalysisPrompt(symptoms)` */
  function TrendAnalysisPrompt(symptoms: Option<string>): string {
    TrendIntro + SymptomsLine(symptoms) + TrendInstructions + SymptomCorrelation(symptoms) + TrendClosing
  }

  // ---- Prompt properties ---------------------------------------------------
  //
  // The templates are long literals, so each property is proved once over
  // arbitrary strings of the template's shape and then applied to it.

  /** Shape lemma for `base + symptomsPromptSection(s)`. */
  lemma SectionShape(base: string, lead: string, q: string, s: string, req: string, rl: string, h: string,
                     rt: string)
    requires |q| == 1 && req == q + rl + q + h + q + rt
    ensures var p := base + (lead + q + s + req);
      var k := |base| + |lead| + 1;
      && |base| < |p| && p[..|base|] == base
      && OccursAt(p, s, k) && p[k - 1] == q[0] && p[k + |s|] == q[0]
      && AppearInOrder(p[k + |s|..], [h])
  {
    var x := base + lead + q;
    assert base + (lead + q + s + req) == x + s + req;
    Middle(x, s, req);
    Middle(base, lead + q + s + req, "");
    InOrderSnoc(q + rl + q, h, q, []);
    InOrderAppend(q + rl + q + h + q, rt, [] + [h]);
    assert [] + [h] == [h];
  }

  /** Shape lemma for the trend template: where the separator sits and what
      follows it. */
  lemma SeparatorShape(a: string, l: string, ti: string, c: string, z: string, bs: string, bt: string,
                       sep: string, r: string, hs: seq<string>, h5: string, c5: string)
    requires |bt| == 1 && ti == bs + bt + sep + r && |r| > 0 && r[0] == bt[0] && AppearInOrder(r, hs)
    requires AppearInOrder(c5, [h5])
    ensures var p := a + l + ti + c + z;
      var k := |a| + |l| + |bs| + 1;
      && OccursAt(p, sep, k) && p[k - 1] == bt[0] && p[k + |sep|] == bt[0]
      && AppearInOrder(p[k + |sep|..], hs)
      && (c == c5 ==> AppearInOrder(p[k + |sep|..], hs + [h5]))
  {
    SeparatorPosition(a, l, bs, bt, sep, r, c, z);
    assert (r + c + z)[0] == r[0];
    TailInOrder(r, c, z, hs, h5, c5);
  }

  /** Where the separator sits in the trend template, and what follows it. */
  lemma SeparatorPosition(a: string, l: string, bs: string, bt: string, sep: string, r: string, c: string, z: string)
    requires |bt| == 1
    ensures var p := a + l + (bs + bt + sep + r) + c + z;
      var k := |a| + |l| + |bs| + 1;
      && OccursAt(p, sep, k) && p[k - 1] == bt[0] && p[k + |sep|..] == r + c + z
  {
    var p := a + l + (bs + bt + sep + r) + c + z;
    var k := |a| + |l| + |bs| + 1;
    var x := a + l + bs + bt;
    var y := r + c + z;
    assert p == x + sep + y;
    assert p[k..k + |sep|] == sep;
    assert p[k + |sep|..] == y;
    assert p[k - 1] == x[k - 1] == bt[0];
  }

  /** The headings of the report instructions stay in order when the optional
      block and the closing follow, and the block's heading comes after them. */
  lemma TailInOrder(r: string, c: string, z: string, hs: seq<string>, h5: string, c5: string)
    requires AppearInOrder(r, hs) && AppearInOrder(c5, [h5])
    ensures AppearInOrder(r + c + z, hs)
    ensures c == c5 ==> AppearInOrder(r + c + z, hs + [h5])
  {
    InOrderAppend(r, c, hs);
    InOrderAppend(r + c, z, hs);
    if c == c5 {
      InOrderConcat(r, c, hs, [h5]);
      InOrderAppend(r + c, z, hs + [h5]);
    }
  }

  /** The single-document prompt always starts with `singleDocPrompt`; it is
      longer exactly when the symptoms are truthy, and then the symptoms
      follow the lead-in verbatim, between double quotes, with the request for
      a "### Symptom Analysis" section after them. */
  lemma DocumentPromptSymptoms(symptoms: Option<string>)
    ensures |SingleDocPrompt| <= |DocumentPrompt(symptoms)|
    ensures DocumentPrompt(symptoms)[..|SingleDocPrompt|] == SingleDocPrompt
    ensures Truthy(symptoms) <==> DocumentPrompt(symptoms) != SingleDocPrompt
    ensures Truthy(symptoms) ==>
      var p := DocumentPrompt(symptoms);
      var k := |SingleDocPrompt| + |SymptomLead| + 1;
      && OccursAt(p, symptoms.value, k) && p[k - 1] == '"' && p[k + |symptoms.value|] == '"'
      && AppearInOrder(p[k + |symptoms.value|..], [SymptomAnalysisHeading])
  {
    if Truthy(symptoms) {
      SymptomSectionPlaced(symptoms.value);
    } else {
      var p := SingleDocPrompt;
      assert p[..|p|] == p;
    }
  }

  /** The section for a symptom text, placed after `singleDocPrompt`. */
  lemma SymptomSectionPlaced(text: string)
    ensures var p := SingleDocPrompt + SymptomsPromptSection(text);
      var k := |SingleDocPrompt| + |SymptomLead| + 1;
      && |SingleDocPrompt| < |p| && p[..|SingleDocPrompt|] == SingleDocPrompt
      && OccursAt(p, text, k) && p[k - 1] == '"' && p[k + |text|] == '"'
      && AppearInOrder(p[k + |text|..], [SymptomAnalysisHeading])
  {
    assert Quote[0] == '"';
    SectionShape(SingleDocPrompt, SymptomLead, Quote, text, SymptomRequest, SymptomRequestLead,
      SymptomAnalysisHeading, SymptomRequestTail);
  }

  /** The four single-document headings appear in the order Document Type,
      Key Summary, Detailed Breakdown, Recommendations & Next Steps, whatever
      the symptoms. */
  lemma DocumentPromptHeadings(symptoms: Option<string>)
    ensures AppearInOrder(DocumentPrompt(symptoms),
      [DocumentTypeHeading, KeySummaryHeading, DetailedBreakdownHeading, NextStepsHeading])
  {
    FourInOrder(SingleDocIntro, DocumentTypeHeading, HeadingBullet, KeySummaryHeading, HeadingBullet,
      DetailedBreakdownHeading, HeadingBullet, NextStepsHeading, SingleDocRules);
    if Truthy(symptoms) {
      InOrderAppend(SingleDocPrompt, SymptomsPromptSection(symptoms.value),
        [DocumentTypeHeading, KeySummaryHeading, DetailedBreakdownHeading, NextStepsHeading]);
    }
  }

  /** Without truthy symptoms (absent or empty) both interpolations of the
      trend template are empty. With them, the symptoms line, holding the
      symptoms verbatim in quotes, follows the introduction, and the Symptom
      Correlation item follows the discussion guidance. */
  lemma TrendPromptSymptoms(symptoms: Option<string>)
    ensures !Truthy(symptoms) ==> TrendAnalysisPrompt(symptoms) == TrendIntro + TrendInstructions + TrendClosing
    ensures Truthy(symptoms) ==>
      TrendAnalysisPrompt(symptoms) == TrendIntro + (SymptomsLineLead + Quote + symptoms.value + Quote)
        + TrendInstructions + (HeadingBullet + SymptomCorrelationHeading + CorrelationGuidance) + TrendClosing
  {
    if !Truthy(symptoms) {
      DropEmpty(TrendIntro, TrendInstructions, TrendClosing);
    }
  }

  /** Empty interpolations vanish; stated over arbitrary strings so that the
      template literals are not unfolded. */
  lemma DropEmpty(a: string, b: string, c: string)
    ensures a + "" + b + "" + c == a + b + c
  {
  }

  /** The separator appears in the trend prompt between backticks, at a
      position fixed by the template and the length of the symptoms line;
      after it come the trend-report headings Health Trend Analysis, Key
      Changes Over Time, Visual Trend Spotlight, Potential Areas for
      Discussion in that order, and then Symptom Correlation when the
      symptoms are truthy. */
  lemma TrendPromptSeparator(symptoms: Option<string>)
    ensures var p := TrendAnalysisPrompt(symptoms);
      var k := |TrendIntro| + |SymptomsLine(symptoms)| + |TrendBeforeSeparator| + 1;
      && OccursAt(p, NewPageSeparator, k)
      && p[k - 1] == '`' && p[k + |NewPageSeparator|] == '`'
      && AppearInOrder(p[k + |NewPageSeparator|..], TrendHeadings)
      && (Truthy(symptoms) ==> AppearInOrder(p[k + |NewPageSeparator|..],
           [HealthTrendHeading, KeyChangesHeading, VisualSpotlightHeading, DiscussionHeading,
            SymptomCorrelationHeading]))
  {
    TrendReportHeadings();
    CorrelationHeading();
    SeparatorShape(TrendIntro, SymptomsLine(symptoms), TrendInstructions, SymptomCorrelation(symptoms),
      TrendClosing, TrendBeforeSeparator, Backtick, NewPageSeparator, TrendReportInstructions, TrendHeadings,
      SymptomCorrelationHeading, HeadingBullet + SymptomCorrelationHeading + CorrelationGuidance);
  }

  const TrendHeadings := [HealthTrendHeading, KeyChangesHeading, VisualSpotlightHeading, DiscussionHeading]

  lemma TrendReportHeadings()
    ensures |Backtick| == 1 && Backtick[0] == '`'
    ensures |TrendReportInstructions| > 0 && TrendReportInstructions[0] == Backtick[0]
    ensures AppearInOrder(TrendReportInstructions, TrendHeadings)
  {
    FourInOrder(Backtick + TrendStructureLead, HealthTrendHeading, HeadingBullet, KeyChangesHeading,
      KeyChangesGuidance, VisualSpotlightHeading, VisualSpotlightGuidance, DiscussionHeading, DiscussionGuidance);
  }

  lemma CorrelationHeading()
    ensures AppearInOrder(HeadingBullet + SymptomCorrelationHeading + CorrelationGuidance, [SymptomCorrelationHeading])
    ensures TrendHeadings + [SymptomCorrelationHeading] == [HealthTrendHeading, KeyChangesHeading,
      VisualSpotlightHeading, DiscussionHeading, SymptomCorrelationHeading]
  {
    InOrderSnoc(HeadingBullet, SymptomCorrelationHeading, CorrelationGuidance, []);
    assert [] + [SymptomCorrelationHeading] == [SymptomCorrelationHeading];
  }

  // ---- Request parts -------------------------------------------------------

  /** The part for one encoded file: its payload with the file's MIME type. */
  function FilePart(file: File, data: string): Part {
    InlineData(data, file.mimeType)
  }

  /** `getFileParts(files)`: every file encoded, in input order; the
      combined promise rejects as soon as one file cannot be encoded. */
  function FileParts(files: seq<File>, encode: Encoder): (r: Settled<seq<Part>>)
    decreases |files|
    ensures r.Fulfilled? <==> forall i :: 0 <= i < |files| ==> encode(files[i]).Fulfilled?
    ensures r.Fulfilled? ==> |r.value| == |files|
    ensures r.Fulfilled? ==> forall i :: 0 <= i < |files| ==>
      encode(files[i]).Fulfilled? && r.value[i] == FilePart(files[i], encode(files[i]).value)
    ensures r.Rejected? ==> exists i :: (0 <= i < |files| && encode(files[i]) == Rejected(r.reason)
      && forall j :: 0 <= j < i ==> encode(files[j]).Fulfilled?)
  {
    if |files| == 0 then Fulfilled([])
    else match encode(files[0])
      case Rejected(e) => Rejected(e)
      case Fulfilled(data) =>
        match FileParts(files[1..], encode)
        case Rejected(e) => Rejected(e)
        case Fulfilled(rest) => Fulfilled([FilePart(files[0], data)] + rest)
  }

  /** `getFileParts(files)`, one file after the other. */
  method GetFileParts(files: seq<File>, encode: Encoder) returns (r: Settled<seq<Part>>)
    ensures r == FileParts(files, encode)
  {
    var parts: seq<Part> := [];
    var i := 0;
    while i < |files|
      invariant 0 <= i <= |files|
      invariant forall j :: 0 <= j < i ==> encode(files[j]).Fulfilled?
      invariant |parts| == i
      invariant forall j :: 0 <= j < i ==> parts[j] == FilePart(files[j], encode(files[j]).value)
    {
      match encode(files[i]) {
        case Rejected(e) =>
          assert FileParts(files, encode).Rejected?;
          return Rejected(e);
        case Fulfilled(data) =>
          parts := parts + [FilePart(files[i], data)];
      }
      i := i + 1;
    }
    assert parts == FileParts(files, encode).value;
    r := Fulfilled(parts);
  }

  // ---- Failure classification ---------------------------------------------

  const RateLimitCode := "429"
  const RateLimitMessage := "Too many requests. Please wait a moment and try again."
  const DocumentFailureMessage := "Failed to analyze the document with AI. Please check the file and try again."
  const TrendFailureMessage := "Failed to analyze health trends with AI. Please check the files and try again."

  /** The `catch` block: an `Error` whose message contains "429" becomes the
      rate-limit error, anything else the entry point's generic error. */
  function ClassifyFailure(reason: Thrown, generic: string): (e: Thrown)
    ensures e.isError
    ensures e.message == RateLimitMessage || e.message == generic
  {
    if reason.isError && Includes(reason.message, RateLimitCode) then Thrown(RateLimitMessage, true)
    else Thrown(generic, true)
  }

  /** With either entry point's generic message, the classified failure is
      the rate-limit error exactly when the original was an `Error` whose
      message contains "429" somewhere. */
  lemma RateLimitIff(reason: Thrown, generic: string)
    requires generic == DocumentFailureMessage || generic == TrendFailureMessage
    ensures ClassifyFailure(reason, generic).message == RateLimitMessage
      <==> reason.isError && exists i :: OccursAt(reason.message, RateLimitCode, i)
    ensures ClassifyFailure(reason, generic).message != RateLimitMessage ==>
      ClassifyFailure(reason, generic) == Thrown(generic, true)
  {
    IncludesIff(reason.message, RateLimitCode);
  }

  // ---- The two entry points ------------------------------------------------

  /** The request sent for a prompt and the encoded files: the text part,
      then the file parts. */
  function RequestFor(prompt: string, fileParts: seq<Part>): Request {
    Request(ModelName, [Text(prompt)] + fileParts)
  }

  /** What an entry point sends (if it gets as far as sending) and how its
      promise settles: encoding failures are passed on as they are, the
      response text is returned as it is, a failed call is classified. */
  function Analysis(files: seq<File>, prompt: string, generic: string, encode: Encoder, generate: Generator)
    : (Option<Request>, Settled<string>)
  {
    match FileParts(files, encode)
    case Rejected(e) => (None, Rejected(e))
    case Fulfilled(parts) =>
      var request := RequestFor(prompt, parts);
      match generate(request)
      case Fulfilled(text) => (Some(request), Fulfilled(text))
      case Rejected(e) => (Some(request), Rejected(ClassifyFailure(e, generic)))
  }

  /** `analyzeDocument(file, symptoms)` */
  function DocumentAnalysis(file: File, symptoms: Option<string>, encode: Encoder, generate: Generator)
    : (Option<Request>, Settled<string>)
  {
    Analysis([file], DocumentPrompt(symptoms), DocumentFailureMessage, encode, generate)
  }

  /** `analyzeHealthTrend(files, symptoms)` */
  function TrendAnalysis(files: seq<File>, symptoms: Option<string>, encode: Encoder, generate: Generator)
    : (Option<Request>, Settled<string>)
  {
    Analysis(files, TrendAnalysisPrompt(symptoms), TrendFailureMessage, encode, generate)
  }

  /** A request is sent exactly when every file encodes; it carries the
      prompt first and then one part per file, in input order, each with
      that file's MIME type. */
  lemma AnalysisRequest(files: seq<File>, prompt: string, generic: string, encode: Encoder, generate: Generator)
    ensures var (sent, _) := Analysis(files, prompt, generic, encode, generate);
      && (sent.Some? <==> forall i :: 0 <= i < |files| ==> encode(files[i]).Fulfilled?)
      && (sent.Some? ==>
            && sent.value.model == ModelName
            && |sent.value.parts| == 1 + |files|
            && sent.value.parts[0] == Text(prompt)
            && forall i :: 0 <= i < |files| ==>
                 encode(files[i]).Fulfilled?
                 && sent.value.parts[i + 1] == InlineData(encode(files[i]).value, files[i].mimeType))
  {
  }

  /** How the promise of an entry point settles: an encoding failure is the
      first unreadable file's own failure, passed on without classification
      and with no request sent; a response's text comes back unchanged; a
      failed call becomes the rate-limit error or the generic error, never
      anything else. */
  lemma AnalysisOutcome(files: seq<File>, prompt: string, generic: string, encode: Encoder, generate: Generator)
    requires generic == DocumentFailureMessage || generic == TrendFailureMessage
    ensures var (sent, r) := Analysis(files, prompt, generic, encode, generate);
      && (sent.None? ==> r.Rejected? && exists i :: (0 <= i < |files| && encode(files[i]) == Rejected(r.reason)
            && forall j :: 0 <= j < i ==> encode(files[j]).Fulfilled?))
      && (sent.Some? && generate(sent.value).Fulfilled? ==> r == generate(sent.value))
      && (sent.Some? && generate(sent.value).Rejected? ==>
            var e := generate(sent.value).reason;
            && r.Rejected? && r.reason.isError
            && (r.reason.message == RateLimitMessage <==> e.isError && Includes(e.message, RateLimitCode))
            && (r.reason.message != RateLimitMessage ==> r.reason.message == generic))
  {
    var (sent, r) := Analysis(files, prompt, generic, encode, generate);
    if sent.Some? && generate(sent.value).Rejected? {
      RateLimitIff(generate(sent.value).reason, generic);
      IncludesIff(generate(sent.value).reason.message, RateLimitCode);
    }
  }

  /** `analyzeDocument`: encode the one file, build the prompt in place, send
      the request, return or classify. Returns the request it sent, if any. */
  method AnalyzeDocument(file: File, symptoms: Option<string>, encode: Encoder, generate: Generator)
    returns (sent: Option<Request>, r: Settled<string>)
    ensures (sent, r) == DocumentAnalysis(file, symptoms, encode, generate)
  {
    var fileParts := GetFileParts([file], encode);
    if fileParts.Rejected? {
      return None, Rejected(fileParts.reason);
    }
    var currentPrompt := SingleDocPrompt;
    if Truthy(symptoms) {
      currentPrompt := currentPrompt + SymptomsPromptSection(symptoms.value);
    }
    var request := RequestFor(currentPrompt, fileParts.value);
    sent := Some(request);
    match generate(request) {
      case Fulfilled(text) =>
        r := Fulfilled(text);
      case Rejected(e) =>
        r := Rejected(ClassifyFailure(e, DocumentFailureMessage));
    }
  }

  /** `analyzeHealthTrend`: encode every file, send the trend prompt with
      them, return or classify. Returns the request it sent, if any. */
  method AnalyzeHealthTrend(files: seq<File>, symptoms: Option<string>, encode: Encoder, generate: Generator)
    returns (sent: Option<Request>, r: Settled<string>)
    ensures (sent, r) == TrendAnalysis(files, symptoms, encode, generate)
  {
    var fileParts := GetFileParts(files, encode);
    if fileParts.Rejected? {
      return None, Rejected(fileParts.reason);
    }
    var request := RequestFor(TrendAnalysisPrompt(symptoms), fileParts.value);
    sent := Some(request);
    match generate(request) {
      case Fulfilled(text) =>
        r := Fulfilled(text);
      case Rejected(e) =>
        r := Rejected(ClassifyFailure(e, TrendFailureMessage));
    }
  }
}
