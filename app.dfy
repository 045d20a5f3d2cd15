/**
  The session: which screen is shown (idle upload form, loader, report or
  error), the selected files, the symptom text, the last report, the chosen
  analysis mode and the error line, and the handlers that change them.
 */
module App {
  import opened Wrappers
  import opened GeminiService
  import opened Strings

  datatype AppStatus = Idle | Analyzing | Success | Error

  /** `'summary' | 'trend'` */
  datatype AnalysisType = Summary | Trend

  const NoFileMessage := "Please select at least one file."
  const UnknownErrorMessage := "An unknown error occurred."

  /** The service entry point an analysis goes to, with its arguments. */
  datatype ServiceCall = DocumentCall(file: File, symptoms: string) | TrendCall(files: seq<File>, symptoms: string)

  /** The files kept from a selection: the first one in summary mode, all of
      them in trend mode. */
  function KeptFiles(analysisType: AnalysisType, selected: seq<File>): (kept: seq<File>)
    ensures |kept| <= |selected| && kept == selected[..|kept|]
    ensures analysisType == Summary ==> |kept| == if |selected| == 0 then 0 else 1
    ensures analysisType == Trend ==> |kept| == |selected|
  {
    if analysisType == Summary then selected[..if |selected| == 0 then 0 else 1] else selected
  }

  /** The routing in `handleAnalyze`: the trend analysis only in trend mode
      with more than one file; otherwise the single-document analysis of the
      first file, so trend mode with one file falls back to it. */
  function ChooseCall(analysisType: AnalysisType, files: seq<File>, symptoms: string): (c: ServiceCall)
    requires |files| > 0
    ensures c.TrendCall? <==> analysisType == Trend && |files| > 1
    ensures c.TrendCall? ==> c.files == files
    ensures c.DocumentCall? ==> c.file == files[0]
    ensures c.symptoms == symptoms
  {
    if analysisType == Trend && |files| > 1 then TrendCall(files, symptoms) else DocumentCall(files[0], symptoms)
  }

  /** How a call settles. The symptom text is always passed, so the service
      sees it as present (possibly empty). */
  function CallOutcome(c: ServiceCall, encode: Encoder, generate: Generator): Settled<string> {
    match c
    case DocumentCall(file, symptoms) => DocumentAnalysis(file, Some(symptoms), encode, generate).1
    case TrendCall(files, symptoms) => TrendAnalysis(files, Some(symptoms), encode, generate).1
  }

  /** The generic failure message of the entry point a call goes to. */
  function GenericFailure(c: ServiceCall): string {
    if c.DocumentCall? then DocumentFailureMessage else TrendFailureMessage
  }

  /** The files a call encodes. */
  function CallFiles(c: ServiceCall): seq<File> {
    if c.DocumentCall? then [c.file] else c.files
  }

  /** `err instanceof Error ? err.message : 'An unknown error occurred.'` */
  function ErrorText(e: Thrown): (m: string)
    ensures e.isError ==> m == e.message
    ensures !e.isError ==> m == UnknownErrorMessage
  {
    if e.isError then e.message else UnknownErrorMessage
  }

  /** The prompt of the entry point a call goes to. */
  function CallPrompt(c: ServiceCall): string {
    if c.DocumentCall? then DocumentPrompt(Some(c.symptoms)) else TrendAnalysisPrompt(Some(c.symptoms))
  }

  /** Each call settles as the shared analysis of its files, prompt and
      generic message. */
  lemma CallIsAnalysis(c: ServiceCall, encode: Encoder, generate: Generator)
    ensures CallOutcome(c, encode, generate) == Analysis(CallFiles(c), CallPrompt(c), GenericFailure(c), encode, generate).1
  {
  }

  /** The error line after a failed analysis (of any files and prompt, with
      either generic message): when every file encodes, it is the rate-limit
      text exactly when the model's failure was an `Error` mentioning "429",
      and the generic text otherwise; when a file cannot be read, it is that
      file's own failure, unclassified. With `CallIsAnalysis`, this covers
      every call the session makes. */
  lemma AnalysisErrorText(files: seq<File>, prompt: string, generic: string, encode: Encoder, generate: Generator)
    requires generic == DocumentFailureMessage || generic == TrendFailureMessage
    ensures var r := Analysis(files, prompt, generic, encode, generate).1;
      && ((forall i :: 0 <= i < |files| ==> encode(files[i]).Fulfilled?) && r.Rejected? ==>
            && (ErrorText(r.reason) == RateLimitMessage || ErrorText(r.reason) == generic)
            && (ErrorText(r.reason) == RateLimitMessage <==>
                  var outcome := generate(RequestFor(prompt, FileParts(files, encode).value));
                  outcome.Rejected? && outcome.reason.isError && Includes(outcome.reason.message, RateLimitCode)))
      && (!(forall i :: 0 <= i < |files| ==> encode(files[i]).Fulfilled?) ==>
            r.Rejected? && exists i :: (0 <= i < |files| && encode(files[i]) == Rejected(r.reason)))
  {
    match FileParts(files, encode)
    case Rejected(_) =>
    case Fulfilled(parts) =>
      match generate(RequestFor(prompt, parts))
      case Fulfilled(_) =>
      case Rejected(e) =>
        RateLimitMessages();
        assert ClassifyFailure(e, generic).message == RateLimitMessage
          <==> e.isError && Includes(e.message, RateLimitCode);
  }

  /** The three texts a failed call can end in are different. */
  lemma RateLimitMessages()
    ensures RateLimitMessage != DocumentFailureMessage && RateLimitMessage != TrendFailureMessage
    ensures UnknownErrorMessage != RateLimitMessage
  {
  }

  /** The session state of the `App` component. */
  class Session {
    var appStatus: AppStatus
    var files: seq<File>
    var symptoms: string
    var analysisResult: string
    var analysisType: AnalysisType
    var error: string

    /** The state a session starts in and returns to on reset. */
    predicate IsInitial()
      reads this
    {
      appStatus == Idle && files == [] && symptoms == "" && analysisResult == ""
      && analysisType == Summary && error == ""
    }

    /** The initial `useState` values. */
    constructor()
      ensures IsInitial()
    {
      appStatus := Idle;
      files := [];
      symptoms := "";
      analysisResult := "";
      analysisType := Summary;
      error := "";
    }

    /** `handleFileChange(selectedFiles)`: no selection empties the file list
        and leaves the error alone; a selection is kept as the mode allows and
        clears the error. */
    method HandleFileChange(selected: Option<seq<File>>)
      modifies this
      ensures selected.None? ==> files == [] && error == old(error)
      ensures selected.Some? ==> files == KeptFiles(analysisType, selected.value) && error == ""
      ensures appStatus == old(appStatus) && symptoms == old(symptoms)
      ensures analysisResult == old(analysisResult) && analysisType == old(analysisType)
    {
      if selected.None? {
        files := [];
        return;
      }
      files := KeptFiles(analysisType, selected.value);
      error := "";
    }

    /** `onSymptomsChange`, wired to `setSymptoms`. */
    method SetSymptoms(text: string)
      modifies this
      ensures symptoms == text
      ensures appStatus == old(appStatus) && files == old(files) && analysisResult == old(analysisResult)
      ensures analysisType == old(analysisType) && error == old(error)
    {
      symptoms := text;
    }

    /** `setAnalysisType`: the files already selected are kept as they are. */
    method SetAnalysisType(t: AnalysisType)
      modifies this
      ensures analysisType == t
      ensures appStatus == old(appStatus) && files == old(files) && symptoms == old(symptoms)
      ensures analysisResult == old(analysisResult) && error == old(error)
    {
      analysisType := t;
    }

    /** The synchronous start of `handleAnalyze`: with no file, the error line
        asks for one and nothing else changes; otherwise the loader is shown,
        the error cleared, and the call to make is returned. */
    method BeginAnalysis() returns (call: Option<ServiceCall>)
      modifies this
      ensures |old(files)| == 0 ==> call.None? && error == NoFileMessage && appStatus == old(appStatus)
      ensures |files| > 0 ==>
        call == Some(ChooseCall(analysisType, files, symptoms)) && appStatus == Analyzing && error == ""
      ensures files == old(files) && symptoms == old(symptoms)
      ensures analysisResult == old(analysisResult) && analysisType == old(analysisType)
    {
      if |files| == 0 {
        error := NoFileMessage;
        return None;
      }
      appStatus := Analyzing;
      error := "";
      call := Some(ChooseCall(analysisType, files, symptoms));
    }

    /** The end of `handleAnalyze`: a report is stored verbatim and shown;
        a failure puts its text on the error line and shows the error screen. */
    method SettleAnalysis(outcome: Settled<string>)
      modifies this
      ensures outcome.Fulfilled? ==>
        analysisResult == outcome.value && appStatus == Success && error == old(error)
      ensures outcome.Rejected? ==>
        error == ErrorText(outcome.reason) && appStatus == Error && analysisResult == old(analysisResult)
      ensures files == old(files) && symptoms == old(symptoms) && analysisType == old(analysisType)
    {
      match outcome {
        case Fulfilled(text) =>
          analysisResult := text;
          appStatus := Success;
        case Rejected(e) =>
          error := ErrorText(e);
          appStatus := Error;
      }
    }

    /** `handleAnalyze`, run to the end with the given encoder and model.
        Returns the call it made, if any. */
    method HandleAnalyze(encode: Encoder, generate: Generator) returns (call: Option<ServiceCall>)
      modifies this
      ensures |old(files)| == 0 ==>
        && call.None? && error == NoFileMessage && appStatus == old(appStatus)
        && analysisResult == old(analysisResult)
      ensures |old(files)| > 0 ==> call == Some(ChooseCall(old(analysisType), old(files), old(symptoms)))
      ensures call.Some? && CallOutcome(call.value, encode, generate).Fulfilled? ==>
        && analysisResult == CallOutcome(call.value, encode, generate).value
        && appStatus == Success && error == ""
      ensures call.Some? && CallOutcome(call.value, encode, generate).Rejected? ==>
        && error == ErrorText(CallOutcome(call.value, encode, generate).reason)
        && appStatus == Error && analysisResult == old(analysisResult)
      ensures files == old(files) && symptoms == old(symptoms) && analysisType == old(analysisType)
    {
      call := BeginAnalysis();
      if call.None? {
        return;
      }
      var outcome: Settled<string>;
      match call.value {
        case DocumentCall(file, text) =>
          var _, r := AnalyzeDocument(file, Some(text), encode, generate);
          outcome := r;
        case TrendCall(fs, text) =>
          var _, r := AnalyzeHealthTrend(fs, Some(text), encode, generate);
          outcome := r;
      }
      assert outcome == CallOutcome(call.value, encode, generate);
      SettleAnalysis(outcome);
    }

    /** `handleReset`: back to the initial state from any state. */
    method HandleReset()
      modifies this
      ensures IsInitial()
    {
      files := [];
      symptoms := "";
      analysisResult := "";
      analysisType := Summary;
      error := "";
      appStatus := Idle;
    }
  }
}
