/**
  The "Generate Summary" button handler (app.py): resolve the video identifier,
  fetch and assemble the transcript, translate it to English unless the video
  language is English, ask the model for a summary, translate the summary unless
  the summary language is English, and offer it for download. Each step can fail,
  and a failure stops everything after it.

  The outside services are oracles: `Services` holds what each library call
  returns for given arguments, with None standing for the exception the wrapper
  catches. A run records every call made to a service, in order, and its outcome.
 */
module Pipeline {
  import opened Wrappers
  import opened Strings
  import opened VideoId
  import opened Transcript
  import opened Prompt
  import opened Export

  /** The language label for which no translation is made. */
  const English: string := "English"

  /** The language code the transcript is translated into and the summary translated from. */
  const EnglishCode: string := "en"

  /** The user's choices when the button is pressed. */
  datatype Request = Request(
    link: string,
    videoLanguage: string,
    summaryLanguage: string,
    size: nat,
    format: string)

  /** The outside services, as oracles. */
  datatype Services = Services(
    /** `YouTubeTranscriptApi.get_transcript(video_id)` */
    fetchTranscript: string -> Option<seq<CaptionEntry>>,
    /** `translator.translate(text, src, dest).text` */
    translate: (string, string, string) -> Option<string>,
    /** `GenerativeModel("gemini-pro").generate_content(input).text` */
    generate: string -> Option<string>,
    /** Whether `generate_pdf(summary)` returns; false when FPDF raises (for instance, the font file is missing) */
    pdfRenders: string -> bool)

  /** One call to an outside service, with its arguments. */
  datatype Call =
    | FetchTranscript(videoId: string)
    | TranslateTranscript(text: string, src: string, dst: string)
    | Generate(input: string)
    | TranslateSummary(summary: string, src: string, dst: string)

  /** Why a run stopped; each is reported to the user with ErrorMessage. */
  datatype Failure =
    | InvalidUrl
    | TranscriptFailed
    | TranscriptTranslationFailed
    | SummaryFailed
    | SummaryTranslationFailed

  /**
    The end of a run: the summary with its download names, or the failure. The PDF name
    is None when rendering the PDF raised: the script then stops after the text download
    has been offered.
   */
  datatype Outcome =
    | Summarized(summary: string, txtName: string, pdfName: Option<string>)
    | Failed(failure: Failure)

  /** The calls a run made, in order, and how it ended. */
  datatype Run = Run(calls: seq<Call>, outcome: Outcome)

  /** The message shown for each failure. */
  function ErrorMessage(f: Failure): string {
    match f
    case InvalidUrl => "Invalid YouTube URL. Please enter a valid link."
    case TranscriptFailed => "Failed to extract transcript. Ensure the video supports captions."
    case TranscriptTranslationFailed => "Failed to translate transcript."
    case SummaryFailed => "Failed to generate summary. Please try again."
    case SummaryTranslationFailed => "Failed to translate summary."
  }

  /** Each failure is reported with its own message, so the user can tell which step failed. */
  lemma ErrorMessagesDistinct(f1: Failure, f2: Failure)
    ensures f1 != f2 ==> ErrorMessage(f1) != ErrorMessage(f2)
    ensures ErrorMessage(f1) != ""
  {
    ErrorMessageLength(f1);
    ErrorMessageLength(f2);
    assert f1 != f2 ==> |ErrorMessage(f1)| != |ErrorMessage(f2)|;
  }

  /** The messages have five different lengths. */
  lemma ErrorMessageLength(f: Failure)
    ensures |ErrorMessage(f)| ==
      match f
      case InvalidUrl => 47
      case TranscriptFailed => 65
      case TranscriptTranslationFailed => 31
      case SummaryFailed => 45
      case SummaryTranslationFailed => 28
  {
  }

  /** Python truthiness of a string result: neither None nor empty. */
  predicate Truthy(o: Option<string>)
    ensures Truthy(o) <==> o != None && o != Some("")
  {
    o.Some? && o.value != ""
  }

  /** Position of each kind of call in the handler. */
  function Rank(c: Call): nat {
    match c
    case FetchTranscript(_) => 0
    case TranslateTranscript(_, _, _) => 1
    case Generate(_) => 2
    case TranslateSummary(_, _, _) => 3
  }

  /** The call whose failure causes f (InvalidUrl is decided before any call). */
  function FailingRank(f: Failure): nat
    requires f != InvalidUrl
  {
    match f
    case TranscriptFailed => 0
    case TranscriptTranslationFailed => 1
    case SummaryFailed => 2
    case SummaryTranslationFailed => 3
  }

  /** Calls happen in handler order, each kind at most once. */
  predicate InHandlerOrder(calls: seq<Call>) {
    forall i, j :: 0 <= i < j < |calls| ==> Rank(calls[i]) < Rank(calls[j])
  }

  /**
    The transcript text: the entries joined, or None when fetching raised. A video whose
    caption list is empty yields the empty transcript, which the handler treats as a failure.
   */
  function TranscriptText(svc: Services, id: string): (r: Option<string>)
    ensures r.None? <==> svc.fetchTranscript(id).None?
    ensures svc.fetchTranscript(id) == Some([]) ==> r == Some("")
    ensures svc.fetchTranscript(id).Some? && |svc.fetchTranscript(id).value| == 1 ==>
      r == Some(svc.fetchTranscript(id).value[0].text)
  {
    match svc.fetchTranscript(id)
    case Some(entries) => Some(AssembleTranscript(entries))
    case None => None
  }

  /** The summary on the page with its downloads: the text file always, the PDF when it renders. */
  function Offer(req: Request, svc: Services, summary: string): Outcome {
    var pdf := if svc.pdfRenders(summary) then Some(PdfFileName(req.format)) else None;
    Summarized(summary, TxtFileName(req.format), pdf)
  }

  /** Summarisation and everything after it, given the prompt, the (English) transcript text and the calls so far. */
  function SummarizeStage(req: Request, svc: Services, prompt: string, text: string, before: seq<Call>): (r: Run)
    ensures |before| < |r.calls| <= |before| + 2
    ensures r.calls[..|before|] == before
    ensures r.calls[|before|] == Generate(SummarizerInput(prompt, text))
    ensures r.outcome.Failed? ==> r.outcome.failure == SummaryFailed || r.outcome.failure == SummaryTranslationFailed
    ensures r.outcome.Summarized? ==> r.outcome.summary != "" && r.outcome.txtName == TxtFileName(req.format)
  {
    var input := SummarizerInput(prompt, text);
    var calls := before + [Generate(input)];
    var summary := svc.generate(input);
    if !Truthy(summary) then Run(calls, Failed(SummaryFailed))
    else if req.summaryLanguage == English then
      Run(calls, Offer(req, svc, summary.value))
    else
      var dst := Lower(req.summaryLanguage);
      var translated := svc.translate(summary.value, EnglishCode, dst);
      var calls' := calls + [TranslateSummary(summary.value, EnglishCode, dst)];
      if !Truthy(translated) then Run(calls', Failed(SummaryTranslationFailed))
      else Run(calls', Offer(req, svc, translated.value))
  }

  /** The button handler. The size widget keeps the size between MinSize and MaxSize. */
  function GenerateSummary(req: Request, svc: Services): (r: Run)
    requires MinSize <= req.size <= MaxSize
    ensures r.outcome == Failed(InvalidUrl) <==> r.calls == []
    ensures r.calls != [] ==> r.calls[0] == FetchTranscript(ExtractVideoId(req.link).GetOr(""))
    ensures r.outcome.Summarized? ==> r.outcome.summary != "" && r.outcome.txtName == TxtFileName(req.format)
  {
    var prompt := SummaryPrompt(req.format, req.size);
    match ExtractVideoId(req.link)
    case None => Run([], Failed(InvalidUrl))
    case Some(id) =>
      var fetched := [FetchTranscript(id)];
      var transcript := TranscriptText(svc, id);
      if !Truthy(transcript) then Run(fetched, Failed(TranscriptFailed))
      else if req.videoLanguage == English then
        SummarizeStage(req, svc, prompt, transcript.value, fetched)
      else
        var src := Lower(req.videoLanguage);
        var translated := svc.translate(transcript.value, src, EnglishCode);
        var calls := fetched + [TranslateTranscript(transcript.value, src, EnglishCode)];
        if !Truthy(translated) then Run(calls, Failed(TranscriptTranslationFailed))
        else SummarizeStage(req, svc, prompt, translated.value, calls)
  }

  // ---------------------------------------------------------------------------
  // Properties of the handler.

  /** The first call of rank k, if any was made. */
  function FindCall(calls: seq<Call>, k: nat): (r: Option<Call>)
    ensures r.Some? ==> Rank(r.value) == k && r.value in calls
    ensures r.None? ==> forall i :: 0 <= i < |calls| ==> Rank(calls[i]) != k
  {
    if |calls| == 0 then None
    else if Rank(calls[0]) == k then Some(calls[0])
    else FindCall(calls[1..], k)
  }

  /** Looking for a call in two stretches of calls looks in the first stretch first. */
  lemma {:induction false} FindCallAppend(a: seq<Call>, b: seq<Call>, k: nat)
    ensures FindCall(a + b, k) == if FindCall(a, k).Some? then FindCall(a, k) else FindCall(b, k)
    decreases |a|
  {
    if |a| > 0 {
      assert (a + b)[0] == a[0];
      assert (a + b)[1..] == a[1..] + b;
      FindCallAppend(a[1..], b, k);
    } else {
      assert a + b == b;
    }
  }

  /** The last call of a non-empty run. */
  function LastCall(calls: seq<Call>): Call
    requires |calls| > 0
  {
    calls[|calls| - 1]
  }

  /** Summarisation appends its calls after calls of lower rank, keeping handler order. */
  lemma SummarizeStageOrder(req: Request, svc: Services, prompt: string, text: string, before: seq<Call>)
    requires InHandlerOrder(before)
    requires forall i :: 0 <= i < |before| ==> Rank(before[i]) < 2
    ensures InHandlerOrder(SummarizeStage(req, svc, prompt, text, before).calls)
    ensures |SummarizeStage(req, svc, prompt, text, before).calls| <= |before| + 2
  {
  }

  /** The calls summarisation adds after the earlier ones. */
  function SummarizeStageCalls(req: Request, svc: Services, prompt: string, text: string): seq<Call> {
    var input := SummarizerInput(prompt, text);
    var summary := svc.generate(input);
    if Truthy(summary) && req.summaryLanguage != English
    then [Generate(input), TranslateSummary(summary.value, EnglishCode, Lower(req.summaryLanguage))]
    else [Generate(input)]
  }

  /** Summarisation only appends calls. */
  lemma SummarizeStageAppends(req: Request, svc: Services, prompt: string, text: string, before: seq<Call>)
    ensures SummarizeStage(req, svc, prompt, text, before).calls == before + SummarizeStageCalls(req, svc, prompt, text)
  {
  }

  /**
    What summarisation does after the earlier calls: one call to the model with the prompt
    and the text; one translation of a non-empty summary from English when the summary
    language is not English.
   */
  lemma SummarizeStageFacts(req: Request, svc: Services, prompt: string, text: string, before: seq<Call>)
    requires forall i :: 0 <= i < |before| ==> Rank(before[i]) < 2
    ensures var r := SummarizeStage(req, svc, prompt, text, before);
      var input := SummarizerInput(prompt, text);
      var summary := svc.generate(input);
      && |r.calls| > |before|
      && FindCall(r.calls, 0) == FindCall(before, 0)
      && FindCall(r.calls, 1) == FindCall(before, 1)
      && FindCall(r.calls, 2) == Some(Generate(input))
      && FindCall(r.calls, 3) ==
           (if Truthy(summary) && req.summaryLanguage != English
            then Some(TranslateSummary(summary.value, EnglishCode, Lower(req.summaryLanguage))) else None)
      && Rank(LastCall(r.calls)) == (if FindCall(r.calls, 3).Some? then 3 else 2)
  {
    var tail := SummarizeStageCalls(req, svc, prompt, text);
    SummarizeStageAppends(req, svc, prompt, text, before);
    SummarizeStageCallsFacts(req, svc, prompt, text);
    FindAfterLowRanks(before, tail, 0);
    FindAfterLowRanks(before, tail, 1);
    FindAfterLowRanks(before, tail, 2);
    FindAfterLowRanks(before, tail, 3);
    assert LastCall(before + tail) == LastCall(tail);
  }

  /** The calls summarisation adds: the model call, then possibly the summary translation. */
  lemma SummarizeStageCallsFacts(req: Request, svc: Services, prompt: string, text: string)
    ensures var tail := SummarizeStageCalls(req, svc, prompt, text);
      var input := SummarizerInput(prompt, text);
      var summary := svc.generate(input);
      && |tail| > 0
      && FindCall(tail, 0).None?
      && FindCall(tail, 1).None?
      && FindCall(tail, 2) == Some(Generate(input))
      && FindCall(tail, 3) ==
           (if Truthy(summary) && req.summaryLanguage != English
            then Some(TranslateSummary(summary.value, EnglishCode, Lower(req.summaryLanguage))) else None)
      && Rank(LastCall(tail)) == (if FindCall(tail, 3).Some? then 3 else 2)
  {
  }

  /** After calls of rank 0 and 1 only, a call of rank 2 or 3 is found in the later calls, and one the later calls lack in the earlier. */
  lemma FindAfterLowRanks(before: seq<Call>, tail: seq<Call>, k: nat)
    requires forall i :: 0 <= i < |before| ==> Rank(before[i]) < 2
    ensures k >= 2 ==> FindCall(before + tail, k) == FindCall(tail, k)
    ensures FindCall(tail, k).None? ==> FindCall(before + tail, k) == FindCall(before, k)
  {
    FindCallAppend(before, tail, k);
  }

  /** How summarisation ends: the first failure, or the last summary with the two download names. */
  lemma SummarizeStageOutcome(req: Request, svc: Services, prompt: string, text: string, before: seq<Call>)
    ensures var input := SummarizerInput(prompt, text);
      var summary := svc.generate(input);
      var translated := svc.translate(summary.GetOr(""), EnglishCode, Lower(req.summaryLanguage));
      SummarizeStage(req, svc, prompt, text, before).outcome ==
        (if !Truthy(summary) then Failed(SummaryFailed)
         else if req.summaryLanguage == English then Offer(req, svc, summary.value)
         else if !Truthy(translated) then Failed(SummaryTranslationFailed)
         else Offer(req, svc, translated.value))
  {
  }

  /** The translation the handler asks for when the video is not in English. */
  function TranscriptTranslationCall(req: Request, transcript: string): Call {
    TranslateTranscript(transcript, Lower(req.videoLanguage), EnglishCode)
  }

  /**
    The handler either stops before the model is called, or hands summarisation the
    English text and the calls made so far.
   */
  lemma HandlerPath(req: Request, svc: Services) returns (reached: bool, text: string, before: seq<Call>)
    requires MinSize <= req.size <= MaxSize
    ensures var id := ExtractVideoId(req.link);
      var transcript := if id.Some? then TranscriptText(svc, id.value) else None;
      var translated := svc.translate(transcript.GetOr(""), Lower(req.videoLanguage), EnglishCode);
      && (reached <==> id.Some? && Truthy(transcript) && (req.videoLanguage == English || Truthy(translated)))
      && (reached ==> GenerateSummary(req, svc) == SummarizeStage(req, svc, SummaryPrompt(req.format, req.size), text, before))
      && (reached ==> text == if req.videoLanguage == English then transcript.value else translated.value)
      && (reached ==>
            before == [FetchTranscript(id.value)] +
              (if req.videoLanguage == English then [] else [TranscriptTranslationCall(req, transcript.value)]))
      && (!reached ==>
            GenerateSummary(req, svc) ==
              (if id.None? then Run([], Failed(InvalidUrl))
               else if !Truthy(transcript) then Run([FetchTranscript(id.value)], Failed(TranscriptFailed))
               else Run([FetchTranscript(id.value), TranscriptTranslationCall(req, transcript.value)], Failed(TranscriptTranslationFailed))))
  {
    reached, text, before := false, "", [];
    match ExtractVideoId(req.link)
    case None =>
    case Some(id) =>
      var transcript := TranscriptText(svc, id);
      if Truthy(transcript) {
        if req.videoLanguage == English {
          reached, text, before := true, transcript.value, [FetchTranscript(id)];
          assert before + [] == before;
        } else {
          var translated := svc.translate(transcript.value, Lower(req.videoLanguage), EnglishCode);
          before := [FetchTranscript(id)] + [TranscriptTranslationCall(req, transcript.value)];
          if Truthy(translated) {
            reached, text := true, translated.value;
          }
        }
      }
  }

  /** The services are called in handler order, each at most once. */
  lemma HandlerOrder(req: Request, svc: Services)
    requires MinSize <= req.size <= MaxSize
    ensures InHandlerOrder(GenerateSummary(req, svc).calls)
    ensures |GenerateSummary(req, svc).calls| <= 4
  {
    var reached, text, before := HandlerPath(req, svc);
    if reached {
      assert forall i :: 0 <= i < |before| ==> Rank(before[i]) == i;
      RanksInOrder(before);
      SummarizeStageOrder(req, svc, SummaryPrompt(req.format, req.size), text, before);
    } else {
      var calls := GenerateSummary(req, svc).calls;
      assert forall i :: 0 <= i < |calls| ==> Rank(calls[i]) == i;
      RanksInOrder(calls);
    }
  }

  /** At most two calls, the i-th of rank i, are in handler order and all before the model call. */
  lemma RanksInOrder(calls: seq<Call>)
    requires |calls| <= 2
    requires forall i :: 0 <= i < |calls| ==> Rank(calls[i]) == i
    ensures InHandlerOrder(calls)
    ensures forall i :: 0 <= i < |calls| ==> Rank(calls[i]) < 2
  {
  }

  /** The invalid-URL error is reported exactly when no identifier is found, and then nothing is called. */
  lemma InvalidUrlReported(req: Request, svc: Services)
    requires MinSize <= req.size <= MaxSize
    ensures GenerateSummary(req, svc).outcome == Failed(InvalidUrl) <==> ExtractVideoId(req.link).None?
    ensures ExtractVideoId(req.link).None? ==> GenerateSummary(req, svc).calls == []
    ensures ExtractVideoId(req.link).Some? ==>
      FindCall(GenerateSummary(req, svc).calls, 0) == Some(FetchTranscript(ExtractVideoId(req.link).value))
  {
    var reached, text, before := HandlerPath(req, svc);
    if reached {
      SummarizeStageFacts(req, svc, SummaryPrompt(req.format, req.size), text, before);
      SummarizeStageOutcome(req, svc, SummaryPrompt(req.format, req.size), text, before);
    }
  }

  /**
    A run that failed after an identifier was found ended at the call that failed:
    that call is the last one made, and no call of a later stage was made.
   */
  predicate StopsAtFailure(r: Run) {
    r.outcome.Failed? && r.outcome.failure != InvalidUrl ==>
      && |r.calls| > 0
      && Rank(LastCall(r.calls)) == FailingRank(r.outcome.failure)
      && forall k: nat :: FailingRank(r.outcome.failure) < k <= 3 ==> FindCall(r.calls, k).None?
  }

  /** A failure in summarisation is the last call made, and nothing of higher rank follows. */
  lemma SummarizeStageStops(req: Request, svc: Services, prompt: string, text: string, before: seq<Call>)
    requires forall i :: 0 <= i < |before| ==> Rank(before[i]) < 2
    ensures StopsAtFailure(SummarizeStage(req, svc, prompt, text, before))
  {
    SummarizeStageFacts(req, svc, prompt, text, before);
    SummarizeStageOutcome(req, svc, prompt, text, before);
  }

  /** A failure before summarisation is the last call made, and nothing of higher rank follows. */
  lemma EarlyFailureStops(id: string, translation: Call, r: Run)
    requires Rank(translation) == 1
    requires r == Run([FetchTranscript(id)], Failed(TranscriptFailed))
          || r == Run([FetchTranscript(id), translation], Failed(TranscriptTranslationFailed))
    ensures StopsAtFailure(r)
  {
  }

  /** A failure stops the run: the last call made is the one that failed, and no later stage is reached. */
  lemma FailureStopsRun(req: Request, svc: Services)
    requires MinSize <= req.size <= MaxSize
    ensures StopsAtFailure(GenerateSummary(req, svc))
  {
    var reached, text, before := HandlerPath(req, svc);
    var id := ExtractVideoId(req.link);
    if reached {
      SummarizeStageStops(req, svc, SummaryPrompt(req.format, req.size), text, before);
    } else if id.Some? {
      var transcript := TranscriptText(svc, id.value);
      EarlyFailureStops(id.value, TranscriptTranslationCall(req, transcript.GetOr("")), GenerateSummary(req, svc));
    }
  }

  /** The transcript error is reported exactly when an identifier was found but the transcript is missing or empty. */
  lemma TranscriptFailedIff(req: Request, svc: Services)
    requires MinSize <= req.size <= MaxSize
    ensures var id := ExtractVideoId(req.link);
      GenerateSummary(req, svc).outcome == Failed(TranscriptFailed) <==> id.Some? && !Truthy(TranscriptText(svc, id.value))
  {
    var reached, text, before := HandlerPath(req, svc);
    if reached {
      SummarizeStageOutcome(req, svc, SummaryPrompt(req.format, req.size), text, before);
    }
  }

  /**
    The transcript is translated, from the lower-cased video language into English,
    exactly when an identifier and a non-empty transcript were obtained and the video
    language is not English; it is translated at most once and before the model is called.
   */
  lemma TranscriptTranslatedIff(req: Request, svc: Services)
    requires MinSize <= req.size <= MaxSize
    ensures var id := ExtractVideoId(req.link);
      var calls := GenerateSummary(req, svc).calls;
      && (FindCall(calls, 1).Some? <==> id.Some? && Truthy(TranscriptText(svc, id.value)) && req.videoLanguage != English)
      && (FindCall(calls, 1).Some? ==>
            FindCall(calls, 1).value == TranslateTranscript(TranscriptText(svc, id.value).value, Lower(req.videoLanguage), EnglishCode))
      && InHandlerOrder(calls)
  {
    var reached, text, before := HandlerPath(req, svc);
    HandlerOrder(req, svc);
    if reached {
      SummarizeStageFacts(req, svc, SummaryPrompt(req.format, req.size), text, before);
    }
  }

  /**
    The model is called exactly when the earlier stages succeeded, with the summary prompt
    followed by the English text: the transcript itself for an English video, otherwise its
    translation.
   */
  lemma SummarizerCalledWith(req: Request, svc: Services)
    requires MinSize <= req.size <= MaxSize
    ensures var id := ExtractVideoId(req.link);
      var transcript := if id.Some? then TranscriptText(svc, id.value) else None;
      var translated := svc.translate(transcript.GetOr(""), Lower(req.videoLanguage), EnglishCode);
      var prompt := SummaryPrompt(req.format, req.size);
      var calls := GenerateSummary(req, svc).calls;
      && (FindCall(calls, 2).Some? <==>
            id.Some? && Truthy(transcript) && (req.videoLanguage == English || Truthy(translated)))
      && (FindCall(calls, 2).Some? && req.videoLanguage == English ==>
            FindCall(calls, 2).value == Generate(SummarizerInput(prompt, transcript.value)))
      && (FindCall(calls, 2).Some? && req.videoLanguage != English ==>
            FindCall(calls, 2).value == Generate(SummarizerInput(prompt, translated.value)))
  {
    var reached, text, before := HandlerPath(req, svc);
    if reached {
      SummarizeStageFacts(req, svc, SummaryPrompt(req.format, req.size), text, before);
    }
  }

  /**
    The summary is translated, from English into the lower-cased summary language, exactly
    when the model returned a non-empty summary and the summary language is not English.
   */
  lemma SummaryTranslatedIff(req: Request, svc: Services)
    requires MinSize <= req.size <= MaxSize
    ensures var calls := GenerateSummary(req, svc).calls;
      var generated := if FindCall(calls, 2).Some? then svc.generate(FindCall(calls, 2).value.input) else None;
      && (FindCall(calls, 3).Some? <==> Truthy(generated) && req.summaryLanguage != English)
      && (FindCall(calls, 3).Some? ==>
            FindCall(calls, 3).value == TranslateSummary(generated.value, EnglishCode, Lower(req.summaryLanguage)))
  {
    var reached, text, before := HandlerPath(req, svc);
    if reached {
      SummarizeStageFacts(req, svc, SummaryPrompt(req.format, req.size), text, before);
    }
  }

  /**
    A run ends with a summary exactly when every stage succeeded; the summary is then
    non-empty, is the model's answer for an English summary and its translation otherwise,
    and the downloads are named after the format; the PDF download is offered exactly when
    the PDF of the summary renders.
   */
  lemma SummarizedOutcome(req: Request, svc: Services)
    requires MinSize <= req.size <= MaxSize
    ensures var r := GenerateSummary(req, svc);
      var generated := if FindCall(r.calls, 2).Some? then svc.generate(FindCall(r.calls, 2).value.input) else None;
      var translated := svc.translate(generated.GetOr(""), EnglishCode, Lower(req.summaryLanguage));
      && (r.outcome.Summarized? <==>
            Truthy(generated) && (req.summaryLanguage == English || Truthy(translated)))
      && (r.outcome.Summarized? ==>
            && r.outcome.summary != ""
            && r.outcome.summary == (if req.summaryLanguage == English then generated.value else translated.value)
            && r.outcome.txtName == TxtFileName(req.format)
            && (r.outcome.pdfName.Some? <==> svc.pdfRenders(r.outcome.summary))
            && (r.outcome.pdfName.Some? ==> r.outcome.pdfName.value == PdfFileName(req.format)))
  {
    var reached, text, before := HandlerPath(req, svc);
    if reached {
      SummarizeStageFacts(req, svc, SummaryPrompt(req.format, req.size), text, before);
      SummarizeStageOutcome(req, svc, SummaryPrompt(req.format, req.size), text, before);
    }
  }
}
