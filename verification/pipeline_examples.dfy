/** A worked run of the button handler with fixed service answers. */
module PipelineExamples {
  import opened Wrappers
  import opened Strings
  import opened VideoId
  import opened VideoIdExamples
  import opened Transcript
  import opened Prompt
  import opened Export
  import opened Pipeline

  /** Services that always answer: one caption entry, a tagged translation, a fixed summary, a PDF that renders. */
  function EchoServices(): Services {
    Services(
      id => Some([CaptionEntry("namaste")]),
      (text, src, dst) => Some(dst + ":" + text),
      input => Some("summary"),
      summary => true)
  }

  /** A Hindi video summarised as a report in Tamil. */
  function HindiToTamil(): Request {
    Request("https://youtu.be/dQw4w9WgXcQ?feature=share", "Hindi", "Tamil", 300, "Report")
  }

  /** The lower-cased labels used below. */
  lemma LowerLabels()
    ensures Lower("Hindi") == "hindi"
    ensures Lower("Tamil") == "tamil"
  {
  }

  /** The download names for the report format. */
  lemma ReportFileNames()
    ensures TxtFileName("Report") == "summary_report.txt"
    ensures PdfFileName("Report") == "summary_report.pdf"
  {
    assert Lower("Report") == "report";
  }

  /** The captions service returns the single entry, assembled unchanged. */
  lemma EchoTranscript(id: string)
    ensures TranscriptText(EchoServices(), id) == Some("namaste")
  {
  }

  /** The translator tags the text with the target language. */
  lemma EchoTranslate(text: string, src: string, dst: string)
    ensures EchoServices().translate(text, src, dst) == Some(dst + ":" + text)
  {
  }

  /**
    All four services are called, in order: the transcript is translated from "hindi" to
    "en", the model sees the prompt and the translation, and its summary is translated
    from "en" to "tamil", which is what is offered for download.
   */
  lemma HindiToTamilRun()
    ensures GenerateSummary(HindiToTamil(), EchoServices()) ==
      Run([FetchTranscript("dQw4w9WgXcQ"),
           TranslateTranscript("namaste", "hindi", "en"),
           Generate(SummarizerInput(SummaryPrompt("Report", 300), "en:namaste")),
           TranslateSummary("summary", "en", "tamil")],
          Summarized("tamil:summary", "summary_report.txt", Some("summary_report.pdf")))
  {
    var req, svc := HindiToTamil(), EchoServices();
    ShareLinkExample();
    EchoTranscript("dQw4w9WgXcQ");
    LowerLabels();
    ReportFileNames();
    assert ExtractVideoId(req.link) == Some("dQw4w9WgXcQ");
    EchoTranslate("namaste", "hindi", EnglishCode);
    assert EnglishCode + ":" + "namaste" == "en:namaste";
    var reached, text, before := HandlerPath(req, svc);
    assert reached;
    assert text == "en:namaste";
    assert before == [FetchTranscript("dQw4w9WgXcQ"), TranslateTranscript("namaste", "hindi", "en")];
    assert svc.generate(SummarizerInput(SummaryPrompt("Report", 300), text)) == Some("summary");
    EchoTranslate("summary", EnglishCode, "tamil");
    assert "tamil" + ":" + "summary" == "tamil:summary";
    SummarizeStageOutcome(req, svc, SummaryPrompt(req.format, req.size), text, before);
    SummarizeStageAppends(req, svc, SummaryPrompt(req.format, req.size), text, before);
  }
}
