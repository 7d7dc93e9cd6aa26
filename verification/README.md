# YouTube summariser: a Dafny model of the button handler

The program is a single Streamlit page (`app.py`). The user pastes a YouTube link and picks four things: the video's language, the summary's language, a length in words and a summary format. Pressing "Generate Summary" then runs these steps:

1. extract the 11-character video identifier from the link with one regular expression;
2. fetch the caption entries and join their texts with single spaces;
3. translate that transcript into English unless the video language is "English";
4. send the fixed prompt, followed by the transcript, to the generative model;
5. translate the summary from English unless the summary language is "English";
6. offer the summary as `summary_<format>.txt` and `summary_<format>.pdf`.

Each step can fail. A failure shows an error and stops everything after it.

This project models that pipeline in Dafny:

- `VideoId` models `re.search` with the identifier pattern. Start positions are tried left to right, and at each position the branches are tried in written order, with backtracking. The module proves the result is the identifier that follows the leftmost match.
- `Transcript` models the join and the matching `split(" ")`.
- `Prompt` models the prompt text: the template filled with the format, then ` in <size> words:`, then the transcript.
- `Export` models the download names.
- `Pipeline` models the handler as a pure function. The captions service, the translator and the model are oracles: functions from the call's arguments to `Some(result)`, or to `None` for the exception the source's wrapper catches. A run records every service call with its arguments, in order, plus the outcome: a summary with its two file names, or the failure.
- `VideoIdExamples` and `PipelineExamples` work through a share link and a whole Hindi-to-Tamil run.

Python truthiness is modelled as `Truthy`. The handler tests transcripts and summaries with `if x` / `if not x`, so both `None` and the empty string count as failure.

`app.py` has no audio-download fallback: a failed captions fetch reports the transcript error and stops.

## Model

| member | source | states |
|---|---|---|
| VideoId.ExtractVideoId | app.py:29-40 | A returned identifier is always 11 characters from `[A-Za-z0-9_-]`. A value is returned exactly when the search finds a match. |
| VideoId.BranchEnd | app.py:31 | One alternative of the group: a literal prefix matches exactly when the link continues with it at that position, and the `^` branch matches only at position 0, consuming nothing. |
| VideoId.TryBranches | app.py:31 | Trying the alternatives in order, with backtracking, gives the end of an alternative that is followed by eleven identifier characters, or none when no alternative is. |
| VideoId.SearchFrom | app.py:32 | Scanning forward gives the first start position at which some alternative is followed by an identifier. No earlier position from the scan's start has one, and a failed scan means no position has one. |
| VideoId.Search | app.py:32 | `re.search` over the whole link is the forward scan from position 0. A result has eleven identifier characters at its group, and no result means the alternatives fail at every position. |
| VideoId.SearchIsLeftmostMatch | app.py:31-32 | The search result is a match of the pattern, no match starts earlier, and no result means the link contains no match anywhere. |
| VideoId.MatchAtUnique | app.py:31 | At most one alternative can match at a given position, so the order of the alternatives never changes the result. |
| VideoId.PrefixesEndOutsideClass | app.py:31 | Every literal prefix is 2 to 10 characters long and ends in a character outside the identifier class. |
| VideoId.PrefixesDisagreeEarly | app.py:31 | Two different literal prefixes differ in their first or second character. |
| VideoId.PrefixesBegin | app.py:31 | Every literal prefix starts with one of the character pairs `BeginsPrefix` lists. |
| VideoId.AnchorExcludesPrefix | app.py:31 | When a link begins with eleven identifier characters, no literal prefix matches at position 0. |
| VideoId.MatchAtBounds | app.py:31 | A match ends its group inside the link, at or after where the match starts. |
| VideoId.BranchIffMatch | app.py:31 | Some alternative ends at q and is followed by an identifier exactly when the pattern matches from p with its group at q. |
| VideoId.TryBranchesIffMatch | app.py:31-32 | Trying the alternatives at a position fails exactly when the pattern has no match there, and otherwise yields a match. |
| VideoId.ExtractVideoIdSound | app.py:31-34 | A returned identifier is eleven identifier characters taken from the link, immediately after a literal prefix or at the start of the link. |
| VideoId.ExtractVideoIdLeftmost | app.py:31-34 | Given a match with no match earlier, the returned identifier is the eleven characters of that match's group. |
| VideoId.SearchLeftmost | app.py:32 | Given a match with no match earlier, the search reports exactly that match. |
| VideoId.SearchFromFinds | app.py:32 | A scan that reaches a matching position with no matching position before it stops there. |
| VideoId.NoBranchBefore | app.py:32 | Helper: no match before p means every alternative fails at each earlier position. |
| VideoId.ExtractVideoIdNone | app.py:33-37 | No identifier is returned exactly when the pattern matches nowhere in the link. |
| VideoId.ExtractVideoIdBare | app.py:31 | A link that begins with eleven identifier characters yields those characters (the `^` branch). |
| VideoId.NoMatchAtPair | app.py:31 | Two characters that start no literal prefix, at a position other than a bare identifier at the start, allow no match there. |
| VideoId.ExtractVideoIdAfterPrefix | app.py:31-34 | A link that begins with a literal prefix followed by an identifier yields that identifier, whatever follows it. |
| VideoId.ExtractVideoIdNoRun | app.py:31-37 | A link with no run of eleven identifier characters yields no identifier. |
| VideoId.ExtractVideoIdShort | app.py:31-37 | A link shorter than eleven characters yields no identifier. |
| VideoIdExamples.ShareLinkMatch | app.py:31 | In the share link, the `youtu.be/` alternative matches at index 8 and the group is `dQw4w9WgXcQ`. |
| VideoIdExamples.ShareLinkNoEarlierMatch | app.py:31 | Nothing in `https://` starts a match. |
| VideoIdExamples.ShareLinkExample | app.py:29-34 | `https://youtu.be/dQw4w9WgXcQ?feature=share` yields `dQw4w9WgXcQ`. |
| Strings.LowerChar | app.py:149 | `str.lower` on one character: upper-case ASCII letters move to lower case, every other character is kept, and the result is never upper case. |
| Strings.Lower | app.py:149 | Lower-casing keeps the length and lower-cases each character in place. |
| Strings.LowerIdempotent | app.py:159 | A lower-cased string has no upper-case letter, and lower-casing it again changes nothing. |
| Strings.DigitChar | app.py:131 | The character for digit d is a decimal digit whose value is d. |
| Strings.NatToString | app.py:131 | The decimal rendering in the f-string is non-empty, all digits, and has no leading zero except for 0 itself. |
| Strings.DecimalRoundTrip | app.py:131 | Reading the rendering of n back as a decimal gives n. |
| Strings.NatToStringInjective | app.py:131 | Different sizes render differently. |
| Prompt.FillBasePrompt | app.py:131 | `base_prompt.format(summary_format=...)`: the text before the field, the format label, then the text after the field. FillBasePromptReplacesField relates it to the template. |
| Prompt.FillBasePromptReplacesField | app.py:22-26 | The template holds `{summary_format}` right after its head. Filling it gives the template with exactly that field replaced by the format label, the rest unchanged. |
| Prompt.SizeClause | app.py:131 | The f-string suffix ` in {summary_size} words:`, with the size in decimal (see Strings.NatToString). |
| Prompt.SummaryPrompt | app.py:131 | `summary_prompt`: the filled template followed by the size clause. SummarizerInputLayout and SummarizerInputInjective state its layout. |
| Prompt.SummarizerInput | app.py:65 | `prompt + transcript_text`: the prompt with the transcript appended and no separator. |
| Transcript.Texts | app.py:46 | The list comprehension keeps every entry's `text`, in order. |
| Transcript.JoinWithSpaces | app.py:46 | `" ".join`: no parts give the empty string, one part is returned unchanged, and the length is the parts' total length plus one space between each pair. |
| Transcript.SplitOnSpaces | app.py:46 | Reference inverse of the join at line 46 (the source never splits): Python's `split(" ")`, which always yields at least one piece. |
| Transcript.AssembleTranscript | app.py:43-47 | No entries give the empty transcript, and a single entry gives its text unchanged. |
| Transcript.JoinAppend | app.py:46 | Joining two non-empty lists one after the other puts exactly one space at the seam. |
| Transcript.JoinSplit | app.py:46 | Joining the pieces of `split(" ")` gives back the original text. |
| Transcript.SplitSpaceFree | app.py:46 | A text without spaces splits into itself alone. |
| Transcript.SplitAtFirstSpace | app.py:46 | Splitting a space-free text, a space and the rest gives the text followed by the pieces of the rest. |
| Transcript.SplitJoin | app.py:46 | Splitting the join of space-free parts gives the parts back. |
| Transcript.AssembleTranscriptRecoversTexts | app.py:45-46 | When no entry text contains a space, the transcript splits back into exactly the entries' texts, so the join loses nothing. |
| Transcript.AssembleTranscriptAppend | app.py:46 | The transcript of two batches of entries is the two transcripts with one space between them. |
| Prompt.SummarizerInputLayout | app.py:131 | The model's input is, in order: the template text before `{summary_format}`, the format, the text after the field, ` in <size> words:` (line 131), and then the transcript, which line 65 appends. |
| Prompt.FormatOptionsDotFree | app.py:124-128 | None of the offered formats contains a full stop. |
| Prompt.SplitAtSeparator | app.py:131 | Helper for reading line 131's layout back: two texts that agree after a separator character, neither containing it before, split at the same place. |
| Prompt.ReadLayout | app.py:131 | A string of the input's shape determines its format, its digits and its transcript. |
| Prompt.SummarizerInputInjective | app.py:131 | For formats without a full stop, different choices of format, size or transcript always give different model inputs. |
| Export.ExportFileName | app.py:177-186 | A download name is `summary_`, then the lower-cased format, then the extension. |
| Export.TxtAndPdfDiffer | app.py:177-186 | The two downloads never share a name, and they differ only in the extension. |
| Export.LowerFormatOptions | app.py:126 | The lower-cased labels of the six offered formats. |
| Export.FileNamesDistinguishFormats | app.py:177-186 | Different offered formats give different download names. |
| Pipeline.ErrorMessage | app.py:150-194 | The five messages the handler shows, verbatim: lines 151, 161, 190, 192 and 194. ErrorMessagesDistinct proves them pairwise different. |
| Pipeline.Truthy | app.py:146-160 | Python's `if x` on a string result: true exactly when it is neither None nor the empty string. |
| Pipeline.TranscriptText | app.py:43-50 | `extract_transcript_details`: None exactly when fetching raised. An empty caption list gives the empty transcript, and a single entry gives its text. |
| Pipeline.Offer | app.py:164-188 | The summary shown with its downloads: the text file always, and the PDF only when `generate_pdf` returns. |
| Pipeline.SummarizeStage | app.py:155-190 | Summarisation keeps the earlier calls and adds one or two. The first added call is the model call on the prompt followed by the text. A failure is a summary failure or a summary-translation failure. A summary offered is non-empty and has the text-file name. |
| Pipeline.GenerateSummary | app.py:143-194 | The handler. It fails with the invalid-URL error exactly when it makes no call. Its first call fetches the captions of the extracted identifier. A summary it offers is non-empty and has the text-file name. The lemmas below state the rest. |
| Pipeline.ErrorMessagesDistinct | app.py:150-194 | The five errors the handler can show are non-empty and pairwise different, so each failure is reported with its own message. |
| Pipeline.FindCall | app.py:143-194 | Helper for stating which stages ran: the first call of a given stage is a call of that stage made in the run, and when there is none, no call of that stage was made. |
| Pipeline.FindCallAppend | app.py:143-194 | Helper: looking for a stage's call in two stretches of calls finds the one in the first stretch if there is one there. |
| Pipeline.FindAfterLowRanks | app.py:143-194 | Helper: after calls of the first two stages only, the calls of later stages are found in what follows. |
| Pipeline.SummarizeStageOrder | app.py:155-162 | Summarisation keeps the calls in handler order and adds at most two. |
| Pipeline.SummarizeStageFacts | app.py:155-162 | After the earlier calls, summarisation makes the model call and possibly the summary translation, and the earlier calls are still what is found for the first two stages. |
| Pipeline.SummarizeStageStops | app.py:155-190 | A failure during summarisation is the last call made. |
| Pipeline.EarlyFailureStops | app.py:145-152 | A failure while fetching or translating the transcript is the last call made. |
| Pipeline.HandlerOrder | app.py:143-194 | The services are called in handler order, each at most once, with at most four calls in all. |
| Pipeline.InvalidUrlReported | app.py:144-194 | The invalid-URL error is reported exactly when no identifier is found, and then no service is called. Otherwise the first call fetches that identifier's captions. |
| Pipeline.FailureStopsRun | app.py:146-192 | Every failure after the identifier is found stops the run: the call that failed is the last one made, and no later stage is called. |
| Pipeline.TranscriptFailedIff | app.py:145-192 | The transcript error is reported exactly when an identifier was found but the transcript is missing or empty. |
| Pipeline.TranscriptTranslatedIff | app.py:146-152 | The transcript is translated exactly when there is a non-empty transcript and the video language is not "English". The translation goes from the lower-cased video language to "en", on the transcript text. |
| Pipeline.SummarizerCalledWith | app.py:146-155 | The model is called exactly when the earlier stages succeeded. Its input is the summary prompt followed by the transcript (English video) or by the translation (any other language). |
| Pipeline.SummaryTranslatedIff | app.py:156-159 | The summary is translated exactly when the model returned a non-empty summary and the summary language is not "English". The translation goes from "en" to the lower-cased summary language. |
| Pipeline.SummarizedOutcome | app.py:155-190 | A summary is offered exactly when every stage succeeded. It is then non-empty: the model's answer for an English summary, the translation otherwise. The text download is named after the format, and the PDF download is offered exactly when the PDF of the summary renders, also named after the format. |
| PipelineExamples.LowerLabels | app.py:149-159 | "Hindi" and "Tamil" lower-case to "hindi" and "tamil". |
| PipelineExamples.ReportFileNames | app.py:177-186 | The "Report" format downloads as `summary_report.txt` and `summary_report.pdf`. |
| PipelineExamples.EchoTranscript | app.py:45-46 | A single caption entry gives its text as the transcript. |
| PipelineExamples.HindiToTamilRun | app.py:143-188 | For a Hindi video summarised in Tamil, all four services are called in order, with the arguments "hindi"→"en" and "en"→"tamil", and the translated summary is offered under the report names (the example PDF renders). |

## Left out

- The Streamlit page itself is left out: layout, markdown, the thumbnail (lines 133-140), `st.subheader`/`st.write` and the download buttons' MIME types. They display data and do not change what the handler computes.
- The widgets' own checks are left out. The size is assumed to lie between 100 and 5000, as `st.number_input` guarantees. Its step of 50 and default of 1000 do not affect the handler. The format and language values are not restricted to the offered options.
- What `generate_pdf` (lines 72-85) computes is left out: the font file, FPDF layout and the latin-1 encoding belong to a library that is not part of this model. Only whether it returns is modelled, as the oracle `pdfRenders`. When it raises (line 182 is outside any `try`), the script stops after the text download has been offered, so the outcome has no PDF name. The UTF-8 encoding of the text download is left out too.
- Loading the environment and configuring the API key (lines 12-19) are left out, because they are I/O.
- The captions service, the translator and the model are oracles. What `YouTubeTranscriptApi`, `googletrans` and Gemini compute is not part of this model. Any exception is the `None` answer.
- The messages shown inside `extract_video_id` and the wrappers (lines 36, 39, 49, 58, 68) are left out. For a non-empty invalid link the page shows the invalid-URL message twice, once from line 36 (called at line 135) and again from line 194; the duplicate is not modelled. `ErrorMessage` gives the handler's own messages (lines 151, 161, 190, 192, 194).
- An empty link is treated like any other link that yields no identifier (an invalid URL). In the source, `video_id` is never assigned in that case and line 144 raises `NameError`.
- `except Exception` around `re.search` (lines 38-40) is left out: the search cannot raise for a string argument.
- Caption entries carry only their `text`: the service's timing fields are never read.
- Strings.LowerChar, Strings.Lower: lower-case ASCII letters only, not all of Unicode as Python's `str.lower` does. All the labels the page offers are ASCII.
- Prompt.SummarizerInputInjective: proved only for formats without a full stop (all six offered formats qualify). The template is split at the full stop after its field.
- `str.format` is modelled by splitting the template around its single field `{summary_format}`. Python's brace escaping and format specifiers are not modelled, because the template uses neither.
