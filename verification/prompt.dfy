/**
  Construction of the text sent to the summariser (app.py): the base template
  `base_prompt` with its one replacement field `{summary_format}` filled in,
  then ` in N words:` with the requested size, then the transcript, appended
  with no separator (`prompt + transcript_text`).
 */
module Prompt {
  import opened Strings

  /** `base_prompt` up to its replacement field. */
  const PromptHead: string :=
    "\nYou are a YouTube video summarizer. Take the transcript text and summarize \nthe video as per the selected format. Format: "

  /** The replacement field named `summary_format`. */
  const FormatField: string := "{summary_format}"

  /** The closing line of `base_prompt`, after the full stop that ends the format line. */
  const ClosingLine: string := "\nPlease provide the summary of the text given here:\n"

  /** `base_prompt` after its replacement field. */
  const PromptTail: string := "." + ClosingLine

  /** `base_prompt` as written: the only braces in it are those of its one field. */
  const BasePrompt: string := PromptHead + FormatField + PromptTail

  /** The summary formats the page offers. */
  const FormatOptions: seq<string> := ["Bullet Points", "Sentences", "Paragraphs", "Report", "Essay", "Review"]

  /** Smallest and largest summary size the page accepts, in words. */
  const MinSize: nat := 100
  const MaxSize: nat := 5000

  /** A text with no full stop. */
  predicate DotFree(t: string) {
    forall k :: 0 <= k < |t| ==> t[k] != '.'
  }

  /** `base_prompt.format(summary_format=format)`: the field replaced by the format label. */
  function FillBasePrompt(format: string): (r: string)
    ensures |r| == |PromptHead| + |format| + |PromptTail|
    ensures r[|PromptHead|..|PromptHead| + |format|] == format
  {
    PromptHead + format + PromptTail
  }

  /**
    `base_prompt.format(summary_format=format)` replaces the template's one field: the
    template holds `{summary_format}` right after its head, and filling it puts the format
    label in that place and keeps the rest of the template as written.
   */
  lemma FillBasePromptReplacesField(format: string)
    ensures var h := |PromptHead|;
      && BasePrompt[h..h + |FormatField|] == FormatField
      && FillBasePrompt(format) == BasePrompt[..h] + format + BasePrompt[h + |FormatField|..]
  {
    var h := |PromptHead|;
    ConcatParts(PromptHead, FormatField, PromptTail);
    assert BasePrompt[..h] == PromptHead;
    assert BasePrompt[h + |FormatField|..] == PromptTail;
  }

  /** The three parts of a concatenation can be cut out of it again. */
  lemma ConcatParts(a: string, b: string, c: string)
    ensures var x := a + b + c;
      && x[..|a|] == a
      && x[|a|..|a| + |b|] == b
      && x[|a| + |b|..] == c
  {
  }

  /** The size clause appended to the filled template. */
  function SizeClause(size: nat): (r: string)
    ensures |r| == |NatToString(size)| + 11
    ensures r[4..|r| - 7] == NatToString(size)
  {
    " in " + NatToString(size) + " words:"
  }

  /** `summary_prompt`: the filled template followed by the size clause. */
  function SummaryPrompt(format: string, size: nat): string
  {
    FillBasePrompt(format) + SizeClause(size)
  }

  /** The argument of the summariser call: the prompt with the transcript appended. */
  function SummarizerInput(prompt: string, transcript: string): string
  {
    prompt + transcript
  }

  /**
    The summariser input is the template with the format in place of its field, then the
    size clause, then the transcript: the format sits in the prefix and the transcript is a suffix.
   */
  lemma SummarizerInputLayout(format: string, size: nat, transcript: string)
    ensures var x := SummarizerInput(SummaryPrompt(format, size), transcript);
      var h, n := |PromptHead|, |PromptHead| + |format| + |PromptTail|;
      && |x| == n + |SizeClause(size)| + |transcript|
      && x[..h] == PromptHead
      && x[h..h + |format|] == format
      && x[h + |format|..n] == PromptTail
      && x[n..n + |SizeClause(size)|] == SizeClause(size)
      && x[|x| - |transcript|..] == transcript
  {
    ConcatLayout(PromptHead, format, PromptTail, SizeClause(size), transcript);
  }

  /** The five parts of a concatenation sit one after the other in it. */
  lemma ConcatLayout(a: string, b: string, c: string, d: string, e: string)
    ensures var x := a + b + c + d + e;
      var n := |a| + |b| + |c|;
      && |x| == n + |d| + |e|
      && x[..|a|] == a
      && x[|a|..|a| + |b|] == b
      && x[|a| + |b|..n] == c
      && x[n..n + |d|] == d
      && x[|x| - |e|..] == e
  {
  }

  /** Every offered format is free of full stops. */
  lemma FormatOptionsDotFree()
    ensures forall i :: 0 <= i < |FormatOptions| ==> DotFree(FormatOptions[i])
  {
  }

  /** Two texts free of a separator character, each followed by it, split a common string at the same place. */
  lemma SplitAtSeparator(a: string, b: string, c: char, r1: string, r2: string)
    requires forall k :: 0 <= k < |a| ==> a[k] != c
    requires forall k :: 0 <= k < |b| ==> b[k] != c
    requires a + [c] + r1 == b + [c] + r2
    ensures a == b && r1 == r2
  {
    var x := a + [c] + r1;
    assert x[|a|] == c && x[|b|] == c;
    assert forall k :: 0 <= k < |a| ==> x[k] == a[k];
    assert forall k :: 0 <= k < |b| ==> x[k] == b[k];
    assert |a| == |b|;
    assert a == x[..|a|] == b;
    assert r1 == x[|a| + 1..] == r2;
  }

  /**
    The layout of a summariser input can be read back: a fixed head, a format without
    full stops, a full stop and fixed text, the digits of the size and a space, then the rest.
   */
  lemma ReadLayout(head: string, f1: string, f2: string, mid: string, d1: string, d2: string, t1: string, t2: string)
    requires DotFree(f1) && DotFree(f2)
    requires forall k :: 0 <= k < |d1| ==> d1[k] != ' '
    requires forall k :: 0 <= k < |d2| ==> d2[k] != ' '
    requires head + f1 + "." + mid + d1 + " " + t1 == head + f2 + "." + mid + d2 + " " + t2
    ensures f1 == f2 && d1 == d2 && t1 == t2
  {
    var x1 := head + f1 + "." + mid + d1 + " " + t1;
    var x2 := head + f2 + "." + mid + d2 + " " + t2;
    assert x1 == head + (f1 + ['.'] + (mid + d1 + " " + t1));
    assert x2 == head + (f2 + ['.'] + (mid + d2 + " " + t2));
    assert x1[|head|..] == f1 + ['.'] + (mid + d1 + " " + t1);
    assert x2[|head|..] == f2 + ['.'] + (mid + d2 + " " + t2);
    SplitAtSeparator(f1, f2, '.', mid + d1 + " " + t1, mid + d2 + " " + t2);
    var y1 := mid + d1 + " " + t1;
    var y2 := mid + d2 + " " + t2;
    assert y1 == mid + (d1 + [' '] + t1);
    assert y2 == mid + (d2 + [' '] + t2);
    assert y1[|mid|..] == d1 + [' '] + t1;
    assert y2[|mid|..] == d2 + [' '] + t2;
    SplitAtSeparator(d1, d2, ' ', t1, t2);
  }

  /** The summariser input laid out as ReadLayout expects. */
  lemma InputLayout(f: string, n: nat, t: string)
    ensures SummarizerInput(SummaryPrompt(f, n), t)
         == PromptHead + f + "." + (ClosingLine + " in ") + NatToString(n) + " " + ("words:" + t)
  {
    Regroup(PromptHead, f, ClosingLine, NatToString(n), t);
  }

  /** Regrouping the pieces of the input around the full stop and the space after the digits. */
  lemma Regroup(h: string, f: string, c: string, d: string, t: string)
    ensures h + f + ("." + c) + (" in " + d + " words:") + t
         == h + f + "." + (c + " in ") + d + " " + ("words:" + t)
  {
  }

  /**
    The summariser input determines the choices it was built from: for formats free of
    full stops (every offered format is), equal inputs mean the same format, the same
    size and the same transcript.
   */
  lemma SummarizerInputInjective(f1: string, n1: nat, t1: string, f2: string, n2: nat, t2: string)
    requires DotFree(f1) && DotFree(f2)
    requires SummarizerInput(SummaryPrompt(f1, n1), t1) == SummarizerInput(SummaryPrompt(f2, n2), t2)
    ensures f1 == f2 && n1 == n2 && t1 == t2
  {
    InputLayout(f1, n1, t1);
    InputLayout(f2, n2, t2);
    ReadLayout(PromptHead, f1, f2, ClosingLine + " in ", NatToString(n1), NatToString(n2), "words:" + t1, "words:" + t2);
    NatToStringInjective(n1, n2);
    assert t1 == ("words:" + t1)[6..];
    assert t2 == ("words:" + t2)[6..];
  }
}
