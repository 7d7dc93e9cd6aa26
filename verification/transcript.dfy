/**
  Assembly of the transcript text from the caption entries returned by the
  captions service (`extract_transcript_details`, app.py): the entries' `text`
  fields, in order, joined with single spaces, as `" ".join(...)` does.
 */
module Transcript {

  /** One caption entry; the service also reports timing, which the program never reads. */
  datatype CaptionEntry = CaptionEntry(text: string)

  /** The `text` field of every entry, in order. */
  function Texts(entries: seq<CaptionEntry>): (r: seq<string>)
    ensures |r| == |entries|
    ensures forall i :: 0 <= i < |entries| ==> r[i] == entries[i].text
  {
    seq(|entries|, i requires 0 <= i < |entries| => entries[i].text)
  }

  /** Sum of the lengths of the parts. */
  function TotalLength(parts: seq<string>): nat {
    if |parts| == 0 then 0 else |parts[0]| + TotalLength(parts[1..])
  }

  /** Python's `" ".join(parts)`. */
  function JoinWithSpaces(parts: seq<string>): (r: string)
    ensures |parts| == 0 ==> r == ""
    ensures |parts| == 1 ==> r == parts[0]
    ensures |parts| > 0 ==> |r| == TotalLength(parts) + |parts| - 1
  {
    if |parts| == 0 then ""
    else if |parts| == 1 then parts[0]
    else parts[0] + " " + JoinWithSpaces(parts[1..])
  }

  /** Python's `s.split(" ")`: the pieces between single spaces, empty pieces included. */
  function SplitOnSpaces(s: string): (r: seq<string>)
    ensures |r| >= 1
    decreases |s|
  {
    if |s| == 0 then [""]
    else
      var rest := SplitOnSpaces(s[1..]);
      if s[0] == ' ' then [""] + rest
      else [[s[0]] + rest[0]] + rest[1..]
  }

  /** The transcript text handed on by `extract_transcript_details`. */
  function AssembleTranscript(entries: seq<CaptionEntry>): (r: string)
    ensures |entries| == 0 ==> r == ""
    ensures |entries| == 1 ==> r == entries[0].text
  {
    JoinWithSpaces(Texts(entries))
  }

  /** A text with no space character. */
  predicate SpaceFree(t: string) {
    forall k :: 0 <= k < |t| ==> t[k] != ' '
  }

  /** Joining distributes over concatenation of non-empty lists, with one space at the seam. */
  lemma {:induction false} JoinAppend(a: seq<string>, b: seq<string>)
    requires |a| > 0 && |b| > 0
    ensures JoinWithSpaces(a + b) == JoinWithSpaces(a) + " " + JoinWithSpaces(b)
    decreases |a|
  {
    if |a| == 1 {
      assert a + b == [a[0]] + b;
      assert (a + b)[1..] == b;
    } else {
      assert (a + b)[1..] == a[1..] + b;
      JoinAppend(a[1..], b);
    }
  }

  /** Splitting a joined text gives back the text: `" ".join(s.split(" ")) == s` for every s. */
  lemma {:induction false} JoinSplit(s: string)
    ensures JoinWithSpaces(SplitOnSpaces(s)) == s
    decreases |s|
  {
    if |s| > 0 {
      var rest := SplitOnSpaces(s[1..]);
      JoinSplit(s[1..]);
      if s[0] == ' ' {
        assert ([""] + rest)[1..] == rest;
      } else {
        var parts := [[s[0]] + rest[0]] + rest[1..];
        if |rest| > 1 {
          assert parts[1..] == rest[1..];
          assert JoinWithSpaces(rest) == rest[0] + " " + JoinWithSpaces(rest[1..]);
        }
      }
    }
  }

  /** A space-free text does not split. */
  lemma {:induction false} SplitSpaceFree(t: string)
    requires SpaceFree(t)
    ensures SplitOnSpaces(t) == [t]
    decreases |t|
  {
    if |t| > 0 {
      SplitSpaceFree(t[1..]);
      assert [t[0]] + t[1..] == t;
    }
  }

  /** Splitting stops at the first space when the text before it is space-free. */
  lemma {:induction false} SplitAtFirstSpace(t: string, u: string)
    requires SpaceFree(t)
    ensures SplitOnSpaces(t + " " + u) == [t] + SplitOnSpaces(u)
    decreases |t|
  {
    var s := t + " " + u;
    if |t| == 0 {
      assert s[1..] == u;
    } else {
      assert s[1..] == t[1..] + " " + u;
      SplitAtFirstSpace(t[1..], u);
      assert [t[0]] + t[1..] == t;
    }
  }

  /**
    The transcript keeps the entries' texts in order: when no text contains a space,
    splitting the joined transcript on spaces recovers exactly the texts.
   */
  lemma {:induction false} SplitJoin(parts: seq<string>)
    requires |parts| > 0
    requires forall i :: 0 <= i < |parts| ==> SpaceFree(parts[i])
    ensures SplitOnSpaces(JoinWithSpaces(parts)) == parts
    decreases |parts|
  {
    if |parts| == 1 {
      SplitSpaceFree(parts[0]);
    } else {
      SplitJoin(parts[1..]);
      SplitAtFirstSpace(parts[0], JoinWithSpaces(parts[1..]));
      assert [parts[0]] + parts[1..] == parts;
    }
  }

  /** The assembled transcript, split on spaces, lists the entries' texts in order (space-free texts). */
  lemma AssembleTranscriptRecoversTexts(entries: seq<CaptionEntry>)
    requires |entries| > 0
    requires forall i :: 0 <= i < |entries| ==> SpaceFree(entries[i].text)
    ensures SplitOnSpaces(AssembleTranscript(entries)) == Texts(entries)
  {
    SplitJoin(Texts(entries));
  }

  /** Transcripts of consecutive runs of entries join with one space between them. */
  lemma AssembleTranscriptAppend(a: seq<CaptionEntry>, b: seq<CaptionEntry>)
    requires |a| > 0 && |b| > 0
    ensures AssembleTranscript(a + b) == AssembleTranscript(a) + " " + AssembleTranscript(b)
  {
    assert Texts(a + b) == Texts(a) + Texts(b);
    JoinAppend(Texts(a), Texts(b));
  }
}
