/**
  Extraction of the 11-character video identifier from a user-supplied link
  (`extract_video_id`, app.py). The source applies `re.search` with the pattern

      (?:v=|youtu\.be/|embed/|v/|watch\?v=|shorts/|e/|^)([A-Za-z0-9_-]{11})

  and returns capture group 1. This module models that one pattern directly:
  `re.search` tries start positions from left to right and, at each position,
  the branches of the non-capturing group in the order written, backtracking
  into the next branch when eleven identifier characters do not follow.
 */
module VideoId {
  import opened Wrappers

  /** Number of characters in a video identifier (the `{11}` quantifier). */
  const IdLength: nat := 11

  /** The character class `[A-Za-z0-9_-]`. */
  predicate IsIdChar(c: char) {
    ('A' <= c <= 'Z') || ('a' <= c <= 'z') || ('0' <= c <= '9') || c == '_' || c == '-'
  }

  /** A well-formed identifier: exactly IdLength characters of the class. */
  predicate IsVideoId(id: string) {
    |id| == IdLength && forall k :: 0 <= k < |id| ==> IsIdChar(id[k])
  }

  /** The literal branches of the group, in the order written; the final branch `^` is not a literal. */
  const Prefixes: seq<string> := ["v=", "youtu.be/", "embed/", "v/", "watch?v=", "shorts/", "e/"]

  /** Eleven identifier characters start at index q of s. */
  predicate IdAt(s: string, q: nat) {
    q + IdLength <= |s| && forall k :: q <= k < q + IdLength ==> IsIdChar(s[k])
  }

  /** A match of the whole pattern starts at p with the captured identifier at q (declarative view). */
  ghost predicate MatchAt(s: string, p: nat, q: nat) {
    && IdAt(s, q)
    && ((p == 0 && q == 0) ||
        exists j :: 0 <= j < |Prefixes| && q == p + |Prefixes[j]| && s[p..q] == Prefixes[j])
  }

  /** No branch of the pattern matches at start position p. */
  ghost predicate NoMatchAt(s: string, p: nat) {
    forall q :: !MatchAt(s, p, q)
  }

  /** Identifier `id` occurs in s at index q, right after one of the literal prefixes or at the very start. */
  ghost predicate CapturedAt(s: string, id: string, q: nat) {
    && q + |id| <= |s|
    && s[q..q + |id|] == id
    && (q == 0 || exists j :: 0 <= j < |Prefixes| && |Prefixes[j]| <= q && s[q - |Prefixes[j]|..q] == Prefixes[j])
  }

  /** A successful `re.search`: where the match starts and where group 1 starts. */
  datatype Match = Match(start: nat, groupStart: nat)

  /**
    Where branch i of the group ends when tried at position p, if it matches there:
    branches 0..6 are the literal prefixes, branch 7 is `^` (position 0 only; no MULTILINE flag).
   */
  function BranchEnd(s: string, p: nat, i: nat): (r: Option<nat>)
    requires i <= |Prefixes|
    ensures r.Some? && i < |Prefixes| ==> r.value == p + |Prefixes[i]| <= |s| && s[p..r.value] == Prefixes[i]
    ensures r.Some? && i == |Prefixes| ==> p == 0 && r.value == 0
    ensures r.None? && i < |Prefixes| ==> !(p + |Prefixes[i]| <= |s| && s[p..p + |Prefixes[i]|] == Prefixes[i])
    ensures r.None? && i == |Prefixes| ==> p != 0
  {
    if i < |Prefixes| then
      var t := Prefixes[i];
      if p + |t| <= |s| && s[p..p + |t|] == t then Some(p + |t|) else None
    else if p == 0 then Some(0) else None
  }

  /**
    Tries branches i.. at position p in order, and for each branch that matches checks
    the eleven identifier characters after it. Returns where group 1 starts.
   */
  function TryBranches(s: string, p: nat, i: nat): (r: Option<nat>)
    requires i <= |Prefixes| + 1
    decreases |Prefixes| + 1 - i
    ensures r.Some? ==> IdAt(s, r.value)
    ensures r.Some? ==> exists j :: i <= j <= |Prefixes| && BranchEnd(s, p, j) == r
    ensures r.None? ==> forall j :: i <= j <= |Prefixes| && BranchEnd(s, p, j).Some? ==> !IdAt(s, BranchEnd(s, p, j).value)
  {
    if i == |Prefixes| + 1 then None
    else
      var e := BranchEnd(s, p, i);
      if e.Some? && IdAt(s, e.value) then e else TryBranches(s, p, i + 1)
  }

  /** `re.search` from start position p onwards: the leftmost match at or after p. */
  function SearchFrom(s: string, p: nat): (r: Option<Match>)
    requires p <= |s|
    decreases |s| - p
    ensures r.Some? ==> p <= r.value.start && IdAt(s, r.value.groupStart)
    ensures r.Some? ==> TryBranches(s, r.value.start, 0) == Some(r.value.groupStart)
    ensures r.Some? ==> forall p' :: p <= p' < r.value.start ==> TryBranches(s, p', 0).None?
    ensures r.None? ==> forall p' :: p <= p' <= |s| ==> TryBranches(s, p', 0).None?
  {
    var g := TryBranches(s, p, 0);
    if g.Some? then Some(Match(p, g.value))
    else if p == |s| then None
    else SearchFrom(s, p + 1)
  }

  /**
    `re.search(pattern, url)` over the whole input: a match has eleven identifier
    characters at its group, and no result means no start position succeeds.
   */
  function Search(url: string): (r: Option<Match>)
    ensures r.Some? ==> IdAt(url, r.value.groupStart)
    ensures r.None? ==> forall p: nat :: p <= |url| ==> TryBranches(url, p, 0).None?
  {
    SearchFrom(url, 0)
  }

  /** `extract_video_id`: group 1 of the leftmost match, or None when nothing matches. */
  function ExtractVideoId(url: string): (r: Option<string>)
    ensures r.Some? ==> IsVideoId(r.value)
    ensures r.Some? <==> Search(url).Some?
  {
    match Search(url)
    case Some(m) => Some(url[m.groupStart..m.groupStart + IdLength])
    case None => None
  }

  // ---------------------------------------------------------------------------
  // Relating the operational search to the declarative view.

  /** Every literal prefix ends in a character outside the identifier class. */
  lemma PrefixesEndOutsideClass()
    ensures forall j :: 0 <= j < |Prefixes| ==> 2 <= |Prefixes[j]| < IdLength && !IsIdChar(Prefixes[j][|Prefixes[j]| - 1])
  {
  }

  /** The two-character beginnings of the literal prefixes. */
  predicate BeginsPrefix(a: char, b: char) {
    || (a == 'v' && (b == '=' || b == '/'))
    || (a == 'y' && b == 'o')
    || (a == 'e' && (b == 'm' || b == '/'))
    || (a == 'w' && b == 'a')
    || (a == 's' && b == 'h')
  }

  /** Every literal prefix begins with one of the pairs of BeginsPrefix. */
  lemma PrefixesBegin()
    ensures forall j :: 0 <= j < |Prefixes| ==> BeginsPrefix(Prefixes[j][0], Prefixes[j][1])
  {
  }

  /** No two literal prefixes agree on their first two characters. */
  lemma PrefixesDisagreeEarly()
    ensures forall j1, j2 :: 0 <= j1 < |Prefixes| && 0 <= j2 < |Prefixes| && j1 != j2 ==>
      Prefixes[j1][0] != Prefixes[j2][0] || Prefixes[j1][1] != Prefixes[j2][1]
  {
  }

  /** Eleven identifier characters at index 0 rule out every literal prefix there. */
  lemma AnchorExcludesPrefix(s: string, j: nat)
    requires IdAt(s, 0) && j < |Prefixes|
    ensures !(|Prefixes[j]| <= |s| && s[0..|Prefixes[j]|] == Prefixes[j])
  {
    PrefixesEndOutsideClass();
    var k := |Prefixes[j]| - 1;
    assert IsIdChar(s[k]);
    assert s[0..|Prefixes[j]|][k] == s[k];
  }

  /**
    At any start position, at most one group-1 position is possible: the literal prefixes
    cannot both match, and a literal prefix rules out eleven identifier characters at index 0.
    Hence the order of the branches never changes what `re.search` returns.
   */
  lemma MatchAtUnique(s: string, p: nat, q1: nat, q2: nat)
    requires MatchAt(s, p, q1) && MatchAt(s, p, q2)
    ensures q1 == q2
  {
    if p == 0 && IdAt(s, 0) {
      forall j: nat | j < |Prefixes|
        ensures !(|Prefixes[j]| <= |s| && s[0..|Prefixes[j]|] == Prefixes[j])
      {
        AnchorExcludesPrefix(s, j);
      }
    } else {
      PrefixesDisagreeEarly();
      var j1 :| 0 <= j1 < |Prefixes| && q1 == p + |Prefixes[j1]| && s[p..q1] == Prefixes[j1];
      var j2 :| 0 <= j2 < |Prefixes| && q2 == p + |Prefixes[j2]| && s[p..q2] == Prefixes[j2];
      assert s[p..q1][0] == s[p] && s[p..q1][1] == s[p + 1];
      assert s[p..q2][0] == s[p] && s[p..q2][1] == s[p + 1];
      assert j1 == j2;
    }
  }

  /** A match lies inside the input, with the identifier at or after the match start. */
  lemma MatchAtBounds(s: string, p: nat, q: nat)
    requires MatchAt(s, p, q)
    ensures p <= q && q + IdLength <= |s|
  {
  }

  /** A branch that matches and is followed by an identifier is a match in the declarative sense, and back. */
  lemma BranchIffMatch(s: string, p: nat, q: nat)
    ensures MatchAt(s, p, q) <==> exists j :: 0 <= j <= |Prefixes| && BranchEnd(s, p, j) == Some(q) && IdAt(s, q)
  {
    if MatchAt(s, p, q) {
      if p == 0 && q == 0 {
        assert BranchEnd(s, p, |Prefixes|) == Some(q);
      } else {
        var j :| 0 <= j < |Prefixes| && q == p + |Prefixes[j]| && s[p..q] == Prefixes[j];
        assert BranchEnd(s, p, j) == Some(q);
      }
    }
    if exists j :: 0 <= j <= |Prefixes| && BranchEnd(s, p, j) == Some(q) && IdAt(s, q) {
      var j :| 0 <= j <= |Prefixes| && BranchEnd(s, p, j) == Some(q) && IdAt(s, q);
      if j < |Prefixes| {
        assert q == p + |Prefixes[j]| && s[p..q] == Prefixes[j];
      }
    }
  }

  /** Trying the branches at p finds a group exactly when the pattern matches at p, and finds the only one. */
  lemma TryBranchesIffMatch(s: string, p: nat)
    ensures TryBranches(s, p, 0).None? <==> NoMatchAt(s, p)
    ensures TryBranches(s, p, 0).Some? ==> MatchAt(s, p, TryBranches(s, p, 0).value)
  {
    var r := TryBranches(s, p, 0);
    if r.Some? {
      BranchIffMatch(s, p, r.value);
      assert MatchAt(s, p, r.value);
    } else {
      forall q | MatchAt(s, p, q)
        ensures false
      {
        BranchIffMatch(s, p, q);
      }
    }
  }

  // ---------------------------------------------------------------------------
  // Properties of extract_video_id.

  /**
    Soundness: the search stops at a position where the pattern matches, and the pattern
    matches nowhere to its left; the returned identifier is the one captured there.
   */
  lemma {:induction false} SearchIsLeftmostMatch(url: string)
    ensures Search(url).Some? ==> MatchAt(url, Search(url).value.start, Search(url).value.groupStart)
    ensures Search(url).Some? ==> forall p: nat :: p < Search(url).value.start ==> NoMatchAt(url, p)
    ensures Search(url).None? ==> forall p: nat, q: nat :: !MatchAt(url, p, q)
  {
    var r := Search(url);
    if r.Some? {
      TryBranchesIffMatch(url, r.value.start);
      forall p: nat | p < r.value.start
        ensures NoMatchAt(url, p)
      {
        TryBranchesIffMatch(url, p);
      }
    } else {
      forall p: nat, q: nat
        ensures !MatchAt(url, p, q)
      {
        if MatchAt(url, p, q) {
          assert p <= |url|;
          TryBranchesIffMatch(url, p);
        }
      }
    }
  }

  /**
    A returned identifier has eleven characters of the class, is a contiguous part of the
    input, and sits right after one of the literal prefixes or at the start of the input.
   */
  lemma ExtractVideoIdSound(url: string)
    ensures ExtractVideoId(url).Some? ==> IsVideoId(ExtractVideoId(url).value)
    ensures ExtractVideoId(url).Some? ==> exists q :: CapturedAt(url, ExtractVideoId(url).value, q)
  {
    SearchIsLeftmostMatch(url);
    var r := Search(url);
    if r.Some? {
      var p, q := r.value.start, r.value.groupStart;
      var id := ExtractVideoId(url).value;
      assert id == url[q..q + IdLength];
      if !(p == 0 && q == 0) {
        var j :| 0 <= j < |Prefixes| && q == p + |Prefixes[j]| && url[p..q] == Prefixes[j];
        assert url[q - |Prefixes[j]|..q] == Prefixes[j];
      }
      assert CapturedAt(url, id, q);
    }
  }

  /** The search from p0 stops at the first position p at which some branch is followed by an identifier. */
  lemma {:induction false} SearchFromFinds(s: string, p0: nat, p: nat)
    requires p0 <= p <= |s|
    requires TryBranches(s, p, 0).Some?
    requires forall p': nat :: p0 <= p' < p ==> TryBranches(s, p', 0).None?
    ensures SearchFrom(s, p0) == Some(Match(p, TryBranches(s, p, 0).value))
    decreases p - p0
  {
    if p0 < p {
      SearchFromFinds(s, p0 + 1, p);
    }
  }

  /**
    Completeness with respect to the declarative view: if the leftmost start position at
    which the pattern matches is p, with the identifier at q, then that identifier is returned.
   */
  lemma ExtractVideoIdLeftmost(url: string, p: nat, q: nat)
    requires MatchAt(url, p, q)
    requires forall p': nat :: p' < p ==> NoMatchAt(url, p')
    ensures ExtractVideoId(url) == Some(url[q..q + IdLength])
  {
    MatchAtBounds(url, p, q);
    SearchLeftmost(url, p, q);
    GroupOfMatch(url, p, q);
  }

  /** The identifier is read where the returned match puts group 1. */
  lemma GroupOfMatch(url: string, p: nat, q: nat)
    requires q + IdLength <= |url|
    requires Search(url) == Some(Match(p, q))
    ensures ExtractVideoId(url) == Some(url[q..q + IdLength])
  {
  }

  /** The declarative leftmost match is the one the search returns. */
  lemma SearchLeftmost(url: string, p: nat, q: nat)
    requires MatchAt(url, p, q)
    requires forall p': nat :: p' < p ==> NoMatchAt(url, p')
    ensures Search(url) == Some(Match(p, q))
  {
    MatchAtBounds(url, p, q);
    NoBranchBefore(url, p);
    TryBranchesIffMatch(url, p);
    SearchFromFinds(url, 0, p);
    MatchAtUnique(url, p, q, TryBranches(url, p, 0).value);
  }

  /** Where the pattern matches at no position before p, no branch succeeds there either. */
  lemma NoBranchBefore(url: string, p: nat)
    requires forall p': nat :: p' < p ==> NoMatchAt(url, p')
    ensures forall p': nat :: p' < p ==> TryBranches(url, p', 0).None?
  {
    forall p': nat | p' < p
      ensures TryBranches(url, p', 0).None?
    {
      TryBranchesIffMatch(url, p');
    }
  }

  /** `extract_video_id` returns None exactly when the pattern matches nowhere in the input. */
  lemma ExtractVideoIdNone(url: string)
    ensures ExtractVideoId(url).None? <==> forall p: nat, q: nat :: !MatchAt(url, p, q)
  {
    SearchIsLeftmostMatch(url);
  }

  /** An input that starts with eleven identifier characters (a bare ID, perhaps followed by more) yields them. */
  lemma ExtractVideoIdBare(url: string)
    requires IdAt(url, 0)
    ensures ExtractVideoId(url) == Some(url[..IdLength])
  {
    assert MatchAt(url, 0, 0);
    ExtractVideoIdLeftmost(url, 0, 0);
  }

  /**
    Two characters at p that begin no literal prefix rule out every literal branch at p;
    at position 0 the anchor branch is ruled out separately.
   */
  lemma NoMatchAtPair(s: string, p: nat)
    requires p + 1 < |s|
    requires !BeginsPrefix(s[p], s[p + 1])
    requires p == 0 ==> !IdAt(s, 0)
    ensures NoMatchAt(s, p)
  {
    PrefixesBegin();
    forall q: nat
      ensures !MatchAt(s, p, q)
    {
      forall j | 0 <= j < |Prefixes| && q == p + |Prefixes[j]| && q <= |s|
        ensures s[p..q] != Prefixes[j]
      {
        assert s[p..q][0] == s[p] && s[p..q][1] == s[p + 1];
      }
    }
  }

  /**
    Each recognised URL shape at the start of the input (`v=`, `youtu.be/`, `embed/`, `v/`,
    `watch?v=`, `shorts/`, `e/`) yields the identifier that follows it, whatever comes after.
   */
  lemma ExtractVideoIdAfterPrefix(j: nat, id: string, rest: string)
    requires j < |Prefixes| && IsVideoId(id)
    ensures ExtractVideoId(Prefixes[j] + id + rest) == Some(id)
  {
    var s := Prefixes[j] + id + rest;
    var n := |Prefixes[j]|;
    assert s[0..n] == Prefixes[j];
    assert s[n..n + IdLength] == id;
    assert MatchAt(s, 0, n);
    ExtractVideoIdLeftmost(s, 0, n);
  }

  /** An input with no run of eleven identifier characters anywhere yields no identifier. */
  lemma ExtractVideoIdNoRun(url: string)
    requires forall q: nat :: !IdAt(url, q)
    ensures ExtractVideoId(url) == None
  {
    ExtractVideoIdNone(url);
  }

  /** An input shorter than an identifier never yields one; in particular the empty link does not. */
  lemma ExtractVideoIdShort(url: string)
    requires |url| < IdLength
    ensures ExtractVideoId(url) == None
  {
  }
}
