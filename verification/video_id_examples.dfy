/** The worked example of a share link, checked against the model of `extract_video_id`. */
module VideoIdExamples {
  import opened Wrappers
  import opened VideoId

  /** A share link from the mobile app, split at the branch that matches. */
  function ShareLink(): string {
    "https://" + "youtu.be/" + "dQw4w9WgXcQ" + "?feature=share"
  }

  /** The pieces spell the literal link. */
  lemma ShareLinkLiteral()
    ensures ShareLink() == "https://youtu.be/dQw4w9WgXcQ?feature=share"
  {
  }

  /** The `youtu.be/` branch matches at index 8, followed by the identifier. */
  lemma ShareLinkMatch()
    ensures MatchAt(ShareLink(), 8, 17) && ShareLink()[17..28] == "dQw4w9WgXcQ"
  {
    var s := ShareLink();
    assert s[8..17] == "youtu.be/" == Prefixes[1];
    assert s[17..28] == "dQw4w9WgXcQ";
  }

  /** Nothing matches in the scheme part `https://`, including the `^` branch. */
  lemma ShareLinkNoEarlierMatch()
    ensures forall p: nat :: p < 8 ==> NoMatchAt(ShareLink(), p)
  {
    var s := ShareLink();
    assert s[5] == ':';
    NoMatchAtPair(s, 0);
    NoMatchAtPair(s, 1);
    NoMatchAtPair(s, 2);
    NoMatchAtPair(s, 3);
    NoMatchAtPair(s, 4);
    NoMatchAtPair(s, 5);
    NoMatchAtPair(s, 6);
    NoMatchAtPair(s, 7);
  }

  /** `https://youtu.be/dQw4w9WgXcQ?feature=share` yields `dQw4w9WgXcQ`. */
  lemma ShareLinkExample()
    ensures ExtractVideoId("https://youtu.be/dQw4w9WgXcQ?feature=share") == Some("dQw4w9WgXcQ")
  {
    ShareLinkLiteral();
    ShareLinkMatch();
    ShareLinkNoEarlierMatch();
    ExtractVideoIdLeftmost(ShareLink(), 8, 17);
  }
}
