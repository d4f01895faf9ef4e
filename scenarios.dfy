/**
  Worked cases of the scorer, the robots rules and the extractor on concrete
  text: the crawler's intended behaviour on small inputs, including the quirks
  of the Java code (the character dropped after a markup, the seen key that
  keeps a query word out of v).
*/
module Scenarios {
  import opened Wrappers
  import opened JavaText
  import opened Net
  import opened ReturnValues
  import opened Extractor
  import opened Scorer
  import opened Robots

  /** Lower-casing a literal, character by character. */
  lemma LowerOfLiteral(s: string, t: string)
    requires |s| == |t| && forall i :: 0 <= i < |s| ==> LowerChar(s[i]) == t[i]
    ensures ToLower(s) == t
  {
  }

  /** A slice equals a literal when it agrees with it character by character. */
  lemma SliceIs(s: string, i: nat, t: string)
    requires i + |t| <= |s| && forall d :: 0 <= d < |t| ==> s[i + d] == t[d]
    ensures s[i..i + |t|] == t
  {
  }

  /** A text without the letter `c` does not contain "cat". */
  lemma NoCat(s: string)
    requires 'c' !in s
    ensures !Contains(s, "cat")
  {
    forall k | MatchAt(s, "cat", k) ensures false {
      MatchAtAt(s, "cat", k, 0);
    }
  }

  // ---------------------------------------------------------------------------
  // The scorer

  /** The query "cat" is the single word "cat", walked in the only possible order. */
  lemma CatQuery()
    ensures QueryWords("cat") == {"cat"}
    ensures ScoreDefined(Some("cat"), ["cat"], "")
  {
    LowerOfLiteral("cat", "cat");
    assert !HasRegexSpace("cat");
    assert Split("cat") == ["cat"];
    assert IndexOf("", "<a", 0) == -1;
  }

  /** Query "cat", anchor "Cats and Dogs": one query word in the anchor, so the score is 50. */
  lemma AnchorTierExample(query: string, url: string, anchor: string, page: string)
    requires query == "cat" && url == "x/pets.html" && anchor == "Cats and Dogs" && page == ""
    ensures ScoreDefined(Some(query), [query], page) &&
      ScoreOf(Some(query), [query], url, anchor, [], [], page) == 50
  {
    CatQuery();
    LowerOfLiteral(anchor, "cats and dogs");
    PrefixAtIsSlice("cats and dogs", "cat", 0);
    assert MatchAt("cats and dogs", "cat", 0);
    assert AnchorHits({"cat"}, anchor) == {"cat"};
  }

  /** Query "cat", anchor "Pets", URL "x/cat.html": no anchor hit but a URL hit, so the score is 40. */
  lemma UrlTierExample(query: string, url: string, anchor: string, page: string)
    requires query == "cat" && url == "x/cat.html" && anchor == "Pets" && page == ""
    ensures ScoreDefined(Some(query), [query], page) &&
      ScoreOf(Some(query), [query], url, anchor, [], [], page) == 40
  {
    CatQuery();
    LowerOfLiteral(anchor, "pets");
    NoCat("pets");
    assert AnchorHits({"cat"}, anchor) == {};
    LowerOfLiteral(url, url);
    PrefixAtIsSlice(url, "cat", 2);
    assert MatchAt(url, "cat", 2);
    assert UrlHit({"cat"}, url);
  }

  /** Over `my cat`, the previous-words pass for "cat" counts one hit and records the key `cat`. */
  lemma PrevPassExample(qw: string, prv: seq<string>)
    requires qw == "cat" && prv == ["my", "cat"]
    ensures ContextPass(qw, prv, true, Tally(0, 0, {})) == Tally(1, 0, {"cat"})
  {
    LowerOfLiteral(prv[0], "my");
    NoCat("my");
    LowerOfLiteral(prv[1], "cat");
    PrefixAtIsSlice("cat", "cat", 0);
    assert Contains("cat", "cat");
    assert Key(prv[1], true) == "cat";
    assert prv[..1][..0] == [] && prv[..1] == [prv[0]];
    var t0 := Tally(0, 0, {});
    assert ContextPass(qw, prv[..1][..0], true, t0) == t0;
    assert ContextStep(qw, prv[0], true, t0) == t0;
    assert ContextPass(qw, prv[..1], true, t0) == t0;
    assert ContextStep(qw, prv[1], true, t0) == Tally(1, 0, {"cat"});
  }

  /** Over `is here`, the next-words pass for "cat" changes nothing. */
  lemma NextPassExample(qw: string, next: seq<string>, t: Tally)
    requires qw == "cat" && next == ["is", "here"]
    ensures ContextPass(qw, next, false, t) == t
  {
    LowerOfLiteral(next[0], "is");
    NoCat("is");
    LowerOfLiteral(next[1], "here");
    NoCat("here");
    assert next[..1][..0] == [] && next[..1] == [next[0]];
    assert ContextPass(qw, next[..1][..0], false, t) == t;
    assert ContextStep(qw, next[0], false, t) == t;
    assert ContextPass(qw, next[..1], false, t) == t;
    assert ContextStep(qw, next[1], false, t) == t;
  }

  /**
    Query "cat", anchor "Pets", a URL without "cat", and "cat" once among the
    previous words: u = 1 and, since "cat" is then a seen word, v = 0, so the
    score is 4 * 1 + |0 - 1| = 5.
  */
  lemma ContextTierExample(query: string, url: string, anchor: string, prv: seq<string>,
                           next: seq<string>, page: string)
    requires query == "cat" && url == "x/dog.html" && anchor == "Pets" && page == ""
    requires prv == ["my", "cat"] && next == ["is", "here"]
    ensures ScoreDefined(Some(query), [query], page) &&
      ScoreOf(Some(query), [query], url, anchor, prv, next, page) == 5
  {
    CatQuery();
    LowerOfLiteral(anchor, "pets");
    NoCat("pets");
    assert AnchorHits({"cat"}, anchor) == {};
    LowerOfLiteral(url, url);
    NoCat(url);
    assert !UrlHit({"cat"}, url);
    PrevPassExample(query, prv);
    NextPassExample(query, next, Tally(1, 0, {"cat"}));
    assert [query][..0] == [];
    assert Overlap([query], prv, next, BodyWords(page)) == Tally(1, 0, {"cat"});
  }

  /** `blurUrls("x<a>y")` is "y": the "x" before the markup goes with it. */
  lemma BlurExample(s: string)
    requires s == "x<a>y"
    ensures BlurOk(s) && Blur(s) == "y"
  {
    PrefixAtIsSlice(s, "<a", 1);
    assert s[1..3] == "<a";
    if MatchAt(s, "<a", 0) {
      MatchAtAt(s, "<a", 0, 0);
      assert false;
    }
    BlurRoundDeletes(s, 1, 3);
    assert s[..0] + s[4..] == "y";
    assert !MatchAt("y", "<a", 0);
    IndexOfIsFirst("y", "<a", 0);
  }

  // ---------------------------------------------------------------------------
  // The robots rules

  /** The token after `Disallow:` is the path `/private`, the leading space being a delimiter. */
  lemma PrivateToken(cmds: string)
    requires cmds == "Disallow: /private"
    ensures FirstToken(cmds[9..]) == Some("/private")
  {
    var s := cmds[9..];
    assert s == " /private";
    SliceIs(s, 1, "/private");
    assert SkipDelims(s, 0) == 1;
    assert TokenEnd(s, 9) == 9;
    assert TokenEnd(s, 8) == 9;
    assert TokenEnd(s, 7) == 9;
    assert TokenEnd(s, 6) == 9;
    assert TokenEnd(s, 5) == 9;
    assert TokenEnd(s, 4) == 9;
    assert TokenEnd(s, 3) == 9;
    assert TokenEnd(s, 2) == 9;
    assert TokenEnd(s, 1) == 9;
  }

  /** `Disallow: /private` is a rule for `/private/page.html`. */
  lemma PrivateDisallowed(cmds: string, file: string)
    requires cmds == "Disallow: /private" && file == "/private/page.html"
    ensures Disallowed(cmds, file)
  {
    PrivateToken(cmds);
    PrefixAtIsSlice(cmds, DISALLOW, 0);
    assert MatchAt(cmds, DISALLOW, 0);
    assert file[..8] == "/private";
    assert RuleAt(cmds, file, 0);
  }

  /** The only `Disallow:` of `Disallow: /private` is the one at its start. */
  lemma SingleDisallow(cmds: string)
    requires cmds == "Disallow: /private"
    ensures forall k :: MatchAt(cmds, DISALLOW, k) ==> k == 0
  {
    forall k | MatchAt(cmds, DISALLOW, k) ensures k == 0 {
      MatchAtAt(cmds, DISALLOW, k, 0);
    }
  }

  /** `Disallow: /private` is no rule for `/public/page.html`. */
  lemma PublicAllowed(cmds: string, file: string)
    requires cmds == "Disallow: /private" && file == "/public/page.html"
    ensures !Disallowed(cmds, file)
  {
    PrivateToken(cmds);
    assert !StartsWith(file, "/private") by {
      assert file[..8][2] != "/private"[2];
    }
    assert !RuleAt(cmds, file, 0);
    SingleDisallow(cmds);
  }

  /**
    With robots.txt reading `Disallow: /private`, the page `/private/page.html`
    is refused and `/public/page.html` is allowed.
  */
  lemma PolitenessExample(url: Url, ops: UrlOps, fetchRobots: Url -> Option<string>, cmds: string)
    requires cmds == "Disallow: /private"
    requires RobotsUrl(url, ops).Some? && fetchRobots(RobotsUrl(url, ops).value) == Some(cmds)
    ensures ops.file(url) == "/private/page.html" ==> !RobotPolicy(url, ops, fetchRobots)
    ensures ops.file(url) == "/public/page.html" ==> RobotPolicy(url, ops, fetchRobots)
  {
    if ops.file(url) == "/private/page.html" {
      PrivateDisallowed(cmds, ops.file(url));
    } else if ops.file(url) == "/public/page.html" {
      PublicAllowed(cmds, ops.file(url));
    }
  }

  // ---------------------------------------------------------------------------
  // The extractor

  /** The target is read between the quotes when neither the prefix nor the target holds one. */
  lemma QuotedTarget(h: string, q: nat, c: nat)
    requires q + 2 <= c < |h| && h[q] == '"' && h[c] == '"'
    requires '"' !in h[..q] && '"' !in h[q + 2..c]
    ensures QuotesOk(h) && UrlToken(h) == h[q + 1..c]
  {
    IndexOfFindsChar(h, '"', 0, q);
    IndexOfFindsChar(h, '"', q + 2, c);
  }

  /** The next-words scan starts one character past the markup: a word glued to `</A>` loses its first letter. */
  lemma NextWordsSkipOneCharacter(markup: string, page: string)
    requires markup == "<A href=\"x.html\">text</A>" && page == markup + "more"
    ensures NextWordsOk(markup, page)
    ensures NextFiveWords(markup, page) == ["ore"]
  {
    assert |markup| == 25 && |page| == 29 && page[..25] == markup && page[26..] == "ore" && page[26] == 'o';
    PrefixAtIsSlice(page, markup, 0);
    IndexOfFinds(page, markup, 0, 0);
    assert SkipBlanks(page, 26) == 26;
    assert !HasRegexSpace("ore");
  }

  /** A target that does not end in `html` or `htm` yields no link. */
  lemma NonPageTargetExample(markup: string, base: Url, ops: UrlOps)
    requires markup == "<A href=\"x.pdf\">text</A>"
    ensures QuotesOk(markup)
    ensures ExtractUrl(markup, base, ops) == None
  {
    SliceIs(markup, 0, "<A href=");
    SliceIs(markup, 9, "x.pdf");
    SliceIs(markup, 10, ".pdf");
    assert markup[8] == '"' && markup[14] == '"';
    QuotedTarget(markup, 8, 14);
    assert UrlToken(markup) == "x.pdf";
    assert "x.pdf"[1..] != "html" by { assert "x.pdf"[1..][0] != "html"[0]; }
    assert "x.pdf"[2..] != "htm" by { assert "x.pdf"[2..][0] != "htm"[0]; }
  }
}
