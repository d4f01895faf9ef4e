/**
  The robots.txt half of `robotSafe` in WebCrawlerApp/WebCrawler.java: which
  pages a robots.txt text disallows, and the policy around fetching that text.
  Fetching itself is an oracle `fetchRobots` whose `None` stands for the
  IOException that makes the crawler assume it may go ahead.
*/
module Robots {
  import opened Wrappers
  import opened JavaText
  import opened Net

  const DISALLOW: string := "Disallow:"

  /**
    Occurrence `k` of `Disallow:` is a rule for `file`: the first token after it
    (default tokenizer delimiters, so possibly on a later line) is a prefix of `file`.
  */
  predicate RuleAt(cmds: string, file: string, k: int) {
    MatchAt(cmds, DISALLOW, k) &&
    var t := FirstToken(cmds[k + |DISALLOW|..]);
    t.Some? && StartsWith(file, t.value)
  }

  /** Some `Disallow:` line of `cmds` disallows `file`. */
  ghost predicate Disallowed(cmds: string, file: string) {
    exists k :: RuleAt(cmds, file, k)
  }

  /** What the scan loop answers when it resumes its search at `index`. */
  function ScanFrom(cmds: string, file: string, index: nat): bool
    requires index <= |cmds|
    decreases |cmds| - index
  {
    var i := IndexOf(cmds, DISALLOW, index);
    if i == -1 then true
    else
      DisallowBounds(cmds, index);
      var next := i + |DISALLOW|;
      match FirstToken(cmds[next..])
      case None => true
      case Some(tok) => if IndexOf(file, tok, 0) == 0 then false else ScanFrom(cmds, file, next)
  }

  /** A `Disallow:` found from `index` lies wholly at or after `index`. */
  lemma DisallowBounds(cmds: string, index: nat)
    ensures var i := IndexOf(cmds, DISALLOW, index);
      i == -1 || (index <= i && i + |DISALLOW| <= |cmds|)
  {
    IndexOfIsFirst(cmds, DISALLOW, index);
  }

  /** Two occurrences of `Disallow:` never overlap: no proper suffix of it is a prefix. */
  lemma DisallowDoesNotOverlap(s: string, i: int, j: int)
    requires MatchAt(s, DISALLOW, i) && MatchAt(s, DISALLOW, j) && i < j
    ensures i + |DISALLOW| <= j
  {
    if j < i + |DISALLOW| {
      MatchAtAt(s, DISALLOW, j, 0);
      MatchAtAt(s, DISALLOW, i, j - i);
    }
  }

  /** The search from `index` finds the first `Disallow:`, and the next one starts past its end. */
  lemma FirstDisallow(cmds: string, index: nat)
    requires index <= |cmds|
    ensures var i := IndexOf(cmds, DISALLOW, index);
      (i == -1 ==> forall k :: index <= k ==> !MatchAt(cmds, DISALLOW, k)) &&
      (i != -1 ==> (index <= i && i + |DISALLOW| <= |cmds| && MatchAt(cmds, DISALLOW, i) &&
        forall k :: index <= k && k != i && MatchAt(cmds, DISALLOW, k) ==> i + |DISALLOW| <= k))
  {
    var i := IndexOf(cmds, DISALLOW, index);
    IndexOfIsFirst(cmds, DISALLOW, index);
    if i != -1 {
      forall k | index <= k && k != i && MatchAt(cmds, DISALLOW, k)
        ensures i + |DISALLOW| <= k
      {
        DisallowDoesNotOverlap(cmds, i, k);
      }
    }
  }

  /** When only delimiters follow an occurrence, no later `Disallow:` exists. */
  lemma NothingAfterBlankRest(cmds: string, next: nat)
    requires next <= |cmds| && FirstToken(cmds[next..]).None?
    ensures forall k :: next <= k ==> !MatchAt(cmds, DISALLOW, k)
  {
    FirstTokenIsFirst(cmds[next..]);
    forall k | next <= k && MatchAt(cmds, DISALLOW, k)
      ensures false
    {
      MatchAtAt(cmds, DISALLOW, k, 0);
    }
  }

  /** The scan from `index` answers false exactly when a rule for `file` starts at `index` or later. */
  lemma {:induction false} ScanFromDecides(cmds: string, file: string, index: nat)
    requires index <= |cmds|
    ensures !ScanFrom(cmds, file, index) <==> exists k :: index <= k && RuleAt(cmds, file, k)
    decreases |cmds| - index
  {
    var i := IndexOf(cmds, DISALLOW, index);
    FirstDisallow(cmds, index);
    if i != -1 {
      var next := i + |DISALLOW|;
      var tok := FirstToken(cmds[next..]);
      if tok.None? {
        NothingAfterBlankRest(cmds, next);
        assert !RuleAt(cmds, file, i);
      } else {
        IndexOfZeroIsPrefix(file, tok.value);
        if IndexOf(file, tok.value, 0) == 0 {
          assert RuleAt(cmds, file, i);
        } else {
          ScanFromDecides(cmds, file, next);
          assert !RuleAt(cmds, file, i);
        }
      }
    }
  }

  /** The whole scan returns false iff some `Disallow:` rule is a prefix of the file path. */
  lemma ScanDecidesDisallowed(cmds: string, file: string)
    ensures !ScanFrom(cmds, file, 0) <==> Disallowed(cmds, file)
  {
    ScanFromDecides(cmds, file, 0);
    if Disallowed(cmds, file) {
      var k :| RuleAt(cmds, file, k);
      assert 0 <= k;
    }
  }

  /** One round of the scan: where the next `Disallow:` is and what the scan answers there. */
  lemma ScanFromStep(cmds: string, file: string, index: nat)
    requires index <= |cmds|
    ensures var i := IndexOf(cmds, DISALLOW, index);
      (i == -1 ==> ScanFrom(cmds, file, index)) &&
      (i != -1 ==> (index <= i && i + |DISALLOW| <= |cmds| &&
        var tok := FirstToken(cmds[i + |DISALLOW|..]);
        (tok.None? ==> ScanFrom(cmds, file, index)) &&
        (tok.Some? ==> (ScanFrom(cmds, file, index) ==
          (IndexOf(file, tok.value, 0) != 0 && ScanFrom(cmds, file, i + |DISALLOW|))))))
  {
    DisallowBounds(cmds, index);
    var i := IndexOf(cmds, DISALLOW, index);
    if i != -1 {
      var tok := FirstToken(cmds[i + |DISALLOW|..]);
      if tok.Some? {
        assert ScanFrom(cmds, file, index) ==
          (IndexOf(file, tok.value, 0) != 0 && ScanFrom(cmds, file, i + |DISALLOW|));
      }
    }
  }

  /**
    The `Disallow:` loop of `robotSafe`: each pass finds the next `Disallow:`,
    stops with true when no token follows it, and refuses as soon as the first
    token is a prefix of the file path.
  */
  method DisallowScan(strCommands: string, strFileUrl: string) returns (safe: bool)
    ensures safe == ScanFrom(strCommands, strFileUrl, 0)
  {
    var index := 0;
    ghost var verdict := ScanFrom(strCommands, strFileUrl, 0);
    while true
      invariant 0 <= index <= |strCommands|
      invariant ScanFrom(strCommands, strFileUrl, index) == verdict
      decreases |strCommands| - index
    {
      ScanFromStep(strCommands, strFileUrl, index);
      var found := IndexOf(strCommands, DISALLOW, index);
      if found == -1 {
        return true;
      }
      index := found + |DISALLOW|;
      var strPath := strCommands[index..];
      var st := FirstToken(strPath);
      if st.None? {
        return true;
      }
      var strDisallowed := st.value;
      if IndexOf(strFileUrl, strDisallowed, 0) == 0 {
        return false;
      }
    }
  }

  /** `"http://" + url.getHost() + "/robots.txt"` parsed as a URL. */
  function RobotsUrl(url: Url, ops: UrlOps): Option<Url> {
    ops.parse("http://" + ops.host(url) + "/robots.txt")
  }

  /**
    What `robotSafe(url)` answers: false when the robots.txt URL is malformed,
    true when it cannot be read, and otherwise true iff no `Disallow:` rule
    matches `url.getFile()`.
  */
  function RobotPolicy(url: Url, ops: UrlOps, fetchRobots: Url -> Option<string>): (safe: bool)
    ensures RobotsUrl(url, ops).None? ==> !safe
    ensures RobotsUrl(url, ops).Some? && fetchRobots(RobotsUrl(url, ops).value).None? ==> safe
    ensures RobotsUrl(url, ops).Some? && fetchRobots(RobotsUrl(url, ops).value).Some? ==>
      (safe <==> !Disallowed(fetchRobots(RobotsUrl(url, ops).value).value, ops.file(url)))
  {
    match RobotsUrl(url, ops)
    case None => false
    case Some(urlRobot) =>
      match fetchRobots(urlRobot)
      case None => true
      case Some(cmds) =>
        ScanDecidesDisallowed(cmds, ops.file(url));
        ScanFrom(cmds, ops.file(url), 0)
  }
}
