/**
  The frontier and the crawl loop of WebCrawlerApp/WebCrawler.java: a priority
  queue of scored URLs, the set of URL strings already fetched, and the loop
  that polls the best entry, checks robots.txt, fetches the page and enqueues
  the page's outlinks with their scores.
*/
module Crawler {
  import opened Wrappers
  import opened JavaText
  import opened Net
  import opened URLScores
  import opened URLScoreComparator
  import opened ReturnValues
  import opened Extractor
  import opened Scorer
  import opened Robots

  /**
    What the crawler gets from outside its own code: the URL library, the page
    download (`""` on failure), the robots.txt download (`None` for an
    IOException), the order in which a `HashSet` of the query's words is walked,
    and which pending entry the walk over the priority queue meets first.
  */
  datatype Env = Env(
    ops: UrlOps,
    fetch: Url -> string,
    fetchRobots: Url -> Option<string>,
    queryOrder: seq<string>,
    firstMatch: (multiset<Entry>, string) -> Option<Entry>
  )

  /** `m` is what the walk over `pending` can stop at when looking for `link`. */
  predicate IsFirstMatch(pending: multiset<Entry>, link: string, m: Option<Entry>) {
    (m.None? <==> forall e :: e in pending ==> e.url.text != link) &&
    (m.Some? ==> m.value in pending && m.value.url.text == link)
  }

  /** The walk over the queue stops at an entry with the link's URL string, if there is one. */
  ghost predicate FirstMatchOk(env: Env) {
    forall pending, link :: IsFirstMatch(pending, link, env.firstMatch(pending, link))
  }

  /** `processHrefLink` returns a context and its URL string parses again. */
  predicate Scored(env: Env, base: Url, page: string, h: string)
    requires LinkDefined(h, base, page, env.ops)
  {
    var c := LinkContextOf(h, base, page, env.ops);
    c.Some? && env.ops.parse(c.value.url).Some?
  }

  /** Handling outlink `h` of `page` throws no exception. */
  predicate LinkOk(env: Env, query: Option<string>, base: Url, page: string, h: string) {
    LinkDefined(h, base, page, env.ops) &&
    (Scored(env, base, page, h) ==> ScoreDefined(query, env.queryOrder, page))
  }

  /** Finding and handling the outlinks of `page`, fetched from `base`, throws no exception. */
  predicate PageOk(env: Env, query: Option<string>, base: Url, page: string) {
    ClosedAfter(page, 0) &&
    forall h :: h in Outlinks(page) ==> LinkOk(env, query, base, page, h)
  }

  /** The score `score(...)` gives the link of context `c` found on `page`. */
  function LinkScore(env: Env, query: Option<string>, page: string, c: LinkContext): int
    requires ScoreDefined(query, env.queryOrder, page)
  {
    ScoreOf(query, env.queryOrder, c.url, c.anchor, c.prvFiveWords, c.nextFiveWords, page)
  }

  /**
    The entry that handling outlink `h` adds to `pending`, if any: none when the
    link yields no context, does not parse or was already fetched; otherwise a
    copy of the first pending entry with that URL string carrying the summed
    score, or a new entry with the link's own score.
  */
  function LinkEntry(env: Env, query: Option<string>, seen: set<string>, pending: multiset<Entry>,
                     base: Url, page: string, h: string): Option<Entry>
    requires LinkOk(env, query, base, page, h)
  {
    var c := LinkContextOf(h, base, page, env.ops);
    if c.None? then None
    else
      var link := c.value.url;
      match env.ops.parse(link)
      case None => None
      case Some(linkAsUrl) =>
        var s := LinkScore(env, query, page, c.value);
        if link in seen then None
        else Some(MergedEntry(env, pending, link, linkAsUrl, s))
  }

  /**
    The entry queued for a link not yet fetched: a copy of the first pending
    entry with the same URL string whose score is that entry's plus `s`, or
    the link's own URL with score `s` when there is none.
  */
  function MergedEntry(env: Env, pending: multiset<Entry>, link: string, linkAsUrl: Url, s: int): Entry {
    match env.firstMatch(pending, link)
    case Some(m) => Entry(m.url, m.score + s)
    case None => Entry(linkAsUrl, s)
  }

  /** The queue after the outlinks `links` of `page` have been handled in order. */
  function AfterLinks(env: Env, query: Option<string>, seen: set<string>, pending: multiset<Entry>,
                      base: Url, page: string, links: seq<string>): multiset<Entry>
    requires forall h :: h in links ==> LinkOk(env, query, base, page, h)
    decreases |links|
  {
    if links == [] then pending
    else
      var rest := AfterLinks(env, query, seen, pending, base, page, links[..|links| - 1]);
      Added(rest, LinkEntry(env, query, seen, rest, base, page, links[|links| - 1]))
  }

  /** The queue with the entry an outlink yields, if any, added. */
  function Added(pending: multiset<Entry>, e: Option<Entry>): multiset<Entry> {
    if e.None? then pending else pending + multiset{e.value}
  }

  /**
    Handling one outlink: it adds an entry exactly when the link yields a
    context, parses and is not in `seen`; the entry then carries the link's score,
    plus the score of a pending entry with the same URL string when one exists.
  */
  lemma LinkEntryShape(env: Env, query: Option<string>, seen: set<string>, pending: multiset<Entry>,
                       base: Url, page: string, h: string)
    requires FirstMatchOk(env)
    requires LinkOk(env, query, base, page, h)
    ensures var r := LinkEntry(env, query, seen, pending, base, page, h);
      var c := LinkContextOf(h, base, page, env.ops);
      (r.Some? <==> c.Some? && env.ops.parse(c.value.url).Some? && c.value.url !in seen) &&
      (r.Some? && (forall e :: e in pending ==> e.url.text != c.value.url) ==>
        r.value == Entry(env.ops.parse(c.value.url).value, LinkScore(env, query, page, c.value))) &&
      (r.Some? && (exists e :: e in pending && e.url.text == c.value.url) ==>
        exists m :: m in pending && m.url.text == c.value.url &&
          r.value == Entry(m.url, m.score + LinkScore(env, query, page, c.value)))
  {
    var c := LinkContextOf(h, base, page, env.ops);
    if c.Some? {
      var link := c.value.url;
      assert IsFirstMatch(pending, link, env.firstMatch(pending, link));
    }
  }

  /** Handling outlinks never removes an entry and adds at most one entry per outlink. */
  lemma {:induction false} AfterLinksOnlyAdds(env: Env, query: Option<string>, seen: set<string>,
                                              pending: multiset<Entry>, base: Url, page: string, links: seq<string>)
    requires forall h :: h in links ==> LinkOk(env, query, base, page, h)
    ensures pending <= AfterLinks(env, query, seen, pending, base, page, links)
    ensures |AfterLinks(env, query, seen, pending, base, page, links)| <= |pending| + |links|
    decreases |links|
  {
    if links != [] {
      AfterLinksOnlyAdds(env, query, seen, pending, base, page, links[..|links| - 1]);
    }
  }

  /** The URL strings of a list of URLs with one more URL appended. */
  lemma TextsAppend(us: seq<Url>, u: Url)
    ensures (set v | v in us + [u] :: v.text) == (set v | v in us :: v.text) + {u.text}
  {
    assert forall v :: v in us + [u] <==> v in us || v == u;
  }

  /** A non-empty queue has an entry no other entry outscores. */
  lemma {:induction false} MaxExists(q: multiset<Entry>)
    requires q != multiset{}
    ensures exists m :: m in q && forall e :: e in q ==> e.score <= m.score
    decreases |q|
  {
    var x :| x in q;
    var rest := q - multiset{x};
    assert q == rest + multiset{x};
    if rest == multiset{} {
      assert q == multiset{x};
      assert forall e :: e in q ==> e == x;
    } else {
      MaxExists(rest);
      var m :| m in rest && forall e :: e in rest ==> e.score <= m.score;
      assert forall e :: e in q ==> e == x || e in rest;
      if x.score <= m.score {
        assert m in q;
      } else {
        assert forall e :: e in q ==> e.score <= x.score;
      }
    }
  }

  class WebCrawler {
    const startingURLStr: string   // -u
    const query: Option<string>    // -q, None when the flag is absent
    const maxNumPgs: int           // -m
    const env: Env

    var urlsToBeTraversed: multiset<Entry>
    var seenUrls: set<string>

    /** The oracles behave as described and no page the crawler can be handed makes it throw. */
    ghost predicate Configured() {
      FirstMatchOk(env) &&
      forall u :: PageOk(env, query, u, env.fetch(u))
    }

    /** An empty queue ordered by `URLScoreComparator` and no URL seen. */
    constructor (startingURLStr: string, query: Option<string>, maxNumPgs: int, env: Env)
      ensures this.startingURLStr == startingURLStr && this.query == query
      ensures this.maxNumPgs == maxNumPgs && this.env == env
      ensures urlsToBeTraversed == multiset{} && seenUrls == {}
    {
      this.startingURLStr := startingURLStr;
      this.query := query;
      this.maxNumPgs := maxNumPgs;
      this.env := env;
      urlsToBeTraversed := multiset{};
      seenUrls := {};
    }

    /** `initialize`: enqueue the starting URL with score 0, or nothing when it is malformed. */
    method Initialize()
      modifies this
      ensures env.ops.parse(startingURLStr).None? ==> urlsToBeTraversed == old(urlsToBeTraversed)
      ensures env.ops.parse(startingURLStr).Some? ==>
        urlsToBeTraversed == old(urlsToBeTraversed) + multiset{Entry(env.ops.parse(startingURLStr).value, 0)}
      ensures seenUrls == old(seenUrls)
    {
      var startUrl := env.ops.parse(startingURLStr);
      if startUrl.None? {
        return;
      }
      var startURLScore := new URLScore(startUrl.value);
      urlsToBeTraversed := urlsToBeTraversed + multiset{startURLScore.Value()};
    }

    /** `urlsToBeTraversed.poll()`: removes and returns an entry that compares first against every pending entry. */
    method Poll() returns (top: Entry)
      requires urlsToBeTraversed != multiset{}
      modifies this
      ensures top in old(urlsToBeTraversed)
      ensures forall e :: e in old(urlsToBeTraversed) ==> Compare(top, e) == -1
      ensures urlsToBeTraversed == old(urlsToBeTraversed) - multiset{top}
      ensures seenUrls == old(seenUrls)
    {
      MaxExists(urlsToBeTraversed);
      top :| top in urlsToBeTraversed && forall e :: e in urlsToBeTraversed ==> Compare(top, e) == -1;
      urlsToBeTraversed := urlsToBeTraversed - multiset{top};
    }

    /** `robotSafe(url)`: the robots.txt lookup, then the `Disallow:` scan on `url.getFile()`. */
    method RobotSafe(url: Url) returns (safe: bool)
      ensures safe == RobotPolicy(url, env.ops, env.fetchRobots)
    {
      var strHost := env.ops.host(url);
      var strRobot := "http://" + strHost + "/robots.txt";
      var urlRobot := env.ops.parse(strRobot);
      if urlRobot.None? {
        return false;
      }
      var strCommands := env.fetchRobots(urlRobot.value);
      if strCommands.None? {
        return true;
      }
      var strFileUrl := env.ops.file(url);
      safe := DisallowScan(strCommands.value, strFileUrl);
    }

    /** `new URLScore(url)` followed by `updateScore(score)`: the entry the queue receives. */
    static method NewScoredUrl(url: Url, score: int) returns (e: Entry)
      ensures e == Entry(url, score)
    {
      var urlScore := new URLScore(url);
      urlScore.UpdateScore(score);
      e := urlScore.Value();
    }

    /**
      The body of the loop in `processAndAddURLsOnCurrentPageToQueue` for one
      outlink: its context, its URL, its score, the seen test, the search of the
      queue for the same URL string and the new entry.
    */
    method ProcessOutlink(hrefLink: string, topScoredPage: Entry, pageContents: string)
      requires LinkOk(env, query, topScoredPage.url, pageContents, hrefLink)
      modifies this
      ensures urlsToBeTraversed ==
        Added(old(urlsToBeTraversed), LinkEntry(env, query, seenUrls, old(urlsToBeTraversed), topScoredPage.url, pageContents, hrefLink))
      ensures seenUrls == old(seenUrls)
    {
      var retval := ProcessHrefLink(hrefLink, topScoredPage.url, pageContents, env.ops);
      if retval.None? {
        return;
      }
      var link := retval.value.url;
      var anchor := retval.value.anchor;
      var prvFiveWords := retval.value.prvFiveWords;
      var nextFiveWords := retval.value.nextFiveWords;

      var linkAsUrl := env.ops.parse(link);
      if linkAsUrl.None? {
        return;
      }

      var urlLink := link;
      var scoreOfLink := Score(query, env.queryOrder, urlLink, anchor, prvFiveWords, nextFiveWords, pageContents);
      assert scoreOfLink == LinkScore(env, query, pageContents, retval.value);

      var linkAlreadyVisited := link in seenUrls;
      if linkAlreadyVisited {
        return;
      }
      EnqueueScoredLink(link, linkAsUrl.value, scoreOfLink);
    }

    /**
      The end of the loop body: look through the queue for an entry with the
      link's URL string and queue a copy of it with the summed score, or
      queue the link itself with its score. The old entry stays in the queue.
    */
    method EnqueueScoredLink(link: string, linkAsUrl: Url, scoreOfLink: int)
      modifies this
      ensures urlsToBeTraversed == old(urlsToBeTraversed) + multiset{MergedEntry(env, old(urlsToBeTraversed), link, linkAsUrl, scoreOfLink)}
      ensures seenUrls == old(seenUrls)
    {
      var matchingUrlInQueue := env.firstMatch(urlsToBeTraversed, link);
      if matchingUrlInQueue.Some? {
        var origScore := matchingUrlInQueue.value.score;
        var newScore := origScore + scoreOfLink;
        var newCopyOfExistingUrl := NewScoredUrl(matchingUrlInQueue.value.url, newScore);
        urlsToBeTraversed := urlsToBeTraversed + multiset{newCopyOfExistingUrl};
      } else {
        var newUrlScore := NewScoredUrl(linkAsUrl, scoreOfLink);
        urlsToBeTraversed := urlsToBeTraversed + multiset{newUrlScore};
      }
    }

    /**
      `processAndAddURLsOnCurrentPageToQueue`: each outlink is handled in turn
      against the queue as the earlier outlinks left it; `seenUrls` is only read.
    */
    method ProcessAndAddURLsOnCurrentPageToQueue(hrefOutlinksOnCurrentPage: seq<string>,
                                                  topScoredPage: Entry, pageContents: string)
      requires forall h :: h in hrefOutlinksOnCurrentPage ==> LinkOk(env, query, topScoredPage.url, pageContents, h)
      modifies this
      ensures urlsToBeTraversed == AfterLinks(env, query, seenUrls, old(urlsToBeTraversed),
                                              topScoredPage.url, pageContents, hrefOutlinksOnCurrentPage)
      ensures seenUrls == old(seenUrls)
    {
      var links := hrefOutlinksOnCurrentPage;
      for i := 0 to |links|
        invariant seenUrls == old(seenUrls)
        invariant urlsToBeTraversed ==
          AfterLinks(env, query, seenUrls, old(urlsToBeTraversed), topScoredPage.url, pageContents, links[..i])
      {
        assert links[..i + 1][..i] == links[..i];
        ProcessOutlink(links[i], topScoredPage, pageContents);
      }
      assert links[..|links|] == links;
    }

    /**
      One pass of the `crawl` loop. The polled entry is a best-scored pending
      entry, whether or not its URL was fetched before. A pop that robots.txt
      refuses is dropped without counting it or marking it seen. Otherwise the
      page is fetched, its URL string marked seen and the count raised; reaching
      the limit ends the crawl before the page's outlinks are handled.
    */
    method CrawlOnce(numPagesProcessed: int) returns (processed: int, limitReached: bool, ghost top: Entry)
      requires Configured()
      requires urlsToBeTraversed != multiset{} && numPagesProcessed < maxNumPgs
      modifies this
      ensures top in old(urlsToBeTraversed)
      ensures forall e :: e in old(urlsToBeTraversed) ==> top.score >= e.score
      ensures !RobotPolicy(top.url, env.ops, env.fetchRobots) ==>
        processed == numPagesProcessed && !limitReached &&
        seenUrls == old(seenUrls) && urlsToBeTraversed == old(urlsToBeTraversed) - multiset{top}
      ensures RobotPolicy(top.url, env.ops, env.fetchRobots) ==>
        processed == numPagesProcessed + 1 && seenUrls == old(seenUrls) + {top.url.text} &&
        limitReached == (processed >= maxNumPgs)
      ensures RobotPolicy(top.url, env.ops, env.fetchRobots) && limitReached ==>
        urlsToBeTraversed == old(urlsToBeTraversed) - multiset{top}
      ensures RobotPolicy(top.url, env.ops, env.fetchRobots) && !limitReached ==>
        var page := env.fetch(top.url);
        PageOk(env, query, top.url, page) &&
        urlsToBeTraversed ==
          AfterLinks(env, query, seenUrls, old(urlsToBeTraversed) - multiset{top}, top.url, page, Outlinks(page))
    {
      var topScoredPage := Poll();
      top := topScoredPage;

      var safe := RobotSafe(topScoredPage.url);
      if !safe {
        return numPagesProcessed, false, top;
      }

      var pageContents := env.fetch(topScoredPage.url);
      seenUrls := seenUrls + {topScoredPage.url.text};
      processed := numPagesProcessed + 1;

      if processed >= maxNumPgs {
        return processed, true, top;
      }
      limitReached := false;

      assert PageOk(env, query, topScoredPage.url, pageContents);
      var hrefOutlinksOnCurrentPage := FindHrefOutlinks(pageContents);
      ProcessAndAddURLsOnCurrentPageToQueue(hrefOutlinksOnCurrentPage, topScoredPage, pageContents);
    }

    /**
      `crawl`: poll, check and fetch until the queue is empty or `maxNumPgs`
      pages have been counted. The count never passes `maxNumPgs` (nor 0 when
      that is not positive), every counted page's URL string is added to
      `seenUrls`, and nothing else is.
    */
    method Crawl() returns (numPagesProcessed: int, ghost fetched: seq<Url>)
      requires Configured()
      modifies this
      ensures 0 <= numPagesProcessed == |fetched|
      ensures numPagesProcessed <= if maxNumPgs < 0 then 0 else maxNumPgs
      ensures numPagesProcessed < maxNumPgs ==> urlsToBeTraversed == multiset{}
      ensures seenUrls == old(seenUrls) + (set u | u in fetched :: u.text)
    {
      numPagesProcessed := 0;
      fetched := [];
      while urlsToBeTraversed != multiset{} && numPagesProcessed < maxNumPgs
        invariant 0 <= numPagesProcessed == |fetched|
        invariant numPagesProcessed <= if maxNumPgs < 0 then 0 else maxNumPgs
        invariant seenUrls == old(seenUrls) + (set u | u in fetched :: u.text)
        decreases maxNumPgs - numPagesProcessed, |urlsToBeTraversed|
      {
        ghost var seenBefore := seenUrls;
        ghost var fetchedBefore := fetched;
        var processed, limitReached, top := CrawlOnce(numPagesProcessed);
        if processed != numPagesProcessed {
          fetched := fetched + [top.url];
          TextsAppend(fetchedBefore, top.url);
        }
        numPagesProcessed := processed;
        if limitReached {
          return;
        }
      }
    }
  }
}
