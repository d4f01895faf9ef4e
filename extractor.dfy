/**
  The link and context extractor of WebCrawlerApp/WebCrawler.java:
  `findHrefOutlinks`, `extractUrl`, `extractAnchor`, `getPrevFiveWords`,
  `getNextFiveWords`, `swallowWhiteSpacesAndNewLines` and `processHrefLink`.
  Inputs on which the Java code throws (a `substring` or `charAt` out of range)
  or loops forever are excluded by the `requires` clauses.
*/
module Extractor {
  import opened Wrappers
  import opened JavaText
  import opened Net
  import opened ReturnValues

  // ---------------------------------------------------------------------------
  // findHrefOutlinks

  /** Every `<A` at or after `from` has a `/A>` after it (otherwise the scan throws or loops). */
  predicate ClosedAfter(page: string, from: nat) {
    forall k :: from <= k < |page| && MatchAt(page, "<A", k) ==> IndexOf(page, "/A>", k) != -1
  }

  /** A markup `page[start..end]`: from an `<A` up to and including the first `/A>` after it. */
  datatype Span = Span(start: nat, end: nat)

  predicate IsMarkup(page: string, sp: Span) {
    sp.start + 5 <= sp.end <= |page| &&
    MatchAt(page, "<A", sp.start) && MatchAt(page, "/A>", sp.end - 3) &&
    forall k :: sp.start <= k < sp.end - 3 ==> !MatchAt(page, "/A>", k)
  }

  /** One round of the scan: where the next `<A` and its closing `/A>` are. */
  lemma MarkupStep(page: string, from: nat)
    requires ClosedAfter(page, from)
    requires IndexOf(page, "<A", from) != -1
    ensures var i := IndexOf(page, "<A", from);
      var j := IndexOf(page, "/A>", i);
      from <= i && i + 2 <= j && j + 3 <= |page| && page[j + 2] == '>' &&
      MatchAt(page, "<A", i) && ClosedAfter(page, j + 2)
  {
    var i := IndexOf(page, "<A", from);
    IndexOfIsFirst(page, "<A", from);
    var j := IndexOf(page, "/A>", i);
    IndexOfIsFirst(page, "/A>", i);
    assert "/A>"[1..] == "A>" && "A>"[1..] == ">";
  }

  /** The span found by one round is a markup. */
  lemma StepIsMarkup(page: string, from: nat)
    requires ClosedAfter(page, from)
    requires IndexOf(page, "<A", from) != -1
    ensures var i := IndexOf(page, "<A", from);
      IsMarkup(page, Span(i, IndexOf(page, "/A>", i) + 3))
  {
    MarkupStep(page, from);
    IndexOfIsFirst(page, "/A>", IndexOf(page, "<A", from));
  }

  /** No `<A` starts on the `>` that closes a markup. */
  lemma NotOpenAtClose(page: string, e: nat)
    requires e < |page| && page[e] == '>'
    ensures !MatchAt(page, "<A", e)
  {
    if e + 2 <= |page| {
      assert page[e..e + 2][0] == page[e];
    }
  }

  /**
    The markups the scan visits from `from` on, in page order (the next search
    starts on the `>` that closes the previous one).
  */
  function Markups(page: string, from: nat): seq<Span>
    requires ClosedAfter(page, from)
    decreases |page| - from
  {
    var i := IndexOf(page, "<A", from);
    if i == -1 then []
    else
      MarkupStep(page, from);
      var e := IndexOf(page, "/A>", i) + 2;
      [Span(i, e + 1)] + Markups(page, e)
  }

  /** The first visited markup, and where the scan resumes after it. */
  lemma MarkupsUnfold(page: string, from: nat)
    requires ClosedAfter(page, from)
    requires IndexOf(page, "<A", from) != -1
    ensures var i := IndexOf(page, "<A", from);
      var e := IndexOf(page, "/A>", i) + 2;
      from <= i < e < |page| && MatchAt(page, "<A", i) && !MatchAt(page, "<A", e) &&
      ClosedAfter(page, e) && Markups(page, from) == [Span(i, e + 1)] + Markups(page, e)
  {
    MarkupStep(page, from);
    NotOpenAtClose(page, IndexOf(page, "/A>", IndexOf(page, "<A", from)) + 2);
  }

  /**
    The first visited markup and where the scan resumes, without the facts about
    tags: `MarkupsUnfold` minus its tag facts, kept so that callers that only
    need positions do not pay for the tag reasoning.
  */
  lemma MarkupsNext(page: string, from: nat)
    requires ClosedAfter(page, from)
    requires IndexOf(page, "<A", from) != -1
    ensures var i := IndexOf(page, "<A", from);
      var e := IndexOf(page, "/A>", i) + 2;
      from <= i < e < |page| && ClosedAfter(page, e) && Markups(page, from) == [Span(i, e + 1)] + Markups(page, e)
  {
    MarkupStep(page, from);
  }

  /** Each visited markup lies within the page, at or after `from`. */
  lemma {:induction false} MarkupsWithin(page: string, from: nat, j: nat)
    requires ClosedAfter(page, from)
    requires j < |Markups(page, from)|
    ensures var sp := Markups(page, from)[j];
      from <= sp.start < sp.end <= |page|
    decreases j
  {
    MarkupsNext(page, from);
    var i := IndexOf(page, "<A", from);
    var e := IndexOf(page, "/A>", i) + 2;
    if j > 0 {
      MarkupsWithin(page, e, j - 1);
    }
  }

  /** Each visited markup lies after `from` and runs from its `<A` to the first `/A>` after it. */
  lemma {:induction false} MarkupsAreMarkups(page: string, from: nat, j: nat)
    requires ClosedAfter(page, from)
    requires j < |Markups(page, from)|
    ensures from <= Markups(page, from)[j].start
    ensures IsMarkup(page, Markups(page, from)[j])
    decreases j
  {
    MarkupsUnfold(page, from);
    var i := IndexOf(page, "<A", from);
    var e := IndexOf(page, "/A>", i) + 2;
    if j > 0 {
      MarkupsAreMarkups(page, e, j - 1);
    } else {
      StepIsMarkup(page, from);
    }
  }

  /**
    Each visited markup starts, after `from`, on an `<A` and ends within the page.
    This follows from `MarkupsAreMarkups` and `MarkupsWithin`; the direct
    induction is cheaper for the callers that need only these facts.
  */
  lemma {:induction false} MarkupsStartAtOpenTags(page: string, from: nat, j: nat)
    requires ClosedAfter(page, from)
    requires j < |Markups(page, from)|
    ensures var sp := Markups(page, from)[j];
      from <= sp.start < sp.end <= |page| && MatchAt(page, "<A", sp.start)
    decreases j
  {
    MarkupsUnfold(page, from);
    var i := IndexOf(page, "<A", from);
    var e := IndexOf(page, "/A>", i) + 2;
    if j > 0 {
      MarkupsStartAtOpenTags(page, e, j - 1);
    }
  }

  /** Visited markups do not overlap: each ends before the next one starts. */
  lemma {:induction false} MarkupsAreOrdered(page: string, from: nat, j: nat, j2: nat)
    requires ClosedAfter(page, from)
    requires j < j2 < |Markups(page, from)|
    ensures Markups(page, from)[j].end <= Markups(page, from)[j2].start
    decreases j
  {
    MarkupsUnfold(page, from);
    var i := IndexOf(page, "<A", from);
    var e := IndexOf(page, "/A>", i) + 2;
    if j > 0 {
      MarkupsAreOrdered(page, e, j - 1, j2 - 1);
    } else {
      MarkupsStartAtOpenTags(page, e, j2 - 1);
    }
  }

  /** Every `<A` at or after `from` is the start of a visited markup or lies inside one. */
  lemma {:induction false} MarkupsCoverEveryOpenTag(page: string, from: nat, k: int)
    requires ClosedAfter(page, from)
    requires from <= k && MatchAt(page, "<A", k)
    ensures exists j :: (0 <= j < |Markups(page, from)| &&
      Markups(page, from)[j].start <= k < Markups(page, from)[j].end)
    decreases |page| - from
  {
    IndexOfIsFirst(page, "<A", from);
    MarkupsUnfold(page, from);
    var i := IndexOf(page, "<A", from);
    var e := IndexOf(page, "/A>", i) + 2;
    var ms := Markups(page, from);
    if k < e + 1 {
      assert ms[0].start <= k < ms[0].end;
    } else {
      MarkupsCoverEveryOpenTag(page, e, k);
      var j' :| 0 <= j' < |Markups(page, e)| && Markups(page, e)[j'].start <= k < Markups(page, e)[j'].end;
      assert ms[j' + 1] == Markups(page, e)[j'];
    }
  }

  /** The test `pageContents.toLowerCase().indexOf("href", index) != -1`. */
  predicate HasHrefFrom(page: string, i: int) {
    IndexOf(ToLower(page), "href", i) != -1
  }

  /** What the scan collects from `from` on: each markup that passes the `href` test, in order. */
  function OutlinksFrom(page: string, from: nat): seq<string>
    requires ClosedAfter(page, from)
    decreases |page| - from
  {
    var i := IndexOf(page, "<A", from);
    if i == -1 then []
    else
      MarkupStep(page, from);
      var e := IndexOf(page, "/A>", i) + 2;
      (if HasHrefFrom(page, i) then [page[i..e + 1]] else []) + OutlinksFrom(page, e)
  }

  /** One round of the scan, and where it resumes. */
  lemma OutlinksUnfold(page: string, from: nat)
    requires ClosedAfter(page, from)
    requires IndexOf(page, "<A", from) != -1
    ensures var i := IndexOf(page, "<A", from);
      var e := IndexOf(page, "/A>", i) + 2;
      from <= i < e < |page| && ClosedAfter(page, e) &&
      OutlinksFrom(page, from) == (if HasHrefFrom(page, i) then [page[i..e + 1]] else []) + OutlinksFrom(page, e)
  {
    MarkupStep(page, from);
  }

  lemma AppendAssociates(a: seq<string>, b: seq<string>, c: seq<string>)
    ensures (a + b) + c == a + (b + c)
  {
  }

  /** What `findHrefOutlinks(page)` returns. */
  function Outlinks(page: string): seq<string>
    requires ClosedAfter(page, 0)
  {
    OutlinksFrom(page, 0)
  }

  /** Once no `href` follows a position, none follows any later one. */
  lemma NoHrefLater(page: string, a: int, b: int)
    requires 0 <= a <= b && !HasHrefFrom(page, a)
    ensures !HasHrefFrom(page, b)
  {
    IndexOfIsFirst(ToLower(page), "href", a);
    IndexOfIsFirst(ToLower(page), "href", b);
  }

  /** With no `href` from position `a` on, the scan from any later point collects nothing. */
  lemma {:induction false} NoHrefNoOutlinks(page: string, from: nat, a: int)
    requires ClosedAfter(page, from)
    requires 0 <= a <= from && !HasHrefFrom(page, a)
    ensures OutlinksFrom(page, from) == []
    decreases |page| - from
  {
    var i := IndexOf(page, "<A", from);
    if i != -1 {
      OutlinksUnfold(page, from);
      NoHrefLater(page, a, i);
      NoHrefNoOutlinks(page, IndexOf(page, "/A>", i) + 2, a);
    }
  }

  /**
    The outlinks are the texts of the first visited markups, in order, and each
    of them passes the `href` test ...
  */
  lemma {:induction false} OutlinkIsMarkup(page: string, from: nat, j: nat)
    requires ClosedAfter(page, from)
    requires j < |OutlinksFrom(page, from)|
    ensures j < |Markups(page, from)|
    ensures var sp := Markups(page, from)[j];
      sp.start <= sp.end <= |page| && OutlinksFrom(page, from)[j] == page[sp.start..sp.end] &&
      HasHrefFrom(page, sp.start)
    decreases |page| - from
  {
    MarkupsNext(page, from);
    var i := IndexOf(page, "<A", from);
    var e := IndexOf(page, "/A>", i) + 2;
    var tail := OutlinksFrom(page, e);
    if HasHrefFrom(page, i) {
      assert OutlinksFrom(page, from) == [page[i..e + 1]] + tail;
      if j > 0 {
        OutlinkIsMarkup(page, e, j - 1);
      }
    } else {
      NoHrefNoOutlinks(page, e, i);
      assert false;
    }
  }

  /**
    ... and a visited markup is left out only when no `href` (in any case)
    occurs from its start to the end of the page.
  */
  lemma {:induction false} DroppedMarkupHasNoHref(page: string, from: nat, j: nat)
    requires ClosedAfter(page, from)
    requires |OutlinksFrom(page, from)| <= j < |Markups(page, from)|
    ensures !HasHrefFrom(page, Markups(page, from)[j].start)
    decreases |page| - from
  {
    MarkupsNext(page, from);
    var i := IndexOf(page, "<A", from);
    var e := IndexOf(page, "/A>", i) + 2;
    var tail := OutlinksFrom(page, e);
    if HasHrefFrom(page, i) {
      assert OutlinksFrom(page, from) == [page[i..e + 1]] + tail;
      DroppedMarkupHasNoHref(page, e, j - 1);
    } else if j > 0 {
      MarkupsWithin(page, e, j - 1);
      NoHrefLater(page, i, Markups(page, e)[j - 1].start);
    }
  }

  /** One round of the scan, seen from the list collected so far. */
  lemma OutlinksStep(page: string, from: nat, acc: seq<string>)
    requires ClosedAfter(page, from)
    requires IndexOf(page, "<A", from) != -1
    ensures var i := IndexOf(page, "<A", from);
      var e := IndexOf(page, "/A>", i) + 2;
      from <= i < e < |page| && ClosedAfter(page, e) &&
      acc + OutlinksFrom(page, from) ==
        (if HasHrefFrom(page, i) then acc + [page[i..e + 1]] else acc) + OutlinksFrom(page, e)
  {
    OutlinksUnfold(page, from);
    var i := IndexOf(page, "<A", from);
    var e := IndexOf(page, "/A>", i) + 2;
    if HasHrefFrom(page, i) {
      AppendAssociates(acc, [page[i..e + 1]], OutlinksFrom(page, e));
    }
  }

  /** `findHrefOutlinks`: the scan for `<A` ... `/A>` markups containing an `href`. */
  method FindHrefOutlinks(pageContents: string) returns (outHreflinkUrls: seq<string>)
    requires ClosedAfter(pageContents, 0)
    ensures outHreflinkUrls == Outlinks(pageContents)
  {
    outHreflinkUrls := [];
    var lcpage := pageContents;
    var index, iEndAngle, ihref := 0, 0, 0;
    ghost var from: nat := 0;
    index := IndexOf(lcpage, "<A", index);
    while index != -1
      invariant ClosedAfter(lcpage, from) && from <= |lcpage|
      invariant index == IndexOf(lcpage, "<A", from)
      invariant outHreflinkUrls + OutlinksFrom(lcpage, from) == Outlinks(lcpage)
      decreases |lcpage| - from
    {
      OutlinksStep(lcpage, from, outHreflinkUrls);
      iEndAngle := IndexOf(lcpage, "/A>", index) + 2;
      var hrefStr := lcpage[index..iEndAngle + 1];
      ihref := IndexOf(ToLower(lcpage), "href", index);
      index := iEndAngle;
      from := iEndAngle;
      if ihref != -1 {
        outHreflinkUrls := outHreflinkUrls + [hrefStr];
      }
      index := IndexOf(lcpage, "<A", index);
    }
  }

  // ---------------------------------------------------------------------------
  // extractUrl

  /** `urlStartIdx`: one past the first quote (0 when there is none). */
  function UrlStart(h: string): int {
    IndexOf(h, "\"", 0) + 1
  }

  /** `urlEndIdx`: the next quote, searched from one past `urlStartIdx`. */
  function UrlEnd(h: string): int {
    IndexOf(h, "\"", UrlStart(h) + 1)
  }

  /** `substring(urlStartIdx, urlEndIdx)` does not throw. */
  predicate QuotesOk(h: string) {
    UrlEnd(h) != -1
  }

  /** The text `extractUrl` reads as the link target. */
  function UrlToken(h: string): string
    requires QuotesOk(h)
  {
    IndexOfIsFirst(h, "\"", UrlStart(h) + 1);
    h[UrlStart(h)..UrlEnd(h)]
  }

  /**
    The link target lies between the first quote of the markup and the next
    quote found from two positions past it, so an empty `""` does not end it.
  */
  lemma UrlTokenIsBetweenQuotes(h: string)
    requires QuotesOk(h)
    ensures var q := IndexOf(h, "\"", 0);
      var c := UrlEnd(h);
      0 <= q && q + 2 <= c < |h| && h[q] == '"' && h[c] == '"' &&
      (forall k :: 0 <= k < q ==> h[k] != '"') &&
      (forall k :: q + 2 <= k < c ==> h[k] != '"') &&
      UrlToken(h) == h[q + 1..c]
  {
    var q := IndexOf(h, "\"", 0);
    var c := UrlEnd(h);
    IndexOfIsFirst(h, "\"", 0);
    IndexOfIsFirst(h, "\"", q + 2);
    MatchAtChar(h, '"', c);
    if q == -1 {
      assert false;
    }
    MatchAtChar(h, '"', q);
    forall k | 0 <= k < q ensures h[k] != '"' {
      MatchAtChar(h, '"', k);
    }
    forall k | q + 2 <= k < c ensures h[k] != '"' {
      MatchAtChar(h, '"', k);
    }
  }

  /** The suffix test of `extractUrl`: case-sensitive, and no dot is required. */
  predicate HasPageSuffix(t: string) {
    EndsWith(t, "html") || EndsWith(t, "htm")
  }

  /**
    `extractUrl(hrefLink, oldUrl)`: `None` (Java's null) when the link target
    does not end in `html` or `htm`, or when `new URL(oldUrl, target)` fails.
  */
  function ExtractUrl(h: string, base: Url, ops: UrlOps): (r: Option<Url>)
    requires QuotesOk(h)
    ensures !HasPageSuffix(UrlToken(h)) ==> r == None
    ensures HasPageSuffix(UrlToken(h)) ==> r == ops.resolve(base, UrlToken(h))
  {
    var urlStr := UrlToken(h);
    if !EndsWith(urlStr, "html") && !EndsWith(urlStr, "htm") then None
    else ops.resolve(base, urlStr)
  }

  // ---------------------------------------------------------------------------
  // extractAnchor

  /** `substring(angleBracketEnd + 1, angleBracketOpen)` does not throw. */
  predicate AnchorOk(h: string) {
    IndexOf(h, "<", IndexOf(h, ">", 0)) != -1
  }

  /** `extractAnchor`: the text from just after the first `>` up to the next `<`. */
  function ExtractAnchor(h: string): (anchor: string)
    requires AnchorOk(h)
    ensures |anchor| < |h|
    ensures forall k :: 0 <= k < |anchor| ==> anchor[k] != '<'
  {
    var e := IndexOf(h, ">", 0);
    var o := IndexOf(h, "<", e);
    AnchorBounds(h);
    h[e + 1..o]
  }

  /** Where the anchor text lies: after the first `>` (or from 0 when there is none), before the next `<`. */
  lemma AnchorBounds(h: string)
    requires AnchorOk(h)
    ensures var e := IndexOf(h, ">", 0);
      var o := IndexOf(h, "<", e);
      e + 1 <= o < |h| && h[o] == '<' &&
      (e == -1 || h[e] == '>') &&
      (forall k :: 0 <= k < e || (e == -1 && 0 <= k < |h|) ==> h[k] != '>') &&
      (forall k :: e + 1 <= k < o ==> h[k] != '<')
  {
    var e := IndexOf(h, ">", 0);
    var o := IndexOf(h, "<", e);
    IndexOfIsFirst(h, ">", 0);
    IndexOfIsFirst(h, "<", e);
    MatchAtChar(h, '<', o);
    if e != -1 {
      MatchAtChar(h, '>', e);
      MatchAtChar(h, '<', e);
    }
    forall k | 0 <= k < e || (e == -1 && 0 <= k < |h|) ensures h[k] != '>' {
      MatchAtChar(h, '>', k);
    }
    forall k | e + 1 <= k < o ensures h[k] != '<' {
      MatchAtChar(h, '<', k);
    }
  }

  /**
    The anchor is exactly the text between the first `>` (the start of the
    markup when it has none) and the next `<` after it.
  */
  lemma AnchorIsBetweenBrackets(h: string)
    requires AnchorOk(h)
    ensures var e := IndexOf(h, ">", 0);
      var o := IndexOf(h, "<", e);
      -1 <= e < o < |h| && h[o] == '<' && (e == -1 || h[e] == '>') &&
      (forall k :: 0 <= k < e || (e == -1 && 0 <= k < |h|) ==> h[k] != '>') &&
      ExtractAnchor(h) == h[e + 1..o]
  {
    AnchorBounds(h);
  }

  // ---------------------------------------------------------------------------
  // getPrevFiveWords

  /** `s` back to front. */
  function Reversed(s: seq<string>): (r: seq<string>)
    ensures |r| == |s|
    ensures forall k :: 0 <= k < |s| ==> r[k] == s[|s| - 1 - k]
  {
    if s == [] then [] else Reversed(s[1..]) + [s[0]]
  }

  /** Reversing a suffix one element longer appends that element. */
  lemma ReversedStep(s: seq<string>, i: nat)
    requires i < |s|
    ensures Reversed(s[i..]) == Reversed(s[i + 1..]) + [s[i]]
  {
    var a := Reversed(s[i..]);
    var b := Reversed(s[i + 1..]) + [s[i]];
    assert |a| == |b|;
    forall k | 0 <= k < |a| ensures a[k] == b[k] {
      if k < |a| - 1 {
        assert b[k] == Reversed(s[i + 1..])[k];
      }
    }
  }

  /** What `getPrevFiveWords(hrefLink, pageContent)` returns. */
  function PrevFiveWords(h: string, page: string): seq<string> {
    var matchIdx := IndexOf(page, h, 0);
    if matchIdx == -1 then []
    else
      var words := Split(page[..matchIdx]);
      if |words| <= 5 then words else Reversed(words[|words| - 5..])
  }

  /**
    At most five words: none when the markup text is absent from the page, all
    the words before its first occurrence when there are at most five, and
    otherwise the last five of them in reverse page order.
  */
  lemma PrevFiveWordsAreLastFive(h: string, page: string)
    ensures |PrevFiveWords(h, page)| <= 5
    ensures IndexOf(page, h, 0) == -1 ==> PrevFiveWords(h, page) == []
    ensures var m := IndexOf(page, h, 0);
      m != -1 ==>
        var words := Split(page[..m]);
        (|words| <= 5 ==> PrevFiveWords(h, page) == words) &&
        (|words| > 5 ==> (|PrevFiveWords(h, page)| == 5 &&
          forall k :: 0 <= k < 5 ==> PrevFiveWords(h, page)[k] == words[|words| - 1 - k]))
  {
    var m := IndexOf(page, h, 0);
    if m != -1 {
      var words := Split(page[..m]);
      if |words| > 5 {
        assert PrevFiveWords(h, page) == Reversed(words[|words| - 5..]);
      }
    }
  }

  /** `getPrevFiveWords`, with its backwards copying loop. */
  method GetPrevFiveWords(hrefLink: string, pageContent: string) returns (wordsList: seq<string>)
    ensures wordsList == PrevFiveWords(hrefLink, pageContent)
  {
    var matchIdx := IndexOf(pageContent, hrefLink, 0);
    if matchIdx == -1 {
      return [];
    }
    var contentBeforeMatchIdx := pageContent[..matchIdx];
    var words := Split(contentBeforeMatchIdx);
    if |words| == 0 {
      return [];
    }
    if |words| <= 5 {
      wordsList := words;
    } else {
      wordsList := [];
      var count := 5;
      var i := |words| - 1;
      while count > 0
        invariant 0 <= count <= 5
        invariant i == |words| - 6 + count
        invariant wordsList == Reversed(words[i + 1..])
      {
        ReversedStep(words, i);
        wordsList := wordsList + [words[i]];
        i := i - 1;
        count := count - 1;
      }
    }
  }

  // ---------------------------------------------------------------------------
  // swallowWhiteSpacesAndNewLines and getNextFiveWords

  /** The characters `swallowWhiteSpacesAndNewLines` skips. */
  predicate IsSwallowed(c: char) {
    c == ' ' || c == '\t' || c == '\n'
  }

  /** The first position at or after `i` whose character is not skipped (or |page|). */
  function SkipBlanks(page: string, i: nat): (j: nat)
    requires i <= |page|
    ensures i <= j <= |page|
    ensures forall k :: i <= k < j ==> IsSwallowed(page[k])
    ensures j < |page| ==> !IsSwallowed(page[j])
    decreases |page| - i
  {
    if i == |page| || !IsSwallowed(page[i]) then i else SkipBlanks(page, i + 1)
  }

  /** `swallowWhiteSpacesAndNewLines`: it reads `charAt` until a character it does not skip. */
  method SwallowWhiteSpacesAndNewLines(startSearchIdx: int, pageContent: string) returns (r: int)
    requires 0 <= startSearchIdx <= |pageContent|
    requires SkipBlanks(pageContent, startSearchIdx) < |pageContent|
    ensures r == SkipBlanks(pageContent, startSearchIdx)
  {
    r := startSearchIdx;
    while pageContent[r] == ' ' || pageContent[r] == '\t' || pageContent[r] == '\n'
      invariant startSearchIdx <= r <= SkipBlanks(pageContent, startSearchIdx)
      decreases |pageContent| - r
    {
      r := r + 1;
    }
  }

  /** `startSearchIdx` of `getNextFiveWords`: one past the end of the first occurrence of the markup. */
  function NextStart(h: string, page: string): int {
    IndexOf(page, h, 0) + |h| + 1
  }

  /** `getNextFiveWords` does not throw: it stops at the end of the page, or finds a character it does not skip. */
  predicate NextWordsOk(h: string, page: string) {
    var s := NextStart(h, page);
    s == |page| || (0 <= s < |page| && SkipBlanks(page, s) < |page|)
  }

  /** What `getNextFiveWords(hrefLink, pageContent)` returns. */
  function NextFiveWords(h: string, page: string): seq<string>
    requires NextWordsOk(h, page)
  {
    var s := NextStart(h, page);
    if s == |page| then []
    else
      var words := Split(page[SkipBlanks(page, s)..]);
      if |words| <= 5 then words else words[..5]
  }

  /**
    At most five words, the first ones in page order of the text that follows
    the skipped characters after the markup; none when the markup ends one
    character before the end of the page.
  */
  lemma NextFiveWordsAreFirstFive(h: string, page: string)
    requires NextWordsOk(h, page)
    ensures |NextFiveWords(h, page)| <= 5
    ensures NextStart(h, page) == |page| ==> NextFiveWords(h, page) == []
    ensures var s := NextStart(h, page);
      s != |page| ==>
        var words := Split(page[SkipBlanks(page, s)..]);
        |NextFiveWords(h, page)| == (if |words| <= 5 then |words| else 5) &&
        NextFiveWords(h, page) <= words
  {
  }

  /** `getNextFiveWords`, with its forward copying loop. */
  method GetNextFiveWords(hrefLink: string, pageContent: string) returns (wordsList: seq<string>)
    requires NextWordsOk(hrefLink, pageContent)
    ensures wordsList == NextFiveWords(hrefLink, pageContent)
  {
    var startSearchIdx := IndexOf(pageContent, hrefLink, 0) + |hrefLink| + 1;
    if startSearchIdx == |pageContent| {
      return [];
    }
    startSearchIdx := SwallowWhiteSpacesAndNewLines(startSearchIdx, pageContent);
    var contentAfterHrefLinkEnd := pageContent[startSearchIdx..];
    var words := Split(contentAfterHrefLinkEnd);
    if |words| == 0 {
      return [];
    }
    if |words| <= 5 {
      wordsList := words;
    } else {
      wordsList := [];
      var count := 5;
      for i := 0 to count
        invariant wordsList == words[..i]
      {
        wordsList := wordsList + [words[i]];
      }
    }
  }

  // ---------------------------------------------------------------------------
  // processHrefLink

  /** `processHrefLink` does not throw: quotes are present, and when a URL is found, the anchor and next-word scans succeed. */
  predicate LinkDefined(h: string, base: Url, page: string, ops: UrlOps) {
    QuotesOk(h) && (ExtractUrl(h, base, ops).Some? ==> AnchorOk(h) && NextWordsOk(h, page))
  }

  /** What `processHrefLink(hrefLink, oldUrl, pageContent)` returns (`None` for null). */
  function LinkContextOf(h: string, base: Url, page: string, ops: UrlOps): Option<LinkContext>
    requires LinkDefined(h, base, page, ops)
  {
    match ExtractUrl(h, base, ops)
    case None => None
    case Some(newUrl) =>
      Some(LinkContext(PrevFiveWords(h, page), NextFiveWords(h, page), ExtractAnchor(h), newUrl.text))
  }

  /**
    A link yields a context exactly when its target ends in `html` or `htm` and
    resolves against the page URL; the context then holds at most five words on
    either side, an anchor without `<`, and the resolved URL's text.
  */
  lemma LinkContextShape(h: string, base: Url, page: string, ops: UrlOps)
    requires LinkDefined(h, base, page, ops)
    ensures LinkContextOf(h, base, page, ops).Some? <==>
      HasPageSuffix(UrlToken(h)) && ops.resolve(base, UrlToken(h)).Some?
    ensures LinkContextOf(h, base, page, ops).Some? ==>
      var c := LinkContextOf(h, base, page, ops).value;
      |c.prvFiveWords| <= 5 && |c.nextFiveWords| <= 5 &&
      (forall k :: 0 <= k < |c.anchor| ==> c.anchor[k] != '<') &&
      c.url == ops.resolve(base, UrlToken(h)).value.text
  {
    if LinkContextOf(h, base, page, ops).Some? {
      PrevFiveWordsAreLastFive(h, page);
      NextFiveWordsAreFirstFive(h, page);
    }
  }

  /** `processHrefLink`: the URL first, then the anchor and the words on either side. */
  method ProcessHrefLink(hrefLink: string, oldUrl: Url, pageContent: string, ops: UrlOps)
    returns (r: Option<LinkContext>)
    requires LinkDefined(hrefLink, oldUrl, pageContent, ops)
    ensures r == LinkContextOf(hrefLink, oldUrl, pageContent, ops)
  {
    var newUrl := ExtractUrl(hrefLink, oldUrl, ops);
    if newUrl.None? {
      return None;
    }
    var anchorText := ExtractAnchor(hrefLink);
    var prevFiveWords := GetPrevFiveWords(hrefLink, pageContent);
    var nextFiveWords := GetNextFiveWords(hrefLink, pageContent);
    return Some(LinkContext(prevFiveWords, nextFiveWords, anchorText, newUrl.value.text));
  }
}
