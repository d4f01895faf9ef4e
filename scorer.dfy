/**
  The relevance scorer of WebCrawlerApp/WebCrawler.java: `score` and its helper
  `blurUrls`. The query words are a `HashSet`, whose iteration order Java leaves
  unspecified; the model takes that order as a parameter, a duplicate-free
  sequence holding exactly the set's words.
*/
module Scorer {
  import opened Wrappers
  import opened JavaText

  // ---------------------------------------------------------------------------
  // blurUrls

  /**
    `blurUrls(s)` neither throws nor runs forever: every `<a` it meets is not at
    position 0 and has a `>` after it (a missing `>` makes the text grow forever).
  */
  predicate BlurOk(s: string)
    decreases |s|
  {
    var b := IndexOf(s, "<a", 0);
    IndexOfIsFirst(s, "<a", 0);
    b == -1 ||
    (b > 0 &&
     var e := IndexOf(s, ">", b);
     IndexOfIsFirst(s, ">", b);
     e != -1 && BlurOk(s[..b - 1] + s[e + 1..]))
  }

  /** One round of `blurUrls`: drop the character before the first `<a` and everything up to the next `>`. */
  function BlurRound(s: string): (r: string)
    requires IndexOf(s, "<a", 0) > 0 && IndexOf(s, ">", IndexOf(s, "<a", 0)) != -1
    ensures |r| < |s|
  {
    var b := IndexOf(s, "<a", 0);
    var e := IndexOf(s, ">", b);
    IndexOfIsFirst(s, ">", b);
    s[..b - 1] + s[e + 1..]
  }

  /** What `blurUrls(s)` returns: rounds are repeated until no `<a` is left. */
  function Blur(s: string): (r: string)
    requires BlurOk(s)
    ensures |r| <= |s|
    ensures IndexOf(r, "<a", 0) == -1
    ensures IndexOf(s, "<a", 0) == -1 ==> r == s
    ensures IndexOf(s, "<a", 0) != -1 ==> |r| < |s|
    decreases |s|
  {
    if IndexOf(s, "<a", 0) == -1 then s else Blur(BlurRound(s))
  }

  /**
    A round cuts out exactly the text from the character before the first `<a`
    (at `b`) through the first `>` at or after it (at `e`), and `blurUrls` then
    goes on with what is left.
  */
  lemma BlurRoundDeletes(s: string, b: nat, e: nat)
    requires 0 < b && MatchAt(s, "<a", b) && forall k :: 0 <= k < b ==> !MatchAt(s, "<a", k)
    requires b <= e < |s| && s[e] == '>' && '>' !in s[b..e]
    ensures IndexOf(s, "<a", 0) == b && IndexOf(s, ">", b) == e
    ensures BlurRound(s) == s[..b - 1] + s[e + 1..]
    ensures BlurOk(s) ==> BlurOk(BlurRound(s)) && Blur(s) == Blur(s[..b - 1] + s[e + 1..])
  {
    IndexOfFinds(s, "<a", 0, b);
    IndexOfFindsChar(s, '>', b, e);
  }

  /** `blurUrls`, with its loop that rebuilds the text. */
  method BlurUrls(lcPageContents: string) returns (r: string)
    requires BlurOk(lcPageContents)
    ensures r == Blur(lcPageContents)
  {
    r := lcPageContents;
    var idxUrlBegin := IndexOf(r, "<a", 0);
    var start := 0;
    while idxUrlBegin != -1
      invariant BlurOk(r) && Blur(r) == Blur(lcPageContents)
      invariant idxUrlBegin == IndexOf(r, "<a", 0)
      decreases |r|
    {
      var idxUrlEnd := IndexOf(r, ">", idxUrlBegin);
      IndexOfIsFirst(r, ">", idxUrlBegin);
      r := r[start..idxUrlBegin - 1] + r[idxUrlEnd + 1..];
      idxUrlBegin := IndexOf(r, "<a", 0);
    }
  }

  // ---------------------------------------------------------------------------
  // The words of the query and of the page body

  /** The lower-cased query split on `\s+`, as a set. */
  function QueryWords(query: string): set<string> {
    set w | w in Split(ToLower(query))
  }

  /** `lettersOnlyWordsSet`: the words of the page once links are blurred and everything but letters is blanked. */
  function BodyWords(page: string): set<string>
    requires BlurOk(ToLower(page))
  {
    set w | w in Split(LettersAndSpaces(NewlinesToSpaces(Blur(ToLower(page)))))
  }

  /** `order` lists each element of `words` exactly once: one iteration order of the `HashSet`. */
  predicate IsIterationOrder(order: seq<string>, words: set<string>) {
    (forall i, j :: 0 <= i < j < |order| ==> order[i] != order[j]) &&
    (set w | w in order) == words
  }

  /** `score` neither throws nor runs forever, and `order` is how it walks the query's words. */
  predicate ScoreDefined(query: Option<string>, order: seq<string>, page: string) {
    query.Some? ==> IsIterationOrder(order, QueryWords(query.value)) && BlurOk(ToLower(page))
  }

  // ---------------------------------------------------------------------------
  // The first two tiers

  /** The query words that occur in the lower-cased anchor; `commonWordsBtwnQueryAndAnchor` is their number. */
  function AnchorHits(words: set<string>, anchor: string): set<string> {
    set w | w in words && Contains(ToLower(anchor), w)
  }

  /** `wordInQuerySubstringOfUrl`: some query word occurs in the lower-cased URL. */
  predicate UrlHit(words: set<string>, url: string) {
    exists w :: w in words && Contains(ToLower(url), w)
  }

  // ---------------------------------------------------------------------------
  // The fallback tier: u, v and seenWords

  /** The counters `u`, `v` and the set `seenWords` of the fallback tier. */
  datatype Tally = Tally(u: nat, v: nat, seen: set<string>)

  /**
    The key a context word is recorded under in `seenWords`: a previous word is
    lower-cased before `\W` is stripped, a next word is stripped in its own case.
  */
  function Key(w: string, lowered: bool): string {
    if lowered then StripNonWord(ToLower(w)) else StripNonWord(w)
  }

  /** One context word for one query word: skipped if its key is seen, else counted when it contains the query word. */
  function ContextStep(qw: string, w: string, lowered: bool, t: Tally): Tally {
    var key := Key(w, lowered);
    if key in t.seen then t
    else if Contains(ToLower(w), qw) then Tally(t.u + 1, t.v, t.seen + {key})
    else t
  }

  /** One inner loop of `score` over `words` for the query word `qw`. */
  function ContextPass(qw: string, words: seq<string>, lowered: bool, t: Tally): Tally
    decreases |words|
  {
    if words == [] then t
    else ContextStep(qw, words[|words| - 1], lowered, ContextPass(qw, words[..|words| - 1], lowered, t))
  }

  /** One round of the outer loop for the query word `qw`: both context passes, then the body-word test. */
  function QueryWordStep(qw: string, prv: seq<string>, next: seq<string>, body: set<string>, t: Tally): Tally {
    var t2 := ContextPass(qw, next, false, ContextPass(qw, prv, true, t));
    if qw in t2.seen then t2
    else if qw in body then t2.(v := t2.v + 1)
    else t2
  }

  /** The outer loop of the fallback tier over the query words, in iteration order. */
  function Overlap(order: seq<string>, prv: seq<string>, next: seq<string>, body: set<string>): Tally
    decreases |order|
  {
    if order == [] then Tally(0, 0, {})
    else QueryWordStep(order[|order| - 1], prv, next, body, Overlap(order[..|order| - 1], prv, next, body))
  }

  function Abs(x: int): nat {
    if x < 0 then -x else x
  }

  /** What `score(query, urlOfOutlink, anchor, prvFiveWords, nextFiveWords, pageContents)` returns. */
  function ScoreOf(query: Option<string>, order: seq<string>, url: string, anchor: string,
                   prv: seq<string>, next: seq<string>, page: string): (r: int)
    requires ScoreDefined(query, order, page)
  {
    if query.None? then 0
    else
      var words := QueryWords(query.value);
      var common := |AnchorHits(words, anchor)|;
      if common != 0 then common * 50
      else if UrlHit(words, url) then 40
      else
        var t := Overlap(order, prv, next, BodyWords(page));
        4 * t.u + Abs(t.v - t.u)
  }

  // ---------------------------------------------------------------------------
  // Properties of the score

  /**
    The tiers: 0 without a query; 50 per distinct query word found in the
    anchor; otherwise 40 when a query word occurs in the URL; otherwise
    4u + |v - u| from the context words.
  */
  lemma ScoreTiers(query: Option<string>, order: seq<string>, url: string, anchor: string,
                   prv: seq<string>, next: seq<string>, page: string)
    requires ScoreDefined(query, order, page)
    ensures query.None? ==> ScoreOf(query, order, url, anchor, prv, next, page) == 0
    ensures query.Some? && |AnchorHits(QueryWords(query.value), anchor)| > 0 ==>
      ScoreOf(query, order, url, anchor, prv, next, page) == 50 * |AnchorHits(QueryWords(query.value), anchor)|
    ensures query.Some? && |AnchorHits(QueryWords(query.value), anchor)| == 0 && UrlHit(QueryWords(query.value), url) ==>
      ScoreOf(query, order, url, anchor, prv, next, page) == 40
    ensures ScoreOf(query, order, url, anchor, prv, next, page) >= 0
  {
  }

  /** The keys of `words`. */
  function Keys(words: seq<string>, lowered: bool): set<string> {
    set i | 0 <= i < |words| :: Key(words[i], lowered)
  }

  lemma KeysOfPrefix(words: seq<string>, lowered: bool)
    requires words != []
    ensures Keys(words, lowered) == Keys(words[..|words| - 1], lowered) + {Key(words[|words| - 1], lowered)}
  {
    var p := words[..|words| - 1];
    forall k | k in Keys(words, lowered)
      ensures k in Keys(p, lowered) + {Key(words[|words| - 1], lowered)}
    {
      var i :| 0 <= i < |words| && Key(words[i], lowered) == k;
      if i < |words| - 1 {
        assert p[i] == words[i];
      }
    }
    forall k | k in Keys(p, lowered) ensures k in Keys(words, lowered) {
      var i :| 0 <= i < |p| && Key(p[i], lowered) == k;
      assert words[i] == p[i];
    }
  }

  /** A set of keys drawn from `n` words has at most `n` elements. */
  lemma {:induction false} KeysBound(words: seq<string>, lowered: bool)
    ensures |Keys(words, lowered)| <= |words|
    decreases |words|
  {
    if words == [] {
      assert Keys(words, lowered) == {};
    } else {
      KeysOfPrefix(words, lowered);
      KeysBound(words[..|words| - 1], lowered);
    }
  }

  /** A context pass adds one seen key per counted word, and only keys of its words. */
  lemma {:induction false} ContextPassCounts(qw: string, words: seq<string>, lowered: bool, t: Tally)
    requires t.u == |t.seen|
    ensures var r := ContextPass(qw, words, lowered, t);
      r.u == |r.seen| && r.v == t.v && t.seen <= r.seen && r.seen <= t.seen + Keys(words, lowered)
    decreases |words|
  {
    if words != [] {
      var p := words[..|words| - 1];
      ContextPassCounts(qw, p, lowered, t);
      KeysOfPrefix(words, lowered);
    }
  }

  /**
    In the fallback tier `u` is the number of distinct keys in `seenWords`,
    every one of them the key of a previous or next word, so `u` is at most
    the number of context words; `v` is at most the number of query words.
  */
  lemma {:induction false} OverlapBounds(order: seq<string>, prv: seq<string>, next: seq<string>, body: set<string>)
    ensures var t := Overlap(order, prv, next, body);
      t.u == |t.seen| && t.seen <= Keys(prv, true) + Keys(next, false) && t.v <= |order|
    decreases |order|
  {
    if order != [] {
      var t := Overlap(order[..|order| - 1], prv, next, body);
      OverlapBounds(order[..|order| - 1], prv, next, body);
      var qw := order[|order| - 1];
      ContextPassCounts(qw, prv, true, t);
      ContextPassCounts(qw, next, false, ContextPass(qw, prv, true, t));
    }
  }

  lemma SubsetCard(a: set<string>, b: set<string>)
    requires a <= b
    ensures |a| <= |b|
  {
    if a != b {
      var x :| x in b && x !in a;
      SubsetCard(a, b - {x});
    }
  }

  /** The fallback score is at most 4n + n + |order| for n context words, and `v` at most the number of query words. */
  lemma FallbackBounds(order: seq<string>, prv: seq<string>, next: seq<string>, body: set<string>)
    ensures var t := Overlap(order, prv, next, body);
      t.u <= |prv| + |next| && t.v <= |order|
  {
    var t := Overlap(order, prv, next, body);
    OverlapBounds(order, prv, next, body);
    SubsetCard(t.seen, Keys(prv, true) + Keys(next, false));
    KeysBound(prv, true);
    KeysBound(next, false);
    assert |Keys(prv, true) + Keys(next, false)| <= |Keys(prv, true)| + |Keys(next, false)|;
  }

  /** A duplicate-free iteration order has exactly as many positions as distinct words. */
  lemma {:induction false} DistinctCard(order: seq<string>)
    requires forall i, j :: 0 <= i < j < |order| ==> order[i] != order[j]
    ensures |set w | w in order| == |order|
    decreases |order|
  {
    if order != [] {
      var p := order[..|order| - 1];
      var last := order[|order| - 1];
      DistinctCard(p);
      assert order == p + [last];
      assert (set w | w in order) == (set w | w in p) + {last};
      assert last !in p by {
        forall a | 0 <= a < |p| ensures p[a] != last {
          assert p[a] == order[a];
        }
      }
    }
  }

  /** Below the anchor and URL tiers the score is 4u + |v - u| over the overlap tally. */
  lemma FallbackScore(query: Option<string>, order: seq<string>, url: string, anchor: string,
                      prv: seq<string>, next: seq<string>, page: string)
    requires ScoreDefined(query, order, page)
    requires query.Some? && |AnchorHits(QueryWords(query.value), anchor)| == 0
    requires !UrlHit(QueryWords(query.value), url)
    ensures var t := Overlap(order, prv, next, BodyWords(page));
      ScoreOf(query, order, url, anchor, prv, next, page) == 4 * t.u + Abs(t.v - t.u)
  {
  }

  /**
    The fallback tier: when no query word occurs in the anchor or the URL, the
    score is 4u + |v - u|, where u counts the distinct keys in `seenWords` (at
    most the number of context words) and v is at most the number of distinct
    query words.
  */
  lemma FallbackTier(query: Option<string>, order: seq<string>, url: string, anchor: string,
                     prv: seq<string>, next: seq<string>, page: string)
    requires ScoreDefined(query, order, page)
    requires query.Some? && |AnchorHits(QueryWords(query.value), anchor)| == 0
    requires !UrlHit(QueryWords(query.value), url)
    ensures var t := Overlap(order, prv, next, BodyWords(page));
      ScoreOf(query, order, url, anchor, prv, next, page) == 4 * t.u + Abs(t.v - t.u) &&
      t.u == |t.seen| && t.u <= |prv| + |next| && t.v <= |QueryWords(query.value)|
  {
    var body := BodyWords(page);
    FallbackScore(query, order, url, anchor, prv, next, page);
    OverlapBounds(order, prv, next, body);
    FallbackBounds(order, prv, next, body);
    DistinctCard(order);
    assert |QueryWords(query.value)| == |order|;
  }

  // ---------------------------------------------------------------------------
  // Counting over the iteration order

  /** The anchor test over the first `i` words of the iteration order. */
  lemma HitsStep(order: seq<string>, i: nat, lcAnchor: string)
    requires i < |order|
    requires forall a, b :: 0 <= a < b < |order| ==> order[a] != order[b]
    ensures |set w | w in order[..i + 1] && Contains(lcAnchor, w)| ==
      |set w | w in order[..i] && Contains(lcAnchor, w)| + (if Contains(lcAnchor, order[i]) then 1 else 0)
  {
    var before := set w | w in order[..i] && Contains(lcAnchor, w);
    var after := set w | w in order[..i + 1] && Contains(lcAnchor, w);
    assert order[..i + 1] == order[..i] + [order[i]];
    assert order[i] !in order[..i] by {
      forall a | 0 <= a < i ensures order[..i][a] != order[i] {
        assert order[..i][a] == order[a];
      }
    }
    if Contains(lcAnchor, order[i]) {
      assert after == before + {order[i]};
    } else {
      assert after == before;
    }
  }

  // ---------------------------------------------------------------------------
  // score

  /** The loop of `score` that fills `queryWordsSet` from the split query. */
  method CollectQueryWords(queryWords: seq<string>) returns (queryWordsSet: set<string>)
    ensures queryWordsSet == set w | w in queryWords
  {
    queryWordsSet := {};
    for k := 0 to |queryWords|
      invariant queryWordsSet == set w | w in queryWords[..k]
    {
      assert queryWords[..k + 1] == queryWords[..k] + [queryWords[k]];
      queryWordsSet := queryWordsSet + {queryWords[k]};
    }
    assert queryWords[..|queryWords|] == queryWords;
  }

  /** The first loop of `score` over the query words: the anchor count and the URL test. */
  method AnchorAndUrlTests(order: seq<string>, words: set<string>, anchor: string, urlOfOutlink: string)
    returns (commonWordsBtwnQueryAndAnchor: int, wordInQuerySubstringOfUrl: bool)
    requires IsIterationOrder(order, words)
    ensures commonWordsBtwnQueryAndAnchor == |AnchorHits(words, anchor)|
    ensures wordInQuerySubstringOfUrl == UrlHit(words, urlOfOutlink)
  {
    commonWordsBtwnQueryAndAnchor, wordInQuerySubstringOfUrl := 0, false;
    var urlOfOutlinkLowerCase := ToLower(urlOfOutlink);
    var lcAnchor := ToLower(anchor);
    for k := 0 to |order|
      invariant commonWordsBtwnQueryAndAnchor == |set w | w in order[..k] && Contains(lcAnchor, w)|
      invariant wordInQuerySubstringOfUrl <==> exists a :: 0 <= a < k && Contains(urlOfOutlinkLowerCase, order[a])
    {
      var word := order[k];
      HitsStep(order, k, lcAnchor);
      if Contains(lcAnchor, word) {
        commonWordsBtwnQueryAndAnchor := commonWordsBtwnQueryAndAnchor + 1;
      }
      if Contains(urlOfOutlinkLowerCase, word) {
        wordInQuerySubstringOfUrl := true;
      }
    }
    assert order[..|order|] == order;
    assert (set w | w in order && Contains(lcAnchor, w)) == AnchorHits(words, anchor);
    if wordInQuerySubstringOfUrl {
      var a :| 0 <= a < |order| && Contains(urlOfOutlinkLowerCase, order[a]);
      assert order[a] in words;
    }
    if UrlHit(words, urlOfOutlink) {
      var w :| w in words && Contains(urlOfOutlinkLowerCase, w);
      assert w in set w | w in order;
      var a :| 0 <= a < |order| && order[a] == w;
    }
  }

  /** One inner loop of `score`: the context words for one query word. */
  method ContextLoop(queryWord: string, words: seq<string>, lowered: bool, t0: Tally) returns (t: Tally)
    ensures t == ContextPass(queryWord, words, lowered, t0)
    ensures t.v == t0.v
  {
    var u, seenWords := t0.u, t0.seen;
    for j := 0 to |words|
      invariant 0 <= u
      invariant Tally(u, t0.v, seenWords) == ContextPass(queryWord, words[..j], lowered, t0)
    {
      assert words[..j + 1][..j] == words[..j];
      var word := words[j];
      var lcWord := ToLower(word);
      var lettersOnlyWord := if lowered then StripNonWord(lcWord) else StripNonWord(word);
      if lettersOnlyWord in seenWords {
        continue;
      }
      if Contains(lcWord, queryWord) {
        u := u + 1;
        seenWords := seenWords + {lettersOnlyWord};
      }
    }
    assert words[..|words|] == words;
    t := Tally(u, t0.v, seenWords);
  }

  /** The second loop of `score` over the query words, which computes u, v and `seenWords`. */
  method OverlapLoop(order: seq<string>, prvFiveWords: seq<string>, nextFiveWords: seq<string>,
                     lettersOnlyWordsSet: set<string>)
    returns (u: int, v: int)
    ensures 0 <= u && 0 <= v
    ensures Tally(u, v, Overlap(order, prvFiveWords, nextFiveWords, lettersOnlyWordsSet).seen) ==
      Overlap(order, prvFiveWords, nextFiveWords, lettersOnlyWordsSet)
  {
    u, v := 0, 0;
    var seenWords: set<string> := {};
    for k := 0 to |order|
      invariant 0 <= u && 0 <= v
      invariant Tally(u, v, seenWords) == Overlap(order[..k], prvFiveWords, nextFiveWords, lettersOnlyWordsSet)
    {
      var queryWord := order[k];
      var t := ContextLoop(queryWord, prvFiveWords, true, Tally(u, v, seenWords));
      t := ContextLoop(queryWord, nextFiveWords, false, t);
      u, seenWords := t.u, t.seen;
      assert order[..k + 1][..k] == order[..k];
      assert Overlap(order[..k + 1], prvFiveWords, nextFiveWords, lettersOnlyWordsSet) ==
        QueryWordStep(queryWord, prvFiveWords, nextFiveWords, lettersOnlyWordsSet,
          Overlap(order[..k], prvFiveWords, nextFiveWords, lettersOnlyWordsSet));
      if queryWord in seenWords {
        continue;
      }
      if queryWord in lettersOnlyWordsSet {
        v := v + 1;
      }
    }
    assert order[..|order|] == order;
  }

  /** `score`: the three tiers in order. */
  method Score(queryMixedCase: Option<string>, order: seq<string>, urlOfOutlink: string, anchor: string,
               prvFiveWords: seq<string>, nextFiveWords: seq<string>, pageContents: string)
    returns (r: int)
    requires ScoreDefined(queryMixedCase, order, pageContents)
    ensures r == ScoreOf(queryMixedCase, order, urlOfOutlink, anchor, prvFiveWords, nextFiveWords, pageContents)
  {
    if queryMixedCase.None? {
      return 0;
    }
    var query := ToLower(queryMixedCase.value);
    var queryWords := Split(query);
    var lcPageContents := ToLower(pageContents);
    var urlsRemoved := BlurUrls(lcPageContents);
    var replaceNewLinesWithSpace := NewlinesToSpaces(urlsRemoved);
    var lettersOnlyPageContents := LettersAndSpaces(replaceNewLinesWithSpace);
    var lettersOnlyWords := Split(lettersOnlyPageContents);
    var lettersOnlyWordsSet := set w | w in lettersOnlyWords;
    var queryWordsSet := CollectQueryWords(queryWords);

    var commonWordsBtwnQueryAndAnchor, wordInQuerySubstringOfUrl :=
      AnchorAndUrlTests(order, queryWordsSet, anchor, urlOfOutlink);
    if commonWordsBtwnQueryAndAnchor != 0 {
      return commonWordsBtwnQueryAndAnchor * 50;
    }
    if wordInQuerySubstringOfUrl {
      return 40;
    }
    var u, v := OverlapLoop(order, prvFiveWords, nextFiveWords, lettersOnlyWordsSet);
    return 4 * u + Abs(v - u);
  }
}
