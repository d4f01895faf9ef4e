# Focused web crawler: frontier, relevance score, link extractor, robots rules

This project models the core of a query-focused web crawler written in Java
(`WebCrawlerApp/WebCrawler.java` with its helper classes `URLScore`,
`URLScoreComparator` and `ReturnValue`) and proves properties of that model.

The crawler keeps a priority queue of URLs paired with integer scores and a set
of URL strings it has already fetched. Each pass of `crawl` works as follows:

1. Poll the best-scored entry.
2. Drop it if the site's `robots.txt` disallows it.
3. Otherwise download the page, mark the URL seen and count it. Stop when the
   page budget `maxNumPgs` is reached.
4. Collect the page's `<A ... /A>` markups that have an `href`.
5. For each markup, extract the target, the anchor text and up to five words
   on either side.
6. Score the link against the query and enqueue it. A link that is already
   pending gets a new entry whose score is the old one plus the new one.

The score has three tiers:

- 50 per query word found in the anchor;
- otherwise 40 if a query word occurs in the URL;
- otherwise `4u + |v - u|`, computed from the context words and the words of
  the page body.

Modules, one per concern of the source:

- `Wrappers`: the `Option` type. Java's `null` results become `None`.
- `JavaText`: the Java library behaviour the code relies on. This covers
  `indexOf` from a position, `contains`, `startsWith`/`endsWith`,
  `split("\\s+")`, `replaceAll` of `\n`, `[^a-zA-Z ]` and `\W`, ASCII
  `toLowerCase`, and the first token of a default `StringTokenizer`.
- `Net`: a URL is identified by its `toString()` text. Parsing, resolution
  against a base URL, `getHost()` and `getFile()` are supplied as functions.
- `URLScores`: the class `URLScore`, plus `Entry`, the value of one such object
  at a moment.
- `URLScoreComparator`: `compare`.
- `ReturnValues`: the record `processHrefLink` returns.
- `Extractor`: `findHrefOutlinks`, `extractUrl`, `extractAnchor`,
  `getPrevFiveWords`, `getNextFiveWords`, `swallowWhiteSpacesAndNewLines` and
  `processHrefLink`.
- `Scorer`: `score` and `blurUrls`.
- `Robots`: the `Disallow:` scan of `robotSafe` and the policy around fetching
  `robots.txt`.
- `Crawler`: the class `WebCrawler`, with `initialize`, `crawl`,
  `processAndAddURLsOnCurrentPageToQueue` and `robotSafe`.
- `Scenarios`: worked cases on concrete text. They show the three score
  tiers, a `Disallow:` rule refusing one page and allowing another, the
  character lost after a markup, the character `blurUrls` deletes before an
  `<a`, and a target that is not a page.

The loops of the source are methods with a `while` or `for` loop. Each of
them except the main loop of `crawl` is proved equal to a specification
function, and the properties are proved as lemmas about those functions.
`WebCrawler.Crawl` has no such function: its contract states the page budget
and the growth of `seenUrls`, and each of its passes is specified by
`CrawlOnce`. The queue is a `multiset<Entry>`. Its `poll` removes some entry
that `compare` puts first against every pending entry. The one loop that is
not modelled as a loop is the walk over the queue that looks for a pending
copy of a link (`WebCrawler.java` lines 152-158). It is a parameter,
`Env.firstMatch`, and all that is assumed of it is that it finds such a copy
whenever one exists.

Where the Java code would throw, the model has a precondition instead. Each
condition is a predicate on the input. All but `ClosedAfter` hold exactly when
the code returns normally; `ClosedAfter` is stricter in one case, listed
under "Left out":

- `ClosedAfter`: a `<A` has no `/A>` after it.
- `QuotesOk`: the markup lacks its two quotes.
- `AnchorOk`: no `<` follows the first `>`.
- `NextWordsOk`: `swallowWhiteSpacesAndNewLines` would run off the end of the
  page, or the markup ends at the very end of the page.
- `BlurOk`: `blurUrls` meets `<a` at index 0 or an `<a` with no `>` after it.

`LinkOk` and `PageOk` combine these for one outlink and for one page.

The model keeps these behaviours of the code:

- The `<A` and `/A>` tests are case-sensitive. The `href` test ignores case
  and searches to the end of the page.
- The closing quote of the link target is searched from two characters past
  the opening quote. An empty `href=""` therefore does not end the target.
- The suffix test is `endsWith("html")` or `endsWith("htm")`, with no dot,
  and is case-sensitive.
- When more than five words precede the markup, they come in reverse order.
  When the markup starts the page, `split` of the empty string gives the
  single word `""`.
- The next words start one character past the first occurrence of the
  markup.
- `blurUrls` also deletes the character just before each `<a`.
- The prev pass strips the lower-cased word and the next pass strips the
  original word. Both share one `seenWords` set.
- The score of a link is computed before the seen test.
- A rediscovered link gets a second entry; the old entry stays queued.
- `poll` never looks at `seenUrls`, so a URL can be fetched and counted
  twice.

Where the code differs from what a reader of its comments and names might
expect, the model follows the code:

- Rediscovery adds a duplicate entry instead of merging into the old one.
- A URL already fetched can come out of the queue again.
- The markup tests are case-sensitive.
- The suffix test needs no dot.

## Model

| member | source | states |
|---|---|---|
| `JavaText.ToLower` | WebCrawlerApp/WebCrawler.java:189 | same length, each character mapped by ASCII lower-casing |
| `JavaText.NewlinesToSpaces` | WebCrawlerApp/WebCrawler.java:197 | same length, every `\n` replaced by a space and nothing else changed |
| `JavaText.LettersAndSpaces` | WebCrawlerApp/WebCrawler.java:198 | same length, letters and spaces kept, every other character replaced by a space |
| `JavaText.StripNonWord` | WebCrawlerApp/WebCrawler.java:230 | only word characters remain, never longer, and a word made only of word characters is unchanged |
| `JavaText.StripNonWordAppend` | WebCrawlerApp/WebCrawler.java:242 | stripping two texts joined is stripping each and joining; a single character is kept iff it is a word character; together: the result is exactly the word characters of the input, in order |
| `JavaText.SearchFrom` | WebCrawlerApp/WebCrawler.java:387 | the search from `k` answers -1 or a position at least `k` |
| `JavaText.SearchFromIsFirst` | WebCrawlerApp/WebCrawler.java:387 | the search result is a match, and no match lies between `k` and it (none at all when it is -1) |
| `JavaText.IndexOf` | WebCrawlerApp/WebCrawler.java:387 | `indexOf(pat, from)` is -1 or at least the clamped `from`, and an empty needle may also give the length |
| `JavaText.IndexOfIsFirst` | WebCrawlerApp/WebCrawler.java:387 | for a non-empty needle, the result is the first match at or after `max(from, 0)`, or -1 when there is none; an empty needle is found at the clamped start |
| `JavaText.MatchAtChar` | WebCrawlerApp/WebCrawler.java:358-359 | a one-character needle matches at `k` iff `k` is in range and holds that character |
| `JavaText.Contains` | WebCrawlerApp/WebCrawler.java:209 | `contains` holds iff the needle matches somewhere |
| `JavaText.IndexOfZeroIsPrefix` | WebCrawlerApp/WebCrawler.java:449 | `indexOf(p) == 0` iff `p` is a prefix |
| `JavaText.RunLength` | WebCrawlerApp/WebCrawler.java:336 | the run of non-`\s` characters at the start ends at the first `\s` or at the end |
| `JavaText.Words` | WebCrawlerApp/WebCrawler.java:336 | the tokens, each non-empty and free of `\s`, are empty iff the text is all `\s` |
| `JavaText.RunEnd` | WebCrawlerApp/WebCrawler.java:304 | the run from a position ends at the first `\s` at or after it, or at the end |
| `JavaText.StartsFrom` | WebCrawlerApp/WebCrawler.java:304 | every start of a run is a position at or after the resume point holding a character other than `\s` |
| `JavaText.StartsCount` | WebCrawlerApp/WebCrawler.java:304 | there is one start per word |
| `JavaText.WordIsRun` | WebCrawlerApp/WebCrawler.java:304 | the i-th word is the text from the i-th start up to the next `\s` |
| `JavaText.StartAfterSpace` | WebCrawlerApp/WebCrawler.java:304 | every start is the start of the text or follows a `\s` |
| `JavaText.StartsInOrder` | WebCrawlerApp/WebCrawler.java:304 | each run ends before the next one starts |
| `JavaText.StartsCover` | WebCrawlerApp/WebCrawler.java:304 | every character other than `\s` lies inside some run |
| `JavaText.WordAt` | WebCrawlerApp/WebCrawler.java:336 | the i-th word is the maximal run of characters other than `\s` at the i-th start: preceded by `\s` or the start of the text, followed by `\s` or its end |
| `JavaText.WordsAreRuns` | WebCrawlerApp/WebCrawler.java:199 | the words are exactly the maximal runs without `\s`: one per start, each maximal, in increasing position, and covering every character other than `\s` |
| `JavaText.Split` | WebCrawlerApp/WebCrawler.java:199 | `split("\\s+")` gives `[s]` without `\s`; otherwise exactly the words, preceded by one `""` when the text starts with `\s` and has a word; a leading `""` iff the text is empty or starts with `\s` and has a word; every other token is a word |
| `JavaText.SkipDelims` | WebCrawlerApp/WebCrawler.java:442-444 | skips exactly the tokenizer delimiters up to the first other character |
| `JavaText.TokenEnd` | WebCrawlerApp/WebCrawler.java:448 | the token runs up to the first delimiter or the end |
| `JavaText.FirstTokenIsFirst` | WebCrawlerApp/WebCrawler.java:442-448 | the first token is `None` iff the text is only delimiters; otherwise it is a non-empty token free of delimiters, preceded only by delimiters and followed by a delimiter or the end |
| `JavaText.FirstToken` | WebCrawlerApp/WebCrawler.java:442-448 | `None` when `hasMoreTokens()` is false, otherwise `Some` of what `nextToken()` returns; characterised by `FirstTokenIsFirst` |
| `JavaText.StartsWith` | WebCrawlerApp/WebCrawler.java:449 | `p` is a prefix of `s`; the `indexOf(p) == 0` test is this by `IndexOfZeroIsPrefix` |
| `JavaText.EndsWith` | WebCrawlerApp/WebCrawler.java:371 | `p` is a suffix of `s` |
| `JavaText.IndexOfFinds` | WebCrawlerApp/WebCrawler.java:387 | a match with no match between the clamped start and it is what `indexOf` answers |
| `JavaText.IndexOfFindsChar` | WebCrawlerApp/WebCrawler.java:358-359 | `indexOf(c, from)` answers the first position at or after `from` holding `c` |
| `URLScores.URLScore.constructor` | WebCrawlerApp/URLScore.java:15-18 | a new object has the given URL, its string form, and score 0 |
| `URLScores.URLScore.GetURL` | WebCrawlerApp/URLScore.java:19-21 | the URL given at construction |
| `URLScores.URLScore.GetScore` | WebCrawlerApp/URLScore.java:22-24 | the current score |
| `URLScores.URLScore.GetURLAsString` | WebCrawlerApp/URLScore.java:47-49 | the URL's `toString()` text |
| `URLScores.URLScore.UpdateScore` | WebCrawlerApp/URLScore.java:26-28 | the score becomes the argument rather than being added to; the URL is unchanged |
| `URLScores.URLScore.Equals` | WebCrawlerApp/URLScore.java:36-45 | true iff the other object is a `URLScore` with an equal URL string, whatever the scores; false for other objects; true for the object itself |
| `URLScoreComparator.Compare` | Utilities/URLScoreComparator.java:10-18 | -1 exactly when the first score is at least the second, 1 exactly when it is smaller, so never 0 |
| `URLScoreComparator.TiesCompareLessBothWays` | Utilities/URLScoreComparator.java:11-13 | on equal scores both argument orders give -1 |
| `URLScoreComparator.DistinctScoresAntisymmetric` | Utilities/URLScoreComparator.java:14-17 | on distinct scores, swapping the arguments negates the result |
| `URLScoreComparator.LessIsTransitive` | Utilities/URLScoreComparator.java:10-18 | "compares as -1" is transitive |
| `URLScoreComparator.OnlyScoresMatter` | Utilities/URLScoreComparator.java:10-18 | the result depends on the two scores only, never on the URLs |
| `ReturnValues.GettersReturnConstructorArguments` | Utilities/ReturnValue.java:13-31 | each getter returns the constructor argument in its position |
| `Extractor.MarkupStep` | WebCrawlerApp/WebCrawler.java:387-393 | one round finds an `<A` at or after the resume point, then the first `/A>` after it, within the page; the scan resumes at that markup's `>` |
| `Extractor.StepIsMarkup` | WebCrawlerApp/WebCrawler.java:387-391 | the text one round cuts out runs from an `<A` to the first `/A>` after it, inclusive |
| `Extractor.NotOpenAtClose` | WebCrawlerApp/WebCrawler.java:393 | the scan never resumes on an `<A`: the `>` it resumes at cannot start one |
| `Extractor.Markups` | WebCrawlerApp/WebCrawler.java:387-393 | the spans the scan visits from a position: the next `<A` through the first `/A>` after it, then those from its `>` |
| `Extractor.MarkupsUnfold` | WebCrawlerApp/WebCrawler.java:387-393 | the markups visited from a position are the next markup followed by those visited from its `>` |
| `Extractor.MarkupsNext` | WebCrawlerApp/WebCrawler.java:387-393 | the same unfolding, with only the positions: the next markup starts at or after the resume point and ends before the end of the page |
| `Extractor.MarkupsWithin` | WebCrawlerApp/WebCrawler.java:387-391 | every visited span starts at or after the resume point, is non-empty and lies within the page |
| `Extractor.MarkupsAreMarkups` | WebCrawlerApp/WebCrawler.java:387-391 | every visited span is a markup of the page, from `<A` through the first `/A>` |
| `Extractor.MarkupsStartAtOpenTags` | WebCrawlerApp/WebCrawler.java:387 | every visited span starts at an `<A` and lies within the page |
| `Extractor.MarkupsAreOrdered` | WebCrawlerApp/WebCrawler.java:387-393 | visited spans do not overlap and come in increasing page position |
| `Extractor.MarkupsCoverEveryOpenTag` | WebCrawlerApp/WebCrawler.java:387-393 | every `<A` of the page starts a visited markup or lies inside one |
| `Extractor.HasHrefFrom` | WebCrawlerApp/WebCrawler.java:392 | `href` occurs, in any case, at or after the position in the lower-cased page |
| `Extractor.OutlinksFrom` | WebCrawlerApp/WebCrawler.java:387-401 | what the scan collects from a position: each visited markup that passes the `href` test, in order |
| `Extractor.Outlinks` | WebCrawlerApp/WebCrawler.java:383-403 | the outlinks collected from the start of the page |
| `Extractor.OutlinksUnfold` | WebCrawlerApp/WebCrawler.java:387-400 | one round adds the markup text when the `href` test passes and resumes at its `>` |
| `Extractor.OutlinksStep` | WebCrawlerApp/WebCrawler.java:387-400 | one round of the loop body keeps "collected so far, then what the rest of the scan collects" equal to the whole outlink list |
| `Extractor.NoHrefLater` | WebCrawlerApp/WebCrawler.java:392 | once no `href` follows a position, none follows any later position |
| `Extractor.NoHrefNoOutlinks` | WebCrawlerApp/WebCrawler.java:392-398 | with no `href` from a position on, the scan from any later point collects nothing |
| `Extractor.OutlinkIsMarkup` | WebCrawlerApp/WebCrawler.java:383-403 | the j-th outlink is the page text of the j-th visited markup, and that markup passes the `href` test |
| `Extractor.DroppedMarkupHasNoHref` | WebCrawlerApp/WebCrawler.java:392-398 | a visited markup is left out only when no `href`, in any case, occurs from its start to the end of the page |
| `Extractor.FindHrefOutlinks` | WebCrawlerApp/WebCrawler.java:383-403 | the loop returns exactly the outlinks of the specification, the list the three lemmas above describe |
| `Extractor.UrlToken` | WebCrawlerApp/WebCrawler.java:366-370 | the text `extractUrl` reads as the target, from past the first quote to the next quote searched from two past it |
| `Extractor.UrlTokenIsBetweenQuotes` | WebCrawlerApp/WebCrawler.java:366-370 | the target is the text after the first quote up to the next quote searched from two past the first, so it is one character longer when `href=""` |
| `Extractor.ExtractUrl` | WebCrawlerApp/WebCrawler.java:364-381 | `None` when the target does not end in `html` or `htm`; otherwise the target resolved against the page URL, `None` when that is malformed |
| `Extractor.ExtractAnchor` | WebCrawlerApp/WebCrawler.java:356-362 | the anchor is shorter than the markup and holds no `<` |
| `Extractor.AnchorBounds` | WebCrawlerApp/WebCrawler.java:358-360 | the first `>` lies before the next `<`, both within the markup |
| `Extractor.AnchorIsBetweenBrackets` | WebCrawlerApp/WebCrawler.java:356-362 | the anchor is exactly the text between the first `>` and the next `<`, or from the start when there is no `>` |
| `Extractor.Reversed` | WebCrawlerApp/WebCrawler.java:346-351 | the reversal has the same length and the k-th element from the back at position k |
| `Extractor.PrevFiveWords` | WebCrawlerApp/WebCrawler.java:330-354 | what `getPrevFiveWords` returns; characterised by `PrevFiveWordsAreLastFive` |
| `Extractor.PrevFiveWordsAreLastFive` | WebCrawlerApp/WebCrawler.java:330-354 | at most five words; none when the markup is absent from the page; all the words before its first occurrence when there are at most five; otherwise the last five in reverse page order |
| `Extractor.GetPrevFiveWords` | WebCrawlerApp/WebCrawler.java:330-354 | the backwards copying loop returns the specified previous words |
| `Extractor.SkipBlanks` | WebCrawlerApp/WebCrawler.java:322-326 | skips exactly the spaces, tabs and newlines up to the first other character |
| `Extractor.SwallowWhiteSpacesAndNewLines` | WebCrawlerApp/WebCrawler.java:321-328 | the loop stops at the first character that is not a space, tab or newline |
| `Extractor.NextFiveWords` | WebCrawlerApp/WebCrawler.java:296-319 | what `getNextFiveWords` returns; characterised by `NextFiveWordsAreFirstFive` |
| `Extractor.NextFiveWordsAreFirstFive` | WebCrawlerApp/WebCrawler.java:296-319 | at most five words; none when the markup ends one character before the end of the page; otherwise the first `min(5, n)` words, in page order, of the text after the skipped blanks |
| `Extractor.GetNextFiveWords` | WebCrawlerApp/WebCrawler.java:296-319 | the forward copying loop returns the specified next words |
| `Extractor.LinkContextOf` | WebCrawlerApp/WebCrawler.java:283-294 | `None` when `extractUrl` gives none, else the previous words, next words, anchor and resolved URL text; characterised by `LinkContextShape` |
| `Extractor.LinkContextShape` | WebCrawlerApp/WebCrawler.java:283-294 | a context exists iff the target has the page suffix and resolves; it then has at most five words either side, an anchor without `<`, and the resolved URL's text |
| `Extractor.ProcessHrefLink` | WebCrawlerApp/WebCrawler.java:283-294 | returns the specified context: the URL first, then the anchor and the words on either side |
| `Scorer.BlurRound` | WebCrawlerApp/WebCrawler.java:266-268 | one deletion round makes the text strictly shorter |
| `Scorer.BlurRoundDeletes` | WebCrawlerApp/WebCrawler.java:263-269 | with `b` the first `<a` and `e` the first `>` at or after it, the round yields exactly the text before `b - 1` followed by the text after `e`, and `blurUrls` goes on with that text |
| `Scorer.Blur` | WebCrawlerApp/WebCrawler.java:262-272 | the result holds no `<a`; it is the input when that had none, and strictly shorter otherwise |
| `Scorer.BlurUrls` | WebCrawlerApp/WebCrawler.java:262-272 | the loop returns the specified blurred text |
| `Scorer.QueryWords` | WebCrawlerApp/WebCrawler.java:189-205 | the set of words of the lower-cased query split on `\s+` |
| `Scorer.BodyWords` | WebCrawlerApp/WebCrawler.java:193-201 | the set of words of the page once lower-cased, blurred, with newlines and then everything but letters and spaces blanked, split on `\s+` |
| `Scorer.ContextStep` | WebCrawlerApp/WebCrawler.java:229-237 | one context word: skipped when its key is in `seenWords`, else counted in `u` and its key recorded when it contains the query word |
| `Scorer.ContextPass` | WebCrawlerApp/WebCrawler.java:228-238 | one inner loop: the context words taken in order |
| `Scorer.QueryWordStep` | WebCrawlerApp/WebCrawler.java:227-257 | one outer round: the previous-word pass, the next-word pass, then `v` raised when the query word is unseen and a body word |
| `Scorer.Overlap` | WebCrawlerApp/WebCrawler.java:223-258 | the outer loop over the query words in iteration order, from `u = v = 0` and no seen words |
| `Scorer.ScoreOf` | WebCrawlerApp/WebCrawler.java:183-260 | the score: 0 without a query, else 50 per anchor hit, else 40 on a URL hit, else `4u + abs(v - u)`; characterised by `ScoreTiers` and `FallbackTier` |
| `Scorer.ScoreTiers` | WebCrawlerApp/WebCrawler.java:186-222 | 0 without a query; exactly 50·C when C > 0 distinct query words occur in the lower-cased anchor; exactly 40 when C = 0 and a query word occurs in the lower-cased URL; never negative |
| `Scorer.KeysBound` | WebCrawlerApp/WebCrawler.java:228-249 | n context words give at most n distinct stripped keys |
| `Scorer.ContextPassCounts` | WebCrawlerApp/WebCrawler.java:228-249 | a pass over context words raises `u` once per new key added to `seenWords`, leaves `v` alone, and adds only keys of its words |
| `Scorer.OverlapBounds` | WebCrawlerApp/WebCrawler.java:223-258 | `u` equals the size of `seenWords`, which holds only keys of the previous and next words; `v` never exceeds the number of distinct query words |
| `Scorer.FallbackBounds` | WebCrawlerApp/WebCrawler.java:223-259 | `u` is at most the number of context words and `v` at most the number of distinct query words |
| `Scorer.DistinctCard` | WebCrawlerApp/WebCrawler.java:203-208 | an iteration order without repeats has as many elements as the set it walks |
| `Scorer.FallbackTier` | WebCrawlerApp/WebCrawler.java:223-259 | with no query word in the anchor or the URL, the score is `4u + abs(v - u)`, where `u` is the size of `seenWords` and at most the number of context words, and `v` is at most the number of distinct query words |
| `Scorer.HitsStep` | WebCrawlerApp/WebCrawler.java:208-211 | over a duplicate-free iteration order, one more word raises the anchor count by one exactly when it occurs in the anchor |
| `Scorer.CollectQueryWords` | WebCrawlerApp/WebCrawler.java:203-205 | the set holds exactly the split words |
| `Scorer.AnchorAndUrlTests` | WebCrawlerApp/WebCrawler.java:206-216 | the loop counts the distinct query words in the anchor and records whether one occurs in the URL |
| `Scorer.ContextLoop` | WebCrawlerApp/WebCrawler.java:228-250 | one inner loop computes the specified context pass and leaves `v` unchanged |
| `Scorer.OverlapLoop` | WebCrawlerApp/WebCrawler.java:223-258 | the nested loops compute the specified `u`, `v` and `seenWords`, with `u` and `v` non-negative |
| `Scorer.Score` | WebCrawlerApp/WebCrawler.java:183-260 | returns the specified score, the tiers tested in the source's order |
| `Robots.RuleAt` | WebCrawlerApp/WebCrawler.java:440-449 | the `Disallow:` at `k` is a rule for the file path: the first token after it is a prefix of the path |
| `Robots.Disallowed` | WebCrawlerApp/WebCrawler.java:436-453 | some `Disallow:` of the file is a rule for the path |
| `Robots.ScanFrom` | WebCrawlerApp/WebCrawler.java:439-452 | what the scan loop answers when it resumes at a position; characterised by `ScanFromStep` and `ScanFromDecides` |
| `Robots.RobotsUrl` | WebCrawlerApp/WebCrawler.java:406-411 | `"http://" + getHost() + "/robots.txt"` parsed, `None` when malformed |
| `Robots.DisallowDoesNotOverlap` | WebCrawlerApp/WebCrawler.java:30 | two occurrences of `Disallow:` are at least its length apart |
| `Robots.DisallowBounds` | WebCrawlerApp/WebCrawler.java:439-441 | a `Disallow:` found from the resume point lies wholly between it and the end of the text, so `substring(index)` is in range |
| `Robots.FirstDisallow` | WebCrawlerApp/WebCrawler.java:439 | the search finds the first `Disallow:`, and any other one at or after the resume point starts after its end |
| `Robots.NothingAfterBlankRest` | WebCrawlerApp/WebCrawler.java:442-446 | when only delimiters follow, no later `Disallow:` exists, so the `break` loses no rule |
| `Robots.ScanFromStep` | WebCrawlerApp/WebCrawler.java:439-452 | one pass of the scan: true when no `Disallow:` or no token follows; otherwise false when the token is a prefix of the file path, else the answer of the scan resumed past that `Disallow:` |
| `Robots.ScanFromDecides` | WebCrawlerApp/WebCrawler.java:436-453 | the scan resumed at a position answers false iff a rule for the file path starts there or later |
| `Robots.ScanDecidesDisallowed` | WebCrawlerApp/WebCrawler.java:436-453 | the scan answers false iff some `Disallow:` is followed by a first token that is a prefix of the file path |
| `Robots.DisallowScan` | WebCrawlerApp/WebCrawler.java:436-453 | the loop returns the specified scan result |
| `Robots.RobotPolicy` | WebCrawlerApp/WebCrawler.java:405-454 | false for a malformed robots.txt URL; true when robots.txt cannot be read; otherwise true iff no `Disallow:` rule is a prefix of `getFile()` |
| `Scenarios.BlurExample` | WebCrawlerApp/WebCrawler.java:262-272 | `blurUrls("x<a>y")` is `"y"`: the character before `<a` goes with the markup |
| `Scenarios.AnchorTierExample` | WebCrawlerApp/WebCrawler.java:206-217 | query "cat" and anchor "Cats and Dogs" score 50 |
| `Scenarios.UrlTierExample` | WebCrawlerApp/WebCrawler.java:206-220 | query "cat", anchor "Pets" and URL "x/cat.html" score 40 |
| `Scenarios.PrevPassExample` | WebCrawlerApp/WebCrawler.java:228-238 | the previous words "my cat" give `u = 1` and the seen key "cat" |
| `Scenarios.NextPassExample` | WebCrawlerApp/WebCrawler.java:239-250 | the next words "is here" change nothing for "cat" |
| `Scenarios.ContextTierExample` | WebCrawlerApp/WebCrawler.java:222-259 | with "cat" among the previous words only, `u = 1` and `v = 0`, so the score is 5 |
| `Scenarios.PrivateToken` | WebCrawlerApp/WebCrawler.java:442-448 | the token after `Disallow:` in `Disallow: /private` is `/private` |
| `Scenarios.PrivateDisallowed` | WebCrawlerApp/WebCrawler.java:436-449 | `Disallow: /private` is a rule for `/private/page.html` |
| `Scenarios.SingleDisallow` | WebCrawlerApp/WebCrawler.java:439 | `Disallow: /private` holds one `Disallow:`, at its start |
| `Scenarios.PublicAllowed` | WebCrawlerApp/WebCrawler.java:436-453 | `Disallow: /private` is no rule for `/public/page.html` |
| `Scenarios.PolitenessExample` | WebCrawlerApp/WebCrawler.java:405-454 | with that robots.txt, `robotSafe` refuses `/private/page.html` and allows `/public/page.html` |
| `Scenarios.QuotedTarget` | WebCrawlerApp/WebCrawler.java:366-370 | with no quote before the first one or from two past it up to the second, the target is the text between the two quotes |
| `Scenarios.NextWordsSkipOneCharacter` | WebCrawlerApp/WebCrawler.java:296-319 | a word glued to the end of the markup loses its first letter: `more` comes out as `ore` |
| `Scenarios.NonPageTargetExample` | WebCrawlerApp/WebCrawler.java:364-373 | a target `x.pdf` yields no link |
| `Crawler.LinkEntry` | WebCrawlerApp/WebCrawler.java:118-177 | the entry one outlink adds, if any; characterised by `LinkEntryShape` |
| `Crawler.MergedEntry` | WebCrawlerApp/WebCrawler.java:151-177 | a copy of the first pending entry with the link's URL string carrying the summed score, or the link with its own score |
| `Crawler.AfterLinks` | WebCrawlerApp/WebCrawler.java:118-179 | the queue after the outlinks are handled in order, each one seeing the queue its predecessors left |
| `Crawler.LinkEntryShape` | WebCrawlerApp/WebCrawler.java:118-177 | an outlink yields an entry iff it has a context, parses and is not in `seenUrls`; with no pending copy the entry has the link's score; with one, it has the URL and score-plus-link-score of a pending entry with that URL string |
| `Crawler.AfterLinksOnlyAdds` | WebCrawlerApp/WebCrawler.java:116-178 | handling the outlinks of a page never removes a queued entry and adds at most one per outlink |
| `Crawler.MaxExists` | Utilities/URLScoreComparator.java:10-18 | a non-empty queue holds an entry whose score no other entry exceeds, so `poll` has something to return |
| `Crawler.WebCrawler.constructor` | WebCrawlerApp/WebCrawler.java:35-38 | the queue and the seen set start empty |
| `Crawler.WebCrawler.Initialize` | WebCrawlerApp/WebCrawler.java:40-55 | enqueues the parsed starting URL with score 0, or nothing when it is malformed |
| `Crawler.WebCrawler.Poll` | WebCrawlerApp/WebCrawler.java:73 | removes one occurrence of an entry that compares as -1 against every pending entry, and nothing else |
| `Crawler.WebCrawler.RobotSafe` | WebCrawlerApp/WebCrawler.java:405-454 | returns the specified robots policy for the URL |
| `Crawler.WebCrawler.ProcessOutlink` | WebCrawlerApp/WebCrawler.java:118-177 | the queue gains exactly the entry the outlink yields, if any; `seenUrls` is unchanged |
| `Crawler.WebCrawler.EnqueueScoredLink` | WebCrawlerApp/WebCrawler.java:151-177 | the queue gains exactly one entry: a copy of the first pending entry with the link's URL string carrying the summed score, or the link itself with its score; the old entry stays; `seenUrls` is unchanged |
| `Crawler.WebCrawler.NewScoredUrl` | WebCrawlerApp/WebCrawler.java:163-164 | a fresh `URLScore` given a score by `updateScore` holds that URL and exactly that score |
| `Crawler.WebCrawler.ProcessAndAddURLsOnCurrentPageToQueue` | WebCrawlerApp/WebCrawler.java:114-181 | the queue becomes the specified result of handling the outlinks in order; `seenUrls` is unchanged |
| `Crawler.WebCrawler.CrawlOnce` | WebCrawlerApp/WebCrawler.java:72-111 | polls a best-scored entry; a disallowed pop is dropped without counting or marking it seen; otherwise the URL string is marked seen and counted; at the limit the crawl stops before the outlinks, and below it the queue becomes the specified result of handling the page's outlinks |
| `Crawler.WebCrawler.Crawl` | WebCrawlerApp/WebCrawler.java:69-112 | the count never exceeds `maxNumPgs` (0 when that is not positive); `seenUrls` gains exactly the URL strings of the counted pages; stopping below the budget means the queue is empty |

## Left out

- The page download `downloadPageToDirectory` and `writePageContentToDisk`
  (network and disk) are the function `Env.fetch`. The source returns `""`
  on failure; the model takes whatever the function gives.
- Reading `robots.txt` is the function `Env.fetchRobots`, where `None` stands
  for the IOException. The source also throws when the first read returns -1
  (an empty robots.txt); that case is a property of the I/O and is not
  modelled.
- `java.net.URL` is not modelled: the model does not parse, resolve or
  normalise URLs, or compute `getHost()`, `getFile()` and `hashCode()`.
  These are the functions in `Net.UrlOps`.
- The proxy setup in `initialize`, the command-line flags, `main` and all
  debug printing are global configuration and output. The flags are
  constructor arguments of `WebCrawler`.
- The heap layout of the `PriorityQueue` and its iteration order are not
  modelled. `poll` returns some best entry, and the search for a pending copy
  of a link is `Env.firstMatch`.
- The iteration order of the `HashSet` of query words is the parameter
  `queryOrder`. It is required to list each word once.
- The queue holds `Entry` values, not references to `URLScore` objects. The
  source never changes an object after queuing it, so nothing depends on the
  aliasing.
- Unicode: `toLowerCase` and the regular expressions are modelled for ASCII.
- Pages that make the source throw are excluded by preconditions. `WebCrawler.Crawl` requires `PageOk` of every page
  the fetch function can return, not only of the pages it actually fetches.
- 32-bit overflow of `int` in `50 * C`, `4 * u` and the summed scores is not
  modelled: scores are unbounded integers.
- `Crawler.WebCrawler.Crawl`: states the count bound and the growth of
  `seenUrls`. The order of the fetches is stated only pass by pass, by
  `CrawlOnce`.
- `Extractor.FindHrefOutlinks`: `ClosedAfter` is stricter than the source in
  one case. When a page has no `/A>` and its only `<A` is at position 0, the
  source returns normally: it collects the two characters `<A` when an `href`
  follows. The model excludes that page. `Extractor.Outlinks` and the crawl
  requirements `LinkOk` and `PageOk` inherit the same restriction.
