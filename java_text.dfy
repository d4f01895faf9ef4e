/**
  The behaviour of the `java.lang.String`, `java.util.regex` and
  `java.util.StringTokenizer` operations that the crawler relies on,
  restricted to ASCII text: `indexOf`, `contains`, `startsWith`, `endsWith`,
  `toLowerCase`, `split("\\s+")`, three `replaceAll` patterns and the first
  token of a default tokenizer.
*/
module JavaText {
  import opened Wrappers

  /** `\s` of a Java regular expression: space, \t, \n, \x0B, \f, \r. */
  predicate IsRegexSpace(c: char) {
    c == ' ' || c == '\t' || c == '\n' || c == '\r' || c as int == 0x0B || c as int == 0x0C
  }

  /** The delimiters of a `StringTokenizer` built without a delimiter string: " \t\n\r\f". */
  predicate IsTokenizerDelim(c: char) {
    c == ' ' || c == '\t' || c == '\n' || c == '\r' || c as int == 0x0C
  }

  /** `\w` of a Java regular expression: [A-Za-z0-9_]. */
  predicate IsWordChar(c: char) {
    'a' <= c <= 'z' || 'A' <= c <= 'Z' || '0' <= c <= '9' || c == '_'
  }

  predicate IsLetter(c: char) {
    'a' <= c <= 'z' || 'A' <= c <= 'Z'
  }

  function LowerChar(c: char): char {
    if 'A' <= c <= 'Z' then (c as int + 32) as char else c
  }

  /** `toLowerCase()` on ASCII text: every upper-case letter is replaced by its lower-case one. */
  function ToLower(s: string): (r: string)
    ensures |r| == |s|
    ensures forall i {:trigger r[i]} :: 0 <= i < |s| ==> r[i] == LowerChar(s[i])
  {
    if s == [] then [] else [LowerChar(s[0])] + ToLower(s[1..])
  }

  /** `replaceAll("\\n", " ")`: every newline becomes a space. */
  function NewlinesToSpaces(s: string): (r: string)
    ensures |r| == |s|
    ensures forall i :: 0 <= i < |s| ==> r[i] == (if s[i] == '\n' then ' ' else s[i])
  {
    if s == [] then [] else [if s[0] == '\n' then ' ' else s[0]] + NewlinesToSpaces(s[1..])
  }

  /** `replaceAll("[^a-zA-Z ]", " ")`: every character other than a letter or a space becomes a space. */
  function LettersAndSpaces(s: string): (r: string)
    ensures |r| == |s|
    ensures forall i :: 0 <= i < |s| ==> r[i] == (if IsLetter(s[i]) || s[i] == ' ' then s[i] else ' ')
  {
    if s == [] then [] else [if IsLetter(s[0]) || s[0] == ' ' then s[0] else ' '] + LettersAndSpaces(s[1..])
  }

  /** `replaceAll("[\\W]", "")`: the word characters of `s`, in order. */
  function StripNonWord(s: string): (r: string)
    ensures |r| <= |s|
    ensures forall i :: 0 <= i < |r| ==> IsWordChar(r[i])
    ensures (forall i :: 0 <= i < |s| ==> IsWordChar(s[i])) ==> r == s
  {
    if s == [] then []
    else if IsWordChar(s[0]) then [s[0]] + StripNonWord(s[1..])
    else StripNonWord(s[1..])
  }

  /**
    `replaceAll("[\\W]", "")` works character by character: a single character
    survives exactly when it is a word character, and stripping a concatenation
    strips each part.
  */
  lemma {:induction false} StripNonWordAppend(a: string, b: string)
    ensures StripNonWord(a + b) == StripNonWord(a) + StripNonWord(b)
    ensures |a| == 1 ==> StripNonWord(a) == if IsWordChar(a[0]) then a else []
    decreases |a|
  {
    if a == [] {
      assert a + b == b;
    } else {
      assert (a + b)[1..] == a[1..] + b;
      StripNonWordAppend(a[1..], b);
      if |a| == 1 {
        assert a[1..] == [];
        assert a == [a[0]];
      }
    }
  }

  /** `pat` occurs in `s` at position `k`. */
  predicate MatchAt(s: string, pat: string, k: int) {
    0 <= k && k + |pat| <= |s| && PrefixAt(s, pat, k)
  }

  /** `s` continues with `pat` from position `k` on, compared character by character. */
  predicate PrefixAt(s: string, pat: string, k: nat)
    requires k + |pat| <= |s|
    decreases |pat|
  {
    pat == [] || (s[k] == pat[0] && PrefixAt(s, pat[1..], k + 1))
  }

  /** The character-by-character comparison is the comparison of `s[k..k + |pat|]` with `pat`. */
  lemma {:induction false} PrefixAtIsSlice(s: string, pat: string, k: nat)
    requires k + |pat| <= |s|
    ensures PrefixAt(s, pat, k) <==> s[k..k + |pat|] == pat
    decreases |pat|
  {
    if pat != [] {
      PrefixAtIsSlice(s, pat[1..], k + 1);
      assert s[k..k + |pat|] == [s[k]] + s[k + 1..k + 1 + |pat[1..]|];
      assert pat == [pat[0]] + pat[1..];
    }
  }

  /** The start position `indexOf` uses: a negative `fromIndex` counts as 0. */
  function Clamp(from: int): nat {
    if from < 0 then 0 else from
  }

  /** The first position at or after `k` where `pat` occurs, or -1. */
  function SearchFrom(s: string, pat: string, k: nat): (r: int)
    requires k <= |s|
    ensures r == -1 || k <= r <= |s|
    decreases |s| - k
  {
    if k + |pat| > |s| then -1
    else if PrefixAt(s, pat, k) then k
    else SearchFrom(s, pat, k + 1)
  }

  /** `SearchFrom` finds the first occurrence at or after `k`, and -1 only when there is none. */
  lemma {:induction false} SearchFromIsFirst(s: string, pat: string, k: nat)
    requires k <= |s|
    ensures var r := SearchFrom(s, pat, k);
      (r == -1 || MatchAt(s, pat, r)) &&
      forall j :: k <= j && (r == -1 || j < r) ==> !MatchAt(s, pat, j)
    decreases |s| - k
  {
    if k + |pat| <= |s| && !PrefixAt(s, pat, k) {
      SearchFromIsFirst(s, pat, k + 1);
    }
  }

  /**
    `s.indexOf(pat, from)`: -1, or a position at or after `from` (at `|s|` for
    the empty pattern when `from` is past the end). What it finds is stated by
    `IndexOfIsFirst`, which callers invoke where they need it.
  */
  function IndexOf(s: string, pat: string, from: int): (r: int)
    ensures -1 <= r <= |s|
    ensures r == -1 || Clamp(from) <= r || (pat == [] && r == |s|)
  {
    var f := Clamp(from);
    if f >= |s| then (if pat == [] then |s| else -1)
    else SearchFrom(s, pat, f)
  }

  /** `indexOf` returns the first occurrence at or after `from`, and -1 only when there is none. */
  lemma IndexOfIsFirst(s: string, pat: string, from: int)
    ensures var r := IndexOf(s, pat, from);
      (pat != [] ==> r == -1 || (Clamp(from) <= r && MatchAt(s, pat, r))) &&
      (pat != [] ==> forall k :: Clamp(from) <= k && (r == -1 || k < r) ==> !MatchAt(s, pat, k)) &&
      (pat == [] ==> r == (if Clamp(from) <= |s| then Clamp(from) else |s|))
  {
    if Clamp(from) < |s| {
      SearchFromIsFirst(s, pat, Clamp(from));
    }
  }

  /** A pattern match fixes every character it covers. */
  lemma MatchAtAt(s: string, pat: string, k: int, d: int)
    requires MatchAt(s, pat, k) && 0 <= d < |pat|
    ensures s[k + d] == pat[d]
  {
    PrefixAtIsSlice(s, pat, k);
    assert s[k..k + |pat|][d] == s[k + d];
  }

  /** `indexOf` answers `p` when `pat` occurs there and nowhere between the clamped `from` and `p`. */
  lemma IndexOfFinds(s: string, pat: string, from: int, p: int)
    requires pat != [] && Clamp(from) <= p && MatchAt(s, pat, p)
    requires forall k :: Clamp(from) <= k < p ==> !MatchAt(s, pat, k)
    ensures IndexOf(s, pat, from) == p
  {
    IndexOfIsFirst(s, pat, from);
  }

  /** `indexOf(c, from)` answers the first position at or after `from` that holds `c`. */
  lemma IndexOfFindsChar(s: string, c: char, from: nat, p: nat)
    requires from <= p < |s| && s[p] == c && c !in s[from..p]
    ensures IndexOf(s, [c], from) == p
  {
    MatchAtChar(s, c, p);
    forall k | from <= k < p ensures !MatchAt(s, [c], k) {
      MatchAtChar(s, c, k);
      assert s[k] == s[from..p][k - from];
    }
    IndexOfFinds(s, [c], from, p);
  }

  /** A one-character pattern occurs exactly where that character is. */
  lemma MatchAtChar(s: string, c: char, k: int)
    ensures MatchAt(s, [c], k) <==> 0 <= k < |s| && s[k] == c
  {
    if 0 <= k < |s| {
      assert [c][1..] == [];
      assert PrefixAt(s, [c], k) == (s[k] == c && PrefixAt(s, [], k + 1));
    }
  }

  /** `s.contains(pat)`, which Java defines as `indexOf(pat) > -1`. */
  function Contains(s: string, pat: string): (b: bool)
    ensures b <==> exists k :: MatchAt(s, pat, k)
  {
    assert pat == [] ==> MatchAt(s, pat, 0);
    IndexOfIsFirst(s, pat, 0);
    IndexOf(s, pat, 0) != -1
  }

  predicate StartsWith(s: string, p: string) {
    |p| <= |s| && s[..|p|] == p
  }

  predicate EndsWith(s: string, p: string) {
    |p| <= |s| && s[|s| - |p|..] == p
  }

  /** `s.indexOf(p) == 0` is the same test as `s.startsWith(p)`. */
  lemma IndexOfZeroIsPrefix(s: string, p: string)
    ensures IndexOf(s, p, 0) == 0 <==> StartsWith(s, p)
  {
    IndexOfIsFirst(s, p, 0);
    if |p| <= |s| {
      PrefixAtIsSlice(s, p, 0);
    }
  }

  /** A token of `split("\\s+")` other than a leading empty one: non-empty, no `\s`. */
  predicate IsWord(w: string) {
    w != [] && forall k :: 0 <= k < |w| ==> !IsRegexSpace(w[k])
  }

  predicate HasRegexSpace(s: string) {
    exists k :: 0 <= k < |s| && IsRegexSpace(s[k])
  }

  /** Length of the longest prefix of `s` without `\s`. */
  function RunLength(s: string): (n: nat)
    ensures n <= |s|
    ensures forall k :: 0 <= k < n ==> !IsRegexSpace(s[k])
    ensures n < |s| ==> IsRegexSpace(s[n])
  {
    if s == [] || IsRegexSpace(s[0]) then 0 else 1 + RunLength(s[1..])
  }

  /** The maximal runs of characters other than `\s` in `s`, in order. */
  function Words(s: string): (ws: seq<string>)
    ensures forall i :: 0 <= i < |ws| ==> IsWord(ws[i])
    ensures ws == [] <==> !exists k :: 0 <= k < |s| && !IsRegexSpace(s[k])
    decreases |s|
  {
    if s == [] then []
    else if IsRegexSpace(s[0]) then
      var r := Words(s[1..]);
      assert forall k :: 1 <= k < |s| ==> s[k] == s[1..][k - 1];
      r
    else
      var n := RunLength(s);
      [s[..n]] + Words(s[n..])
  }

  /** `w` is the maximal run of characters other than `\s` that starts at position `a` of `s`. */
  predicate RunAt(s: string, a: int, w: string) {
    IsWord(w) && 0 <= a && a + |w| <= |s| && s[a..a + |w|] == w &&
    (a == 0 || IsRegexSpace(s[a - 1])) && (a + |w| == |s| || IsRegexSpace(s[a + |w|]))
  }

  /** Index of the first `\s` at or after `p` (or |s|). */
  function RunEnd(s: string, p: nat): (e: nat)
    requires p <= |s|
    ensures p <= e <= |s|
    ensures forall k :: p <= k < e ==> !IsRegexSpace(s[k])
    ensures e < |s| ==> IsRegexSpace(s[e])
    decreases |s| - p
  {
    if p == |s| || IsRegexSpace(s[p]) then p else RunEnd(s, p + 1)
  }

  /** Where the maximal runs without `\s` of `s[p..]` start, as positions of `s`. */
  function StartsFrom(s: string, p: nat): (st: seq<nat>)
    requires p <= |s|
    ensures forall i :: 0 <= i < |st| ==> p <= st[i] < |s| && !IsRegexSpace(s[st[i]])
    decreases |s| - p
  {
    if p == |s| then []
    else if IsRegexSpace(s[p]) then StartsFrom(s, p + 1)
    else [p] + StartsFrom(s, RunEnd(s, p))
  }

  /** Where each of the `Words` of `s` starts. */
  function WordStarts(s: string): seq<nat> {
    StartsFrom(s, 0)
  }

  /** `RunLength` of a suffix and `RunEnd` find the same `\s`. */
  lemma RunLengthIsRunEnd(s: string, p: nat)
    requires p <= |s|
    ensures p + RunLength(s[p..]) == RunEnd(s, p)
  {
  }

  /** One step of `Words` on the suffix that starts at `p`. */
  lemma WordsStep(s: string, p: nat)
    requires p < |s|
    ensures IsRegexSpace(s[p]) ==> Words(s[p..]) == Words(s[p + 1..])
    ensures !IsRegexSpace(s[p]) ==> Words(s[p..]) == [s[p..RunEnd(s, p)]] + Words(s[RunEnd(s, p)..])
  {
    var t := s[p..];
    if IsRegexSpace(s[p]) {
      assert t[1..] == s[p + 1..];
    } else {
      var e := RunEnd(s, p);
      RunLengthIsRunEnd(s, p);
      assert t[..e - p] == s[p..e];
      assert t[e - p..] == s[e..];
    }
  }

  /** `Words(s[p..])` has one word per start. */
  lemma {:induction false} StartsCount(s: string, p: nat)
    requires p <= |s|
    ensures |StartsFrom(s, p)| == |Words(s[p..])|
    decreases |s| - p
  {
    if p < |s| {
      WordsStep(s, p);
      if IsRegexSpace(s[p]) {
        StartsCount(s, p + 1);
      } else {
        StartsCount(s, RunEnd(s, p));
      }
    }
  }

  /** The i-th word of `s[p..]` is the text from its start up to the next `\s`. */
  lemma {:induction false} WordIsRun(s: string, p: nat, i: nat)
    requires p <= |s| && i < |Words(s[p..])| && i < |StartsFrom(s, p)|
    ensures Words(s[p..])[i] == s[StartsFrom(s, p)[i]..RunEnd(s, StartsFrom(s, p)[i])]
    decreases |s| - p
  {
    WordsStep(s, p);
    var a := StartsFrom(s, p)[i];
    if IsRegexSpace(s[p]) {
      assert a == StartsFrom(s, p + 1)[i];
      WordIsRun(s, p + 1, i);
    } else {
      var e := RunEnd(s, p);
      var st := StartsFrom(s, e);
      assert StartsFrom(s, p) == [p] + st;
      if i == 0 {
        assert a == p;
      } else {
        assert a == st[i - 1];
        assert Words(s[p..])[i] == Words(s[e..])[i - 1];
        WordIsRun(s, e, i - 1);
      }
    }
  }

  /** Each start is preceded by `\s` or is the start of the text. */
  lemma {:induction false} StartAfterSpace(s: string, p: nat, i: nat)
    requires p <= |s| && i < |StartsFrom(s, p)|
    requires p == 0 || IsRegexSpace(s[p - 1]) || (p < |s| && IsRegexSpace(s[p]))
    ensures var a := StartsFrom(s, p)[i]; a == 0 || IsRegexSpace(s[a - 1])
    decreases |s| - p
  {
    if IsRegexSpace(s[p]) {
      StartAfterSpace(s, p + 1, i);
    } else if i > 0 {
      StartAfterSpace(s, RunEnd(s, p), i - 1);
    }
  }

  /** Each word ends, and a `\s` follows, before the next word starts. */
  lemma {:induction false} StartsInOrder(s: string, p: nat, i: nat)
    requires p <= |s| && 0 < i < |StartsFrom(s, p)|
    ensures RunEnd(s, StartsFrom(s, p)[i - 1]) < StartsFrom(s, p)[i]
    decreases |s| - p
  {
    if IsRegexSpace(s[p]) {
      StartsInOrder(s, p + 1, i);
    } else if i > 1 {
      StartsInOrder(s, RunEnd(s, p), i - 1);
    }
  }

  /** Every character of `s[p..]` other than `\s` lies inside a word; `i` says which. */
  lemma {:induction false} StartsCover(s: string, p: nat, k: nat) returns (i: nat)
    requires p <= k < |s| && !IsRegexSpace(s[k])
    ensures i < |StartsFrom(s, p)| && StartsFrom(s, p)[i] <= k < RunEnd(s, StartsFrom(s, p)[i])
    decreases |s| - p
  {
    if IsRegexSpace(s[p]) {
      i := StartsCover(s, p + 1, k);
    } else {
      var e := RunEnd(s, p);
      if k < e {
        i := 0;
      } else {
        var j := StartsCover(s, e, k);
        i := j + 1;
      }
    }
  }

  /** The i-th word is the maximal run of non-`\s` characters that starts at the i-th start. */
  lemma WordAt(s: string, i: nat)
    requires i < |Words(s)|
    ensures i < |WordStarts(s)| && RunAt(s, WordStarts(s)[i], Words(s)[i])
  {
    assert s[0..] == s;
    StartsCount(s, 0);
    WordIsRun(s, 0, i);
    StartAfterSpace(s, 0, i);
    var a := WordStarts(s)[i];
    var e := RunEnd(s, a);
    var w := Words(s)[i];
    assert w == s[a..e];
    assert IsWord(w) by {
      forall k | 0 <= k < |w| ensures !IsRegexSpace(w[k]) {
        assert w[k] == s[a + k];
      }
    }
    assert a + |w| == e;
  }

  /**
    The words are the maximal runs of the text: there is one start per word,
    each word is the maximal run at its start, each ends before the next
    begins, and every character other than `\s` lies inside one of them.
  */
  lemma WordsAreRuns(s: string)
    ensures |WordStarts(s)| == |Words(s)|
    ensures forall i :: 0 <= i < |Words(s)| ==> RunAt(s, WordStarts(s)[i], Words(s)[i])
    ensures forall i :: 0 < i < |Words(s)| ==> WordStarts(s)[i - 1] + |Words(s)[i - 1]| < WordStarts(s)[i]
    ensures forall k :: 0 <= k < |s| && !IsRegexSpace(s[k]) ==>
      exists i :: 0 <= i < |Words(s)| && WordStarts(s)[i] <= k < WordStarts(s)[i] + |Words(s)[i]|
  {
    assert s[0..] == s;
    StartsCount(s, 0);
    forall i | 0 <= i < |Words(s)| ensures RunAt(s, WordStarts(s)[i], Words(s)[i]) {
      WordAt(s, i);
    }
    forall i | 0 < i < |Words(s)| ensures WordStarts(s)[i - 1] + |Words(s)[i - 1]| < WordStarts(s)[i] {
      WordIsRun(s, 0, i - 1);
      StartsInOrder(s, 0, i);
    }
    forall k | 0 <= k < |s| && !IsRegexSpace(s[k])
      ensures exists i :: 0 <= i < |Words(s)| && WordStarts(s)[i] <= k < WordStarts(s)[i] + |Words(s)[i]|
    {
      var i := StartsCover(s, 0, k);
      WordIsRun(s, 0, i);
    }
  }

  /**
    `s.split("\\s+")`: without any `\s` the result is `[s]` (even for ""); otherwise
    the maximal runs without `\s`, preceded by one empty token when `s` starts with
    `\s`, with trailing empty tokens removed (so all-`\s` text gives no token).
  */
  function Split(s: string): (ws: seq<string>)
    ensures !HasRegexSpace(s) ==> ws == [s]
    ensures forall i :: 0 < i < |ws| ==> IsWord(ws[i])
    ensures HasRegexSpace(s) ==>
      ws == (if Words(s) != [] && IsRegexSpace(s[0]) then [""] else []) + Words(s)
    ensures (|ws| > 0 && ws[0] == []) <==> s == [] || (IsRegexSpace(s[0]) && Words(s) != [])
    ensures |ws| > 0 && ws[0] != [] ==> IsWord(ws[0])
  {
    if !HasRegexSpace(s) then [s]
    else
      var w := Words(s);
      if w == [] then []
      else if IsRegexSpace(s[0]) then [""] + w
      else w
  }

  /** Index of the first character at or after `i` that is not a tokenizer delimiter (or |s|). */
  function SkipDelims(s: string, i: nat): (j: nat)
    requires i <= |s|
    ensures i <= j <= |s|
    ensures forall k :: i <= k < j ==> IsTokenizerDelim(s[k])
    ensures j < |s| ==> !IsTokenizerDelim(s[j])
    decreases |s| - i
  {
    if i == |s| || !IsTokenizerDelim(s[i]) then i else SkipDelims(s, i + 1)
  }

  /** Index of the first tokenizer delimiter at or after `i` (or |s|). */
  function TokenEnd(s: string, i: nat): (j: nat)
    requires i <= |s|
    ensures i <= j <= |s|
    ensures forall k :: i <= k < j ==> !IsTokenizerDelim(s[k])
    ensures j < |s| ==> IsTokenizerDelim(s[j])
    decreases |s| - i
  {
    if i == |s| || IsTokenizerDelim(s[i]) then i else TokenEnd(s, i + 1)
  }

  /** `tok` is what a default tokenizer returns first from `s` when it starts reading at `i`. */
  predicate TokenAt(s: string, i: int, tok: string) {
    0 <= i && i + |tok| <= |s| && s[i..i + |tok|] == tok &&
    (forall k :: 0 <= k < i ==> IsTokenizerDelim(s[k])) &&
    (i + |tok| == |s| || IsTokenizerDelim(s[i + |tok|]))
  }

  /**
    `new StringTokenizer(s)`: `None` when `hasMoreTokens()` is false, otherwise
    `Some` of what `nextToken()` returns.
  */
  function FirstToken(s: string): Option<string> {
    var i := SkipDelims(s, 0);
    if i == |s| then None else Some(s[i..TokenEnd(s, i)])
  }

  /**
    The tokenizer has no token exactly when `s` is all delimiters; otherwise its
    token is a non-empty run of non-delimiters preceded only by delimiters and
    ending at a delimiter or at the end of `s`.
  */
  lemma FirstTokenIsFirst(s: string)
    ensures var t := FirstToken(s);
      (t.None? <==> forall k :: 0 <= k < |s| ==> IsTokenizerDelim(s[k])) &&
      (t.Some? ==>
        t.value != [] && (forall k :: 0 <= k < |t.value| ==> !IsTokenizerDelim(t.value[k])) &&
        exists i :: TokenAt(s, i, t.value))
  {
    var i := SkipDelims(s, 0);
    if i < |s| {
      var j := TokenEnd(s, i);
      assert TokenAt(s, i, s[i..j]);
    }
  }
}
