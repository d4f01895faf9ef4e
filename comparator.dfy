/**
  Utilities/URLScoreComparator.java. `compare(o1, o2)` reads nothing but
  `o1.getScore()` and `o2.getScore()`, so it is stated on the entries' values.
*/
module URLScoreComparator {
  import opened URLScores

  /** -1 when the first score is at least the second, 1 otherwise; never 0. */
  function Compare(o1: Entry, o2: Entry): (r: int)
    ensures r == -1 <==> o1.score >= o2.score
    ensures r == 1 <==> o1.score < o2.score
  {
    if o1.score == o2.score then -1
    else if o1.score > o2.score then -1
    else 1
  }

  /** On equal scores both argument orders give -1: the comparator is not antisymmetric on ties. */
  lemma TiesCompareLessBothWays(a: Entry, b: Entry)
    requires a.score == b.score
    ensures Compare(a, b) == -1 && Compare(b, a) == -1
  {
  }

  /** On distinct scores swapping the arguments negates the result. */
  lemma DistinctScoresAntisymmetric(a: Entry, b: Entry)
    requires a.score != b.score
    ensures Compare(a, b) == -Compare(b, a)
  {
  }

  /** "compares as -1" is transitive, since it is `>=` on scores. */
  lemma LessIsTransitive(a: Entry, b: Entry, c: Entry)
    requires Compare(a, b) == -1 && Compare(b, c) == -1
    ensures Compare(a, c) == -1
  {
  }

  /** Only the scores matter, never the URLs. */
  lemma OnlyScoresMatter(a: Entry, b: Entry, a': Entry, b': Entry)
    requires a.score == a'.score && b.score == b'.score
    ensures Compare(a, b) == Compare(a', b')
  {
  }
}
