/** WebCrawlerApp/URLScore.java: a URL together with a mutable relevance score. */
module URLScores {
  import opened Net

  /** The value of a `URLScore` at one moment: what the frontier stores. */
  datatype Entry = Entry(url: Url, score: int)

  class URLScore {
    const url: Url
    var score: int

    /** A new object has the given URL and the default score 0. */
    constructor (url: Url)
      ensures GetURL() == url && GetURLAsString() == url.text && GetScore() == 0
    {
      this.url := url;
      score := 0;
    }

    function GetURL(): Url {
      url
    }

    function GetScore(): int
      reads this
    {
      score
    }

    function GetURLAsString(): string {
      url.text
    }

    /** The entry this object stands for in the priority queue. */
    function Value(): Entry
      reads this
    {
      Entry(url, score)
    }

    /** Replaces the score (it does not add to it); the URL is unchanged. */
    method UpdateScore(newScore: int)
      modifies this
      ensures GetScore() == newScore
      ensures Value() == old(Value()).(score := newScore)
    {
      score := newScore;
    }

    /**
      `equals(Object)`: false for anything that is not a URLScore, true for this
      object, and otherwise decided by the URL strings alone, never by the scores.
    */
    function Equals(o: object?): (r: bool)
      ensures r <==> o is URLScore && (o as URLScore).GetURLAsString() == GetURLAsString()
      ensures o == this ==> r
    {
      if !(o is URLScore) then false
      else if o == this then true
      else (o as URLScore).url.text == url.text
    }
  }
}
