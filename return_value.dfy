/**
  Utilities/ReturnValue.java: the immutable record `processHrefLink` returns.
  Its four getters are the four fields; a datatype value never changes.
*/
module ReturnValues {
  datatype LinkContext = LinkContext(
    prvFiveWords: seq<string>,   // getPrvFiveWords()
    nextFiveWords: seq<string>,  // getNextFiveWords()
    anchor: string,              // getAnchor()
    url: string                  // getUrl()
  )

  /** Each getter returns the constructor argument in its position; nothing can change it later. */
  lemma GettersReturnConstructorArguments(prv: seq<string>, next: seq<string>, anch: string, url: string)
    ensures var r := LinkContext(prv, next, anch, url);
      r.prvFiveWords == prv && r.nextFiveWords == next && r.anchor == anch && r.url == url
  {
  }
}
