/**
  Checking the language model's product-name answer against the product and
  brand keywords it was offered (rag/langchain/name_match.py). The model is
  an oracle: its trimmed reply is the input here.
 */
module NameMatch {
  import opened Wrappers
  import opened Text

  const RightQuote: char := '’'
  const LeftQuote: char := '‘'

  /** The comparison form of a name: lower-cased, with both curly single
      quotes replaced by a straight one. */
  function Normalize(s: string): (r: string)
    ensures RightQuote !in r && LeftQuote !in r
  {
    var lowered := Lower(s);
    var once := Replace(lowered, [RightQuote], "'");
    ReplaceCharGone(lowered, RightQuote, "'", RightQuote);
    ReplaceCharGone(once, LeftQuote, "'", RightQuote);
    ReplaceCharGone(once, LeftQuote, "'", LeftQuote);
    Replace(once, [LeftQuote], "'")
  }

  /** `xs.index(x)`: the first position of `x`, or None. */
  function IndexOf(xs: seq<string>, x: string): (r: Option<nat>)
    ensures r.Some? ==> r.value < |xs| && xs[r.value] == x && forall j :: 0 <= j < r.value ==> xs[j] != x
    ensures r.None? <==> x !in xs
  {
    if xs == [] then None
    else if xs[0] == x then Some(0)
    else match IndexOf(xs[1..], x)
      case None => None
      case Some(k) =>
        assert forall j :: 1 <= j < |xs| ==> xs[j] == xs[1..][j - 1];
        Some(k + 1)
  }

  /** The keywords in comparison form, in order. */
  function NormalizeAll(keywords: seq<string>): (r: seq<string>)
    ensures |r| == |keywords| && forall i :: 0 <= i < |keywords| ==> r[i] == Normalize(keywords[i])
  {
    seq(|keywords|, i requires 0 <= i < |keywords| => Normalize(keywords[i]))
  }

  /** The post-processing of `product_match`: a reply that is "none" in any
      case gives None; otherwise the first keyword whose comparison form
      equals the reply's, as a one-element list, or None when there is no
      such keyword. */
  function ProductMatch(reply: string, keywords: seq<string>): (r: Option<seq<string>>)
    ensures r.None? <==>
      Lower(Strip(reply)) == "none" ||
      forall i :: 0 <= i < |keywords| ==> Normalize(keywords[i]) != Normalize(Strip(reply))
    ensures r.Some? ==>
      exists i :: 0 <= i < |keywords| && r.value == [keywords[i]] &&
        Normalize(keywords[i]) == Normalize(Strip(reply)) &&
        forall j :: 0 <= j < i ==> Normalize(keywords[j]) != Normalize(Strip(reply))
  {
    var answer := Strip(reply);
    if Lower(answer) == "none" then None
    else
      var normAnswer := Normalize(answer);
      var choices := NormalizeAll(keywords);
      match IndexOf(choices, normAnswer)
      case None => None
      case Some(i) => Some([keywords[i]])
  }
}
