/**
  Normalising the language model's route tag
  (rag/langchain/response_selector.py). The model is an oracle: its reply
  text is the input here.
 */
module ResponseSelector {
  import opened Text

  /** The labels the classifier may return. */
  const Labels: seq<string> := ["store", "graphrag", "rag"]

  /** The reply trimmed and lower-cased when that is a tag, else "rag". */
  function QuestionClassifier(reply: string): (r: string)
    ensures r in Labels
    ensures Lower(Strip(reply)) in Labels ==> r == Lower(Strip(reply))
    ensures Lower(Strip(reply)) !in Labels ==> r == "rag"
  {
    var classification := Lower(Strip(reply));
    if classification !in Labels then "rag" else classification
  }

  /** Labels come back unchanged, so classifying a classification changes
      nothing. */
  lemma {:induction false} ClassifierIdempotent(reply: string)
    ensures QuestionClassifier(QuestionClassifier(reply)) == QuestionClassifier(reply)
  {
    var tag := QuestionClassifier(reply);
    assert tag == "store" || tag == "graphrag" || tag == "rag";
    LabelIsNormal(tag);
  }

  /** Every tag is its own trimmed, lower-cased form. */
  lemma LabelIsNormal(tag: string)
    requires tag in Labels
    ensures Lower(Strip(tag)) == tag
  {
    StripNoSpace(tag);
    LowerNoUpper(tag);
  }
}
