/** Recognising a request for reviews of the job (handlers/reviews.py). */
module Reviews {
  import opened Text

  /** Phrases that make a message a request for reviews; matched as substrings. */
  const ReviewKeywords: seq<string> := [
    "отзыв", "отзывы", "отзывами",
    "реальн", "правда", "работает",
    "кто работал", "кто работает",
    "девочки зарабатывают", "можно ли доверять",
    "это правда", "это реально"]

  /** `is_review_request(text)`. */
  predicate IsReviewRequest(text: string)
  {
    AnyIn(ReviewKeywords, Lower(text))
  }

  /** Lower-casing the message first changes nothing. */
  lemma ReviewIgnoresCase(text: string)
    ensures IsReviewRequest(Lower(text)) == IsReviewRequest(text)
  {
    LowerIdempotent(text);
  }

  /** No keyword is empty, so an empty message is never a review request. */
  lemma EmptyIsNotReviewRequest()
    ensures !IsReviewRequest("")
  {
    assert Lower("") == "";
    forall i | 0 <= i < |ReviewKeywords| ensures !Contains("", ReviewKeywords[i]) {
      EmptyContainsOnlyEmpty(ReviewKeywords[i]);
    }
  }

  /** A message that contains a review request is a review request. */
  lemma {:induction false} ReviewMonotone(text: string, part: string)
    requires Contains(text, part) && IsReviewRequest(part)
    ensures IsReviewRequest(text)
  {
    var i :| 0 <= i < |ReviewKeywords| && Contains(Lower(part), ReviewKeywords[i]);
    LowerPreservesContains(text, part);
    ContainsTransitive(Lower(text), Lower(part), ReviewKeywords[i]);
  }
}
