/**
 * The page's own check before a post is submitted. It looks at the submitted
 * data for empty fields, but takes the category cap from the page's own
 * category list, which may differ from the submitted one.
 */
module Validation {
  import opened BlogDraft
  import CategorySelection

  const MissingFieldsMessage := "All fields must be filled out."
  const TooManyCategoriesMessage := "Select up to three categories."

  /** Either the data may be posted, or the error toast to show instead. */
  datatype Verdict = Accepted | Rejected(message: string)

  /** Some text field is empty or no category was submitted. */
  predicate HasEmptyField(data: Draft)
  {
    data.title == "" || data.authorName == "" || data.imageLink == ""
    || data.description == "" || |data.categories| == 0
  }

  /** The verdict for `data` when the page's category list is `pageCategories`. */
  function Validate(data: Draft, pageCategories: seq<string>): (v: Verdict)
    ensures v == Accepted <==> !HasEmptyField(data) && |pageCategories| <= CategorySelection.MaxCategories
    ensures v == Rejected(MissingFieldsMessage) <==> HasEmptyField(data)
    ensures v == Rejected(TooManyCategoriesMessage)
            <==> !HasEmptyField(data) && |pageCategories| > CategorySelection.MaxCategories
  {
    if HasEmptyField(data) then Rejected(MissingFieldsMessage)
    else if |pageCategories| > CategorySelection.MaxCategories then Rejected(TooManyCategoriesMessage)
    else Accepted
  }

  /** The featured flag never changes the verdict. */
  lemma FeaturedFlagIrrelevant(data: Draft, pageCategories: seq<string>, featured: bool)
    ensures Validate(data.(isFeaturedPost := featured), pageCategories) == Validate(data, pageCategories)
  {
  }

  /**
   * While the page's list keeps the selection invariant, the cap branch is
   * unreachable: the verdict depends on the empty-field check alone.
   */
  lemma CapUnreachable(data: Draft, pageCategories: seq<string>)
    requires CategorySelection.WellFormed(pageCategories)
    ensures Validate(data, pageCategories) != Rejected(TooManyCategoriesMessage)
    ensures Validate(data, pageCategories) == Accepted <==> !HasEmptyField(data)
  {
  }
}
