/** The blog-post draft that the add-blog page edits and submits, and its single-field updates. */
module BlogDraft {
  import opened CategorySelection

  /** One field per entry of the page's form record; categories keep their click order. */
  datatype Draft = Draft(
    title: string,
    authorName: string,
    imageLink: string,
    categories: seq<string>,
    description: string,
    isFeaturedPost: bool)

  /** The draft the page starts from: every text field empty, no category, not featured. */
  function EmptyDraft(): Draft
  {
    Draft("", "", "", [], "", false)
  }

  /** The draft after a click on category `c`: only the category list moves. */
  function ClickCategory(d: Draft, c: string): (r: Draft)
    ensures r.(categories := d.categories) == d
    ensures c in r.categories <==> c !in d.categories && |d.categories| < MaxCategories
    ensures WellFormed(d.categories) ==> WellFormed(r.categories)
  {
    assert WellFormed(d.categories) ==> WellFormed(Toggle(d.categories, c)) by {
      if WellFormed(d.categories) { ToggleKeepsWellFormed(d.categories, c); }
    }
    d.(categories := Toggle(d.categories, c))
  }

  /** The draft after the featured checkbox changes: only the flag moves, and it flips. */
  function FlipFeatured(d: Draft): (r: Draft)
    ensures r.isFeaturedPost != d.isFeaturedPost
    ensures r.(isFeaturedPost := d.isFeaturedPost) == d
  {
    d.(isFeaturedPost := !d.isFeaturedPost)
  }

  /** The draft after the picked image is committed: only the image link moves. */
  function CommitImage(d: Draft, image: string): (r: Draft)
    ensures r.imageLink == image
    ensures r.(imageLink := d.imageLink) == d
  {
    d.(imageLink := image)
  }

  /** Ticking the checkbox twice gives back the draft. */
  lemma FlipFeaturedTwice(d: Draft)
    ensures FlipFeatured(FlipFeatured(d)) == d
  {
  }

  /** Once three categories are selected, a click on a fourth leaves the whole draft as it was. */
  lemma ClickWhenFull(d: Draft, c: string)
    requires c !in d.categories && |d.categories| >= MaxCategories
    ensures ClickCategory(d, c) == d
  {
  }

  /** With room left, clicking an unselected category appends it; clicking again gives back the draft. */
  lemma ClickTwiceRestores(d: Draft, c: string)
    requires c !in d.categories && |d.categories| < MaxCategories
    ensures ClickCategory(d, c).categories == d.categories + [c]
    ensures ClickCategory(ClickCategory(d, c), c) == d
  {
    ToggleAppendRoundTrip(d.categories, c);
  }
}
