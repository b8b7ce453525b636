# Add-blog page: category selection, validation and submit outcome

This project models the logic of the blog-post creation page of a web front end
(`frontend/src/pages/add-blog.tsx`). The page holds a draft post with these fields:
title, author name, image link, an ordered list of categories, a description and a
"featured" flag. It also holds the image picked in a modal dialog and whether that
modal is open. The model covers:

- **Category selection** (`CategorySelection`, `BlogDraft.ClickCategory`,
  `AddBlogPage.Page.HandleCategoryClick`). Clicking a selected category removes
  every occurrence of it. Clicking an unselected one appends it while fewer than
  three are selected. Otherwise the click is ignored. The page's helper
  `isValidCategory` returns true when a click is *blocked*; the model keeps that name
  and meaning.
- **Other draft updates**. The featured checkbox flips the flag. The modal's
  confirm button copies the picked image into the draft's image link and closes the
  modal.
- **Validation before submit** (`Validation.Validate`, `AddBlogPage.Page.ValidateFormData`).
  The empty-field check looks at the submitted data. The "at most three categories"
  check looks at the page's own category list. Both inputs are kept.
- **Submit outcome** (`Submission.Dispatch`, `Submission.Submit`,
  `AddBlogPage.Page.OnSubmit`). This maps the validator's verdict and the request's
  result to effect values: whether the request is sent, the toast shown, whether
  the session user is cleared, and where the page navigates (nowhere, at once, or
  after 2000 ms).

The page's state is a class, `AddBlogPage.Page`. Its handlers replace `formData`,
`selectedImage` and `modal` in place. Its object invariant is that the category
list has at most three entries and no duplicates. The process-wide user holder is
represented by a small class, `AddBlogPage.UserState`, with only its user field and
setter; a submit whose request throws with status 403 sets that user to none. The
handlers that change the draft (category click, checkbox, image commit) give the new
draft as a pure function of the old one in `BlogDraft`, and the lemmas are proved
about those functions. `HandleImageSelect` only sets `selectedImage`.

Three behaviours of the code are worth noting:
- Categories are an ordered list that is filtered and appended to. Because of this,
  reselecting a category moves it to the end (`ToggleReselectMovesToEnd`).
- When the request completes without throwing and its status is not 200, the page
  shows "Error: " followed by the server's message. Which statuses complete without
  throwing is decided by the HTTP client, not by this page (see "## Left out").
- The three-category cap is checked against the page's list, not the submitted data.

## Model

| member | source | states |
|---|---|---|
| `CategorySelection.IsValidCategory` | frontend/src/pages/add-blog.tsx:60-62 | a click is blocked only when at least three categories are selected, and never for a category already in the list |
| `CategorySelection.Without` | frontend/src/pages/add-blog.tsx:75 | the filtered list contains exactly the old entries other than `c`; it is never longer, and it is strictly shorter when `c` was present |
| `CategorySelection.WithoutCounts` | frontend/src/pages/add-blog.tsx:75 | filtering drops every occurrence of `c` and keeps every other entry as many times as it occurred (multiset) |
| `CategorySelection.WithoutConcat` | frontend/src/pages/add-blog.tsx:75 | filtering distributes over concatenation, so surviving entries keep their relative order |
| `CategorySelection.WithoutAbsent` | frontend/src/pages/add-blog.tsx:75 | filtering a name that is not in the list gives back the list |
| `CategorySelection.WithoutKeepsNoDup` | frontend/src/pages/add-blog.tsx:72-76 | removing a category from a duplicate-free list leaves it duplicate-free |
| `CategorySelection.WithoutSplice` | frontend/src/pages/add-blog.tsx:72-76 | removing a name that occurs exactly once, between `pre` and `post`, gives `pre + post`: only that entry is spliced out |
| `CategorySelection.Toggle` | frontend/src/pages/add-blog.tsx:69-83 | after a click, `c` is selected iff it was not selected before and fewer than three were selected; no other name's membership changes |
| `CategorySelection.ToggleKeepsWellFormed` | frontend/src/pages/add-blog.tsx:60-83 | a click keeps a list of at most three distinct entries at most three and distinct |
| `CategorySelection.ToggleAllKeepsWellFormed` | frontend/src/pages/add-blog.tsx:60-83 | any run of clicks keeps that invariant |
| `CategorySelection.ToggleSelected` | frontend/src/pages/add-blog.tsx:72-76 | whatever the list length, clicking a selected category removes every occurrence of it, shortens the list and keeps the other entries' counts |
| `CategorySelection.ToggleFull` | frontend/src/pages/add-blog.tsx:60-70 | with three or more selected, clicking an unselected category leaves the list unchanged |
| `CategorySelection.ToggleAppendRoundTrip` | frontend/src/pages/add-blog.tsx:72-81 | with room left, clicking an unselected category appends it at the end, and clicking it again gives back the original list |
| `CategorySelection.ToggleReselectMovesToEnd` | frontend/src/pages/add-blog.tsx:72-81 | deselecting and reselecting an entry `c` of a well-formed list `pre + [c] + post` gives `pre + post + [c]`: it moves to the end and the others keep their order |
| `BlogDraft.ClickCategory` | frontend/src/pages/add-blog.tsx:69-83 | a category click changes only `categories`; it keeps the selection invariant; `c` ends up selected iff it was unselected and there was room |
| `BlogDraft.ClickWhenFull` | frontend/src/pages/add-blog.tsx:60-70 | with three selected, clicking an unselected category leaves the whole draft unchanged |
| `BlogDraft.ClickTwiceRestores` | frontend/src/pages/add-blog.tsx:72-81 | with room left, a click appends the category, and a second click restores the whole draft |
| `BlogDraft.FlipFeatured` | frontend/src/pages/add-blog.tsx:92-94 | the checkbox handler negates `isFeaturedPost` and changes no other field |
| `BlogDraft.FlipFeaturedTwice` | frontend/src/pages/add-blog.tsx:92-94 | ticking the checkbox twice gives back the draft |
| `BlogDraft.CommitImage` | frontend/src/pages/add-blog.tsx:85-89 | committing the picked image sets `imageLink` to it and changes no other field |
| `Validation.Validate` | frontend/src/pages/add-blog.tsx:95-112 | accepted iff no submitted field is empty and the page's list has at most three entries. "All fields must be filled out." iff title, author name, image link or description is empty, or no category was submitted. "Select up to three categories." iff all fields are filled and the page's list has more than three entries |
| `Validation.FeaturedFlagIrrelevant` | frontend/src/pages/add-blog.tsx:95-105 | the featured flag never affects the verdict |
| `Validation.CapUnreachable` | frontend/src/pages/add-blog.tsx:107-111 | while the page's list keeps the selection invariant, the cap rejection never happens and acceptance depends on the empty-field check alone |
| `Submission.Dispatch` | frontend/src/pages/add-blog.tsx:115-141 | a sent request shows the success toast "Blog post successfully created!" and leaves for "/" after 2000 ms iff it completed with 200. It clears the user iff it threw with 403. It leaves for "/" at once iff it threw with 403 or 401. A thrown 403 shows the session-expired message and a thrown 401 the not-authorized message. A completed non-200 shows "Error: " and the server message; any other throw shows the generic message. Every navigation goes to "/" |
| `Submission.Submit` | frontend/src/pages/add-blog.tsx:113-143 | the request is sent iff validation accepted. An accepted submit has exactly the effects `Dispatch` gives for the request's result. A rejected submit only shows the validator's message: no clearing, no navigation. Clearing the user always comes with immediate navigation home |
| `Submission.EmptyFieldNeverPosts` | frontend/src/pages/add-blog.tsx:96-105 | a submit with an empty field never sends the request and shows "All fields must be filled out." |
| `Submission.SuccessOnlyOn200` | frontend/src/pages/add-blog.tsx:114-125 | a success toast appears iff validation accepted and the request completed with status 200 |
| `AddBlogPage.Page.constructor` | frontend/src/pages/add-blog.tsx:26-42 | the page starts with an empty draft, no picked image and the modal closed |
| `AddBlogPage.Page.HandleImageSelect` | frontend/src/pages/add-blog.tsx:30-32 | records the picked image and changes nothing else |
| `AddBlogPage.Page.HandleCategoryClick` | frontend/src/pages/add-blog.tsx:69-83 | replaces the draft by `ClickCategory` of the old draft, keeps the page invariant, and leaves the picked image and the modal alone |
| `AddBlogPage.Page.HandleSelector` | frontend/src/pages/add-blog.tsx:85-91 | sets the draft's image link to the picked image, changes no other draft field, and closes the modal |
| `AddBlogPage.Page.HandleCheckboxChange` | frontend/src/pages/add-blog.tsx:92-94 | replaces the draft by `FlipFeatured` of the old draft and changes nothing else |
| `AddBlogPage.Page.ValidateFormData` | frontend/src/pages/add-blog.tsx:95-112 | returns true iff `Validate` accepts the data against the page's list. It shows an error toast with the verdict's message exactly when it returns false. Under the page invariant, it returns true iff no field is empty |
| `AddBlogPage.Page.OnSubmit` | frontend/src/pages/add-blog.tsx:113-143 | the effects are `Submit` of the validator's verdict and the request result, and the session user becomes none exactly when those effects say to clear it |

## Left out

- The schema-based validator and the form library's resolver (lines 44-57) are not modelled. Their meaning lives in foreign libraries. The submitted data is a parameter of type `Draft`. In the real page that data comes from the form library, which registers only title, description, author name and image link. The model does not say what happens to the unregistered fields.
- The HTTP request, the base path taken from the environment and the credential header (lines 117-119) are network I/O. How the request ended is an input (`Submission.PostResult`): a status and the server's message when it completed, or a status when it threw.
- Which statuses complete and which throw is decided by the HTTP client library, not by this page. With that library's default settings every status outside 200-299 throws, so a 500 ends in the generic failure branch (line 139), and only a 2xx other than 200 shows the server's message. The model accepts any status in either form.
- The user value sent in the credential header is read from the session holder on every render of the page (line 27), so a submit uses the value from the latest render. It only feeds the header, which is left out, so the page class does not hold it.
- A thrown error that carries no response is not modelled. Line 130 reads the response's status, which itself throws in that case, so no toast is shown. `PostResult.Failed` always carries a status.
- Toasts, navigation and the 2000 ms timer are effect values in `Submission.Effects`, not behaviour. The console log of the error message (line 138) is left out.
- The session holder's own code (`@/utils/user-state`) is not part of this model. `AddBlogPage.UserState` keeps only the user field and the setter that a 403 calls.
- Theme detection from local storage (lines 144-148), all markup, styling, the modal component, the category pill and the category catalogue are left out. They are UI or code that is not part of this model. Category names are opaque strings.
- Opening the modal from the "Pick image" button (lines 259-261) is markup wiring and is not modelled.
- Asynchronous sequencing and duplicate in-flight submits are left out. The page has no guard against them.
