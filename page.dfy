/**
 * The add-blog page as an object: its draft, the image picked in the modal
 * and whether the modal is open. The event handlers replace these fields;
 * submitting may clear the user held by the session singleton.
 */
module AddBlogPage {
  import opened BlogDraft
  import opened CategorySelection
  import opened Validation
  import opened Submission

  datatype Option<T> = None | Some(value: T)

  /** The process-wide holder of the signed-in user. */
  class UserState {
    var user: Option<string>

    constructor (user: Option<string>)
      ensures this.user == user
    {
      this.user := user;
    }

    method SetUser(user: Option<string>)
      modifies this
      ensures this.user == user
    {
      this.user := user;
    }
  }

  class Page {
    var formData: Draft
    var selectedImage: string
    var modal: bool
    const userState: UserState

    /** The selection invariant on the page's own category list. */
    ghost predicate Valid()
      reads this
    {
      WellFormed(formData.categories)
    }

    constructor (userState: UserState)
      ensures Valid()
      ensures formData == EmptyDraft() && selectedImage == "" && !modal
      ensures this.userState == userState
    {
      formData := EmptyDraft();
      selectedImage := "";
      modal := false;
      this.userState := userState;
    }

    /** The modal reports the image the user picked. */
    method HandleImageSelect(imageUrl: string)
      modifies this
      ensures selectedImage == imageUrl
      ensures formData == old(formData) && modal == old(modal)
    {
      selectedImage := imageUrl;
    }

    /** A click on a category pill. */
    method HandleCategoryClick(category: string)
      requires Valid()
      modifies this
      ensures Valid()
      ensures formData == ClickCategory(old(formData), category)
      ensures selectedImage == old(selectedImage) && modal == old(modal)
    {
      ToggleKeepsWellFormed(formData.categories, category);
      if IsValidCategory(formData.categories, category) {
        return;
      }
      if category in formData.categories {
        formData := formData.(categories := Without(formData.categories, category));
      } else {
        formData := formData.(categories := formData.categories + [category]);
      }
    }

    /** The modal's confirm button: the picked image becomes the draft's link and the modal closes. */
    method HandleSelector()
      modifies this
      ensures formData == CommitImage(old(formData), old(selectedImage))
      ensures !modal && selectedImage == old(selectedImage)
    {
      formData := formData.(imageLink := selectedImage);
      modal := false;
    }

    /** The featured checkbox changed. */
    method HandleCheckboxChange()
      modifies this
      ensures formData == FlipFeatured(old(formData))
      ensures selectedImage == old(selectedImage) && modal == old(modal)
    {
      formData := formData.(isFeaturedPost := !formData.isFeaturedPost);
    }

    /**
     * The check run before posting `data`: false, with the error toast it
     * shows, when a field is empty or the page's own list is over the cap.
     */
    method ValidateFormData(data: Draft) returns (ok: bool, shown: Option<Toast>)
      ensures ok <==> Validate(data, formData.categories) == Accepted
      ensures ok <==> shown == None
      ensures !ok ==> shown == Some(ErrorToast(Validate(data, formData.categories).message))
      ensures Valid() ==> (ok <==> !HasEmptyField(data))
    {
      if HasEmptyField(data) {
        return false, Some(ErrorToast(MissingFieldsMessage));
      }
      if |formData.categories| > MaxCategories {
        return false, Some(ErrorToast(TooManyCategoriesMessage));
      }
      return true, None;
    }

    /**
     * Submitting `data`, where `result` is what the post request yields if it
     * is sent. Clears the session user exactly when the effects say so; the
     * draft itself is left as it is.
     */
    method OnSubmit(data: Draft, result: PostResult) returns (fx: Effects)
      modifies userState
      ensures fx == Submit(Validate(data, formData.categories), result)
      ensures userState.user == if fx.clearsUser then None else old(userState.user)
    {
      var ok, shown := ValidateFormData(data);
      if !ok {
        return Effects(false, shown.value, false, Stay);
      }
      match result
      case Completed(status, serverMessage) =>
        if status == SuccessStatus {
          fx := Effects(true, SuccessToast(SuccessMessage), false, GoAfter(HomePath, SuccessNavigationDelayMs));
        } else {
          fx := Effects(true, ErrorToast("Error: " + serverMessage), false, Stay);
        }
      case Failed(status) =>
        if status == SessionExpiredStatus {
          userState.SetUser(None);
          fx := Effects(true, ErrorToast(SessionExpiredMessage), true, GoNow(HomePath));
        } else if status == UnauthorizedStatus {
          fx := Effects(true, ErrorToast(UnauthorizedMessage), false, GoNow(HomePath));
        } else {
          fx := Effects(true, ErrorToast(GenericFailureMessage), false, Stay);
        }
    }
  }
}
