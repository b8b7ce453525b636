/**
 * What a submit attempt does, as effect values: whether the post request is
 * sent, the toast shown, whether the session user is cleared and where the
 * page navigates. The request itself is not modelled; how it ended (a
 * status, with the server's message when it did not throw) is an input.
 */
module Submission {
  import opened Validation

  const SuccessStatus := 200
  const SessionExpiredStatus := 403
  const UnauthorizedStatus := 401

  /** Delay before the page leaves after a successful post, in milliseconds. */
  const SuccessNavigationDelayMs := 2000
  const HomePath := "/"

  const SuccessMessage := "Blog post successfully created!"
  const SessionExpiredMessage := "Error: Your session has expired, please login again!"
  const UnauthorizedMessage := "Error: You are not authorized!"
  const GenericFailureMessage := "Something went wrong. Please try again later."

  /**
   * How the post request ended: it returned a response with a status and the
   * server's message, or it threw an error carrying a response status.
   */
  datatype PostResult =
    | Completed(status: int, serverMessage: string)
    | Failed(status: int)

  datatype Toast = SuccessToast(text: string) | ErrorToast(text: string)

  datatype Navigation = Stay | GoNow(path: string) | GoAfter(path: string, delayMs: nat)

  datatype Effects = Effects(posted: bool, toast: Toast, clearsUser: bool, navigation: Navigation)

  /** The effects of a submit whose post was sent and ended with `result`. */
  function Dispatch(result: PostResult): (fx: Effects)
    ensures fx.posted
    ensures fx.toast.SuccessToast? <==> result.Completed? && result.status == SuccessStatus
    ensures result.Completed? && result.status == SuccessStatus ==> fx.toast == SuccessToast(SuccessMessage)
    ensures result.Failed? && result.status == SessionExpiredStatus ==> fx.toast == ErrorToast(SessionExpiredMessage)
    ensures result.Failed? && result.status == UnauthorizedStatus ==> fx.toast == ErrorToast(UnauthorizedMessage)
    ensures fx.navigation.GoAfter? <==> result.Completed? && result.status == SuccessStatus
    ensures fx.navigation.GoAfter? ==> fx.navigation.delayMs == SuccessNavigationDelayMs
    ensures fx.clearsUser <==> result.Failed? && result.status == SessionExpiredStatus
    ensures fx.navigation.GoNow?
            <==> result.Failed? && (result.status == SessionExpiredStatus || result.status == UnauthorizedStatus)
    ensures fx.navigation != Stay ==> fx.navigation.path == HomePath
    ensures result.Completed? && result.status != SuccessStatus
            ==> fx.toast == ErrorToast("Error: " + result.serverMessage)
    ensures result.Failed? && result.status != SessionExpiredStatus && result.status != UnauthorizedStatus
            ==> fx.toast == ErrorToast(GenericFailureMessage)
  {
    match result
    case Completed(status, serverMessage) =>
      if status == SuccessStatus then
        Effects(true, SuccessToast(SuccessMessage), false, GoAfter(HomePath, SuccessNavigationDelayMs))
      else
        Effects(true, ErrorToast("Error: " + serverMessage), false, Stay)
    case Failed(status) =>
      if status == SessionExpiredStatus then
        Effects(true, ErrorToast(SessionExpiredMessage), true, GoNow(HomePath))
      else if status == UnauthorizedStatus then
        Effects(true, ErrorToast(UnauthorizedMessage), false, GoNow(HomePath))
      else
        Effects(true, ErrorToast(GenericFailureMessage), false, Stay)
  }

  /**
   * The effects of a whole submit attempt: the validator's verdict decides
   * whether the request is sent at all; `result` is what it would yield.
   */
  function Submit(verdict: Verdict, result: PostResult): (fx: Effects)
    ensures fx.posted <==> verdict == Accepted
    ensures verdict.Rejected? ==> fx == Effects(false, ErrorToast(verdict.message), false, Stay)
    ensures verdict == Accepted ==> fx == Dispatch(result)
    ensures fx.clearsUser ==> verdict == Accepted && fx.navigation == GoNow(HomePath)
  {
    match verdict
    case Rejected(message) => Effects(false, ErrorToast(message), false, Stay)
    case Accepted => Dispatch(result)
  }

  /** A submit with an empty field never sends the request, whatever the page's list. */
  lemma EmptyFieldNeverPosts(data: BlogDraft.Draft, pageCategories: seq<string>, result: PostResult)
    requires HasEmptyField(data)
    ensures !Submit(Validate(data, pageCategories), result).posted
    ensures Submit(Validate(data, pageCategories), result).toast == ErrorToast(MissingFieldsMessage)
  {
  }

  /** Only an accepted submit whose request completed with 200 shows a success toast. */
  lemma SuccessOnlyOn200(verdict: Verdict, result: PostResult)
    ensures Submit(verdict, result).toast.SuccessToast?
            <==> verdict == Accepted && result.Completed? && result.status == SuccessStatus
  {
  }
}
