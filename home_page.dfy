/** The home page: the submit handler's `submitting`, `error` and `success`
    state, and which banner it shows. */
module HomePage {
  import opened Wrappers
  import Api
  import FeedbackForm

  const ThankYou := "Thank you for your feedback! It will be reviewed before being published."
  const SubmitFailed := "Failed to submit feedback. Please try again."

  /** The banner above the form. */
  datatype Banner = NoBanner | SuccessBanner(text: string) | ErrorBanner(text: string)

  /** The success banner shows whenever `success` is set; the error banner
      only when `error` is set and `success` is not. */
  function BannerOf(error: string, success: string): (b: Banner)
    ensures b.SuccessBanner? <==> success != ""
    ensures b.ErrorBanner? <==> error != "" && success == ""
    ensures b.NoBanner? <==> error == "" && success == ""
    ensures b.SuccessBanner? ==> b.text == success
    ensures b.ErrorBanner? ==> b.text == error
  {
    if success != "" then SuccessBanner(success)
    else if error != "" then ErrorBanner(error)
    else NoBanner
  }

  class Page {
    var submitting: bool
    var error: string
    var success: string

    constructor ()
      ensures !submitting && error == "" && success == ""
    {
      submitting := false;
      error := "";
      success := "";
    }

    function Banner(): Banner
      reads this
    {
      BannerOf(error, success)
    }

    /** `handleSubmitFeedback` up to the `await`. */
    method BeginSubmitFeedback()
      modifies this
      ensures submitting && error == "" && success == ""
    {
      submitting := true;
      error := "";
      success := "";
    }

    /** `handleSubmitFeedback` after the call settles, `finally` included. */
    method SettleSubmitFeedback(ok: bool)
      modifies this
      ensures !submitting
      ensures ok ==> success == ThankYou && error == old(error)
      ensures !ok ==> error == SubmitFailed && success == old(success)
    {
      if ok {
        success := ThankYou;
      } else {
        error := SubmitFailed;
      }
      submitting := false;
    }

    /** The whole handler, given the outcome of the POST. It catches every
        failure, so the promise it returns always resolves (`resolved`), and
        exactly one banner is shown afterwards. */
    method HandleSubmitFeedback<T>(outcome: Result<T, Api.HttpError>) returns (resolved: bool)
      modifies this
      ensures resolved && !submitting
      ensures outcome.Success? ==> success == ThankYou && error == "" && Banner() == SuccessBanner(ThankYou)
      ensures outcome.Failure? ==> error == SubmitFailed && success == "" && Banner() == ErrorBanner(SubmitFailed)
    {
      BeginSubmitFeedback();
      var thrownOrCreated := Api.SubmitFeedback(outcome);
      SettleSubmitFeedback(thrownOrCreated.Success?);
      resolved := true;
    }

    /** The success timer firing: only `success` is cleared. */
    method ExpireSuccess()
      modifies this`success
      ensures success == ""
    {
      success := "";
    }
  }

  /** A submission through the form on this page, whose `onSubmit` is the
      handler above and which gets no `apiErrors`: with blank fields nothing
      happens on the page; otherwise the form clears its fields even when the
      POST fails, because the handler never rejects. */
  method SubmitThroughForm<T>(form: FeedbackForm.Form, page: Page, outcome: Result<T, Api.HttpError>)
    returns (sent: Option<FeedbackForm.Submission>)
    requires form.apiErrors == None
    modifies form, page
    ensures sent.None? ==>
      form.title == old(form.title) && form.content == old(form.content)
      && page.submitting == old(page.submitting) && page.error == old(page.error)
      && page.success == old(page.success)
    ensures sent.Some? ==>
      form.title == "" && form.content == "" && form.errors == FeedbackForm.NoErrors
      && (page.Banner().ErrorBanner? <==> outcome.Failure?)
      && (page.Banner().SuccessBanner? <==> outcome.Success?)
  {
    sent := form.BeginSubmit();
    if sent.Some? {
      var resolved := page.HandleSubmitFeedback(outcome);
      form.SettleSubmit(resolved);
    }
  }
}
