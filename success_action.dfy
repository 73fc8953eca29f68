/**
 * What the confirmation screen does with a payee's success action once the
 * payment call has returned. The tags are those of LUD-09 (`successAction`
 * in a payRequest response): `url`, `message` and `aes`.
 */
module SuccessActions {
  import opened Common

  /**
   * A declared success action: its tag and the fields the screen reads
   * (`message` for a message, `description` and `url` for a url). The
   * ciphertext fields of an `aes` action are never read and are not modelled.
   */
  datatype SuccessAction = SuccessAction(
    tag: string,
    message: Option<string>,
    description: Option<string>,
    url: Option<string>)

  const DefaultMessage: string := "Success, payment sent!"

  /** The action shown when none is declared or the connector reported an error. */
  const DefaultSuccess: SuccessAction := SuccessAction("message", Some(DefaultMessage), None, None)

  /** The tags the screen knows how to display. */
  predicate IsDisplayable(a: SuccessAction)
  {
    a.tag == "url" || a.tag == "message"
  }

  /** `payment.payment_error` used as a condition: it holds for a present, non-empty string. */
  predicate ReportsError(paymentError: Option<string>)
  {
    paymentError.Some? && paymentError.value != ""
  }

  /** The outcome of the tag dispatch: an action to show, or a tag that gets a notice instead. */
  datatype Resolution = Show(action: SuccessAction) | NotImplemented(tag: string)

  /**
   * The dispatch after a payment call returns. A declared action is used
   * only when no error is reported; then `url` and `message` are shown as
   * declared and every other tag, `aes` included, is not implemented.
   * Otherwise the default message is shown, even when an error was reported.
   */
  function Resolve(declared: Option<SuccessAction>, paymentError: Option<string>): (r: Resolution)
    ensures (declared.None? || ReportsError(paymentError)) ==> r == Show(DefaultSuccess)
    ensures (declared.Some? && !ReportsError(paymentError) && IsDisplayable(declared.value))
              ==> r == Show(declared.value)
    ensures (declared.Some? && !ReportsError(paymentError) && !IsDisplayable(declared.value))
              ==> r == NotImplemented(declared.value.tag)
    ensures r.Show? ==> IsDisplayable(r.action)
  {
    if declared.Some? && !ReportsError(paymentError) then
      var a := declared.value;
      if a.tag == "url" || a.tag == "message" then Show(a) else NotImplemented(a.tag)
    else
      Show(DefaultSuccess)
  }

  /** An `aes` action is never decrypted: it always gets the notice, whatever its fields. */
  lemma AesIsNotImplemented(a: SuccessAction, paymentError: Option<string>)
    requires a.tag == "aes" && !ReportsError(paymentError)
    ensures Resolve(Some(a), paymentError) == NotImplemented("aes")
  {
  }

  /** A reported payment error does not stop the success message. */
  lemma ReportedErrorStillShowsSuccess(declared: Option<SuccessAction>, error: string)
    requires error != ""
    ensures Resolve(declared, Some(error)) == Show(DefaultSuccess)
  {
  }

  const NotImplementedPrefix: string := "Not implemented yet. Please submit an issue to support success action: "

  /** The alert raised for a tag the screen cannot display. */
  function NotImplementedNotice(tag: string): (text: string)
    ensures |text| == |NotImplementedPrefix| + |tag|
    ensures text[..|NotImplementedPrefix|] == NotImplementedPrefix
    ensures text[|NotImplementedPrefix|..] == tag
  {
    NotImplementedPrefix + tag
  }

  /** Different tags give different notices, so the notice names the tag. */
  lemma NotImplementedNoticeNamesTag(t1: string, t2: string)
    requires NotImplementedNotice(t1) == NotImplementedNotice(t2)
    ensures t1 == t2
  {
    assert t1 == NotImplementedNotice(t1)[|NotImplementedPrefix|..];
  }

  /** The alert raised when the payment call throws an `Error`. */
  function ErrorNotice(message: string): (text: string)
    ensures |text| == 7 + |message| && text[..7] == "Error: " && text[7..] == message
  {
    "Error: " + message
  }
}
