/**
 * The offer confirmation screen without its rendering: the state the
 * component keeps (`loading`, `details`, `valueSat`, `comment`,
 * `loadingConfirm`, `successAction`), the decode effect, the two halves of
 * `confirm` (the call going out, and the call returning or throwing), the
 * rows of the description list, and the recipient shown in the first row.
 * What the screen sends out (the payment call, alerts, the balance refresh)
 * is recorded, in order, in `effects`.
 */
module OfferScreen {
  import opened Common
  import opened SuccessActions
  import SatAmount

  /** `payerData.name` of a decoded offer, used only as a condition. */
  datatype PayerData = PayerData(name: bool)

  /** The decoded offer fields the screen reads. */
  datatype DecodedOffer = DecodedOffer(
    nodeId: Option<string>,
    description: Option<string>,
    minSendable: Option<int>,
    payerData: Option<PayerData>)

  /** The query string of the screen's URL, of which only `offer` is read. */
  datatype QueryParams = QueryParams(offer: Option<string>)

  /** How a decode request settled: with the decoded offer, or rejected with a message. */
  datatype DecodeOutcome = Decoded(offer: DecodedOffer) | DecodeRejected(message: string)

  /** The connector's answer to the payment call; only `payment_error` is read. */
  datatype PaymentResponse = PaymentResponse(paymentError: Option<string>)

  /** A thrown value: whether it is an `Error` instance, and its message. */
  datatype Thrown = Thrown(isError: bool, message: string)

  /** How the payment call ended. */
  datatype CallOutcome = Returned(response: PaymentResponse) | Threw(error: Thrown)

  /** The arguments of the `offerPay` call and the recipient name put in its origin. */
  datatype OfferPayArgs = OfferPayArgs(
    offerString: Option<string>,
    valueSat: string,
    comment: string,
    recipient: Option<string>)

  /** What the screen does outside its own state. */
  datatype Effect = CallOfferPay(args: OfferPayArgs) | Alert(text: string) | FetchAccountInfo

  /** The content of a description-list row: text (possibly undefined) or one of the input fields. */
  datatype Detail = Text(value: Option<string>) | AmountInput | CommentInput | NameInput

  datatype Row = Row(term: string, detail: Detail)

  const LoadingText: Detail := Text(Some("loading..."))

  /** The rows shown while the offer is not known yet. */
  const PlaceholderRows: seq<Row> := [
    Row("Send payment to", LoadingText),
    Row("Description", LoadingText),
    Row("Amount (Satoshi)", LoadingText)
  ]

  /** `getRecipient`: the node id, or `undefined` when there is none or it is empty. */
  function Recipient(details: Option<DecodedOffer>): (r: Option<string>)
    ensures r.Some? <==> details.Some? && details.value.nodeId.Some? && details.value.nodeId.value != ""
    ensures r.Some? ==> r == details.value.nodeId
  {
    if details.Some? && details.value.nodeId.Some? && details.value.nodeId.value != "" then
      details.value.nodeId
    else
      None
  }

  /** Whether the offer asks for the payer's name (`details?.payerData?.name`). */
  predicate WantsName(d: DecodedOffer)
  {
    d.payerData.Some? && d.payerData.value.name
  }

  /**
   * The starting amount text: `minSendable / 1000` written out when the
   * offer has a non-zero `minSendable`, and empty otherwise.
   */
  function InitialValueSat(details: Option<DecodedOffer>): (v: string)
    ensures v == "" <==>
              details.None? || details.value.minSendable.None? || details.value.minSendable.value == 0
    ensures v != "" ==> SatAmount.ParseSatText(v) == Some(details.value.minSendable.value)
    ensures v != "" ==> SatAmount.IsCanonicalSatText(v)
  {
    if details.Some? && details.value.minSendable.Some? && details.value.minSendable.value != 0 then
      SatAmount.SatTextRoundTrip(details.value.minSendable.value);
      SatAmount.SatText(details.value.minSendable.value)
    else
      ""
  }

  /** An offer whose minimum is a whole number of satoshis starts the field at that number, in digits. */
  lemma InitialValueSatOfWholeSats(d: DecodedOffer, msat: nat)
    requires d.minSendable == Some(msat) && msat != 0 && msat % 1000 == 0
    ensures InitialValueSat(Some(d)) == SatAmount.NatToDecimal(msat / 1000)
    ensures SatAmount.DigitsValue(InitialValueSat(Some(d))) == msat / 1000
  {
    SatAmount.SatTextOfWholeSats(msat);
    SatAmount.DigitsValueOfDecimal(msat / 1000);
  }

  /** The message of the ReferenceError raised by reading the unbound name `paymentInfo`. */
  const PaymentInfoUnbound: string := "paymentInfo is not defined"

  /**
   * Where control goes after the payment call as the code stands: a call
   * that returns still ends in the `catch`, with the ReferenceError for
   * `paymentInfo`; a call that throws ends there with its own error.
   */
  function AsWrittenOutcome(outcome: CallOutcome): (r: CallOutcome)
    ensures r.Threw?
    ensures outcome.Returned? ==> r == Threw(Thrown(true, PaymentInfoUnbound))
    ensures outcome.Threw? ==> r == outcome
  {
    match outcome
    case Returned(_) => Threw(Thrown(true, PaymentInfoUnbound))
    case Threw(_) => outcome
  }

  class Screen {
    /** The query string; the screen never changes it. */
    const searchParams: Option<QueryParams>

    var loading: bool
    var details: Option<DecodedOffer>
    var valueSat: string
    var comment: string
    var loadingConfirm: bool
    var successAction: Option<SuccessAction>
    /** Everything the screen has done outside its state, oldest first. */
    var effects: seq<Effect>

    /** Only an action the screen can display is ever stored as the success action. */
    ghost predicate Valid()
      reads this
    {
      successAction.Some? ==> IsDisplayable(successAction.value)
    }

    /** The state right after the first render: `details` and the amount come from the props. */
    constructor (propsDetails: Option<DecodedOffer>, params: Option<QueryParams>)
      ensures Valid()
      ensures searchParams == params
      ensures loading && details == propsDetails && valueSat == InitialValueSat(propsDetails)
      ensures comment == "" && !loadingConfirm && successAction == None && effects == []
    {
      searchParams := params;
      loading := true;
      details := propsDetails;
      valueSat := InitialValueSat(propsDetails);
      comment := "";
      loadingConfirm := false;
      successAction := None;
      effects := [];
    }

    /** The `offer` query parameter, when there is a query string at all. */
    function OfferParam(): (offer: Option<string>)
      reads this
      ensures searchParams.None? ==> offer.None?
      ensures searchParams.Some? ==> offer == searchParams.value.offer
    {
      if searchParams.Some? then searchParams.value.offer else None
    }

    /**
     * The decode effect. With a non-empty `offer` parameter it starts a
     * decode of that string and returns it, leaving `loading` set until the
     * decode settles; otherwise there is nothing to wait for and `loading`
     * is cleared at once.
     */
    method StartDecode() returns (decoding: Option<string>)
      requires Valid()
      modifies this`loading
      ensures Valid()
      ensures decoding.Some? <==> OfferParam().Some? && OfferParam().value != ""
      ensures decoding.Some? ==> decoding == OfferParam()
      ensures loading == (old(loading) && decoding.Some?)
    {
      if searchParams.Some? {
        var offerString := searchParams.value.offer;
        if offerString.Some? && offerString.value != "" {
          decoding := offerString;
        } else {
          decoding := None;
          loading := false;
        }
      } else {
        decoding := None;
        loading := false;
      }
    }

    /**
     * The decode settling. A decoded offer replaces `details` and clears
     * `loading`; a rejection has no handler, so nothing changes and the
     * screen keeps showing its placeholders. The amount is not recomputed.
     */
    method FinishDecode(outcome: DecodeOutcome)
      requires Valid()
      modifies this`details, this`loading
      ensures Valid()
      ensures outcome.Decoded? ==> details == Some(outcome.offer) && !loading
      ensures outcome.DecodeRejected? ==> details == old(details) && loading == old(loading)
    {
      if outcome.Decoded? {
        details := Some(outcome.offer);
        loading := false;
      }
    }

    /** The amount field, typed into or set by one of the preset buttons. */
    method SetValueSat(v: string)
      requires Valid()
      modifies this`valueSat
      ensures Valid()
      ensures valueSat == v
    {
      valueSat := v;
    }

    /** The comment field. */
    method SetComment(c: string)
      requires Valid()
      modifies this`comment
      ensures Valid()
      ensures comment == c
    {
      comment := c;
    }

    /** The confirm button is clickable: no payment is in progress and an amount is entered. */
    predicate ConfirmEnabled()
      reads this
    {
      !loadingConfirm && valueSat != ""
    }

    /** The success view replaces the form once a success action is stored. */
    predicate ShowsSuccessView()
      reads this
    {
      successAction.Some?
    }

    /**
     * `confirm` up to the payment call. Without details it returns at once.
     * Without a query string, reading the `offer` parameter throws before
     * the `try`, so nothing else happens either. Otherwise `loadingConfirm`
     * is set and the call goes out with the offer parameter, the amount
     * text, the comment and the recipient.
     */
    method BeginConfirm() returns (sent: bool)
      requires Valid()
      modifies this`loadingConfirm, this`effects
      ensures Valid()
      ensures sent <==> details.Some? && searchParams.Some?
      ensures sent ==> loadingConfirm && !ConfirmEnabled()
      ensures sent ==> effects == old(effects)
                         + [CallOfferPay(OfferPayArgs(OfferParam(), valueSat, comment, Recipient(details)))]
      ensures !sent ==> loadingConfirm == old(loadingConfirm) && effects == old(effects)
    {
      if details.None? {
        return false;
      }
      if searchParams.None? {
        return false;
      }
      var offerString := searchParams.value.offer;
      loadingConfirm := true;
      effects := effects + [CallOfferPay(OfferPayArgs(offerString, valueSat, comment, Recipient(details)))];
      sent := true;
    }

    /**
     * A click on the confirm button. The button is on screen only while no
     * success action is shown, and it is disabled while a payment is in
     * progress or the amount is empty; a click it does not accept does
     * nothing. An accepted click runs `confirm` up to the payment call.
     */
    method ClickConfirm() returns (sent: bool)
      requires Valid()
      modifies this`loadingConfirm, this`effects
      ensures Valid()
      ensures sent <==> old(!ShowsSuccessView() && ConfirmEnabled()) && details.Some? && searchParams.Some?
      ensures sent ==> !ConfirmEnabled()
                       && effects == old(effects)
                          + [CallOfferPay(OfferPayArgs(OfferParam(), valueSat, comment, Recipient(details)))]
      ensures !sent ==> loadingConfirm == old(loadingConfirm) && effects == old(effects)
    {
      if ShowsSuccessView() || !ConfirmEnabled() {
        return false;
      }
      sent := BeginConfirm();
    }

    /**
     * `confirm` after the payment call. When it returns, the declared success
     * action is dispatched (shown, or an alert that it is not implemented)
     * and the balance refresh is requested. When it throws, an `Error` is
     * alerted with its message and the success action is left alone. Either
     * way `loadingConfirm` is cleared.
     */
    method FinishConfirm(outcome: CallOutcome, declared: Option<SuccessAction>)
      requires Valid()
      modifies this`loadingConfirm, this`successAction, this`effects
      ensures Valid() && !loadingConfirm
      ensures ConfirmEnabled() <==> valueSat != ""
      ensures ShowsSuccessView() <==>
                old(ShowsSuccessView()) || (outcome.Returned? && Resolve(declared, outcome.response.paymentError).Show?)
      ensures outcome.Returned? && Resolve(declared, outcome.response.paymentError).Show? ==>
                successAction == Some(Resolve(declared, outcome.response.paymentError).action)
                && effects == old(effects) + [FetchAccountInfo]
      ensures outcome.Returned? && Resolve(declared, outcome.response.paymentError).NotImplemented? ==>
                successAction == old(successAction)
                && effects == old(effects)
                   + [Alert(NotImplementedNotice(Resolve(declared, outcome.response.paymentError).tag)), FetchAccountInfo]
      ensures outcome.Threw? ==>
                successAction == old(successAction)
                && effects == old(effects)
                   + (if outcome.error.isError then [Alert(ErrorNotice(outcome.error.message))] else [])
    {
      match outcome {
        case Returned(response) =>
          var resolution := Resolve(declared, response.paymentError);
          match resolution {
            case Show(action) =>
              successAction := Some(action);
            case NotImplemented(tag) =>
              effects := effects + [Alert(NotImplementedNotice(tag))];
          }
          effects := effects + [FetchAccountInfo];
        case Threw(error) =>
          if error.isError {
            effects := effects + [Alert(ErrorNotice(error.message))];
          }
      }
      loadingConfirm := false;
    }

    /**
     * `confirm` after the payment call, as the code stands: the dispatch
     * reads `paymentInfo`, a name bound nowhere in the component, so once
     * the call returns the `try` block throws a ReferenceError before any
     * success action is stored or the balance refresh is requested. The
     * `catch` alerts it like any other `Error`.
     */
    method FinishConfirmAsWritten(outcome: CallOutcome)
      requires Valid()
      modifies this`loadingConfirm, this`successAction, this`effects
      ensures Valid() && !loadingConfirm && successAction == old(successAction)
      ensures outcome.Returned? ==> effects == old(effects) + [Alert(ErrorNotice(PaymentInfoUnbound))]
      ensures outcome.Threw? ==>
                effects == old(effects)
                + (if outcome.error.isError then [Alert(ErrorNotice(outcome.error.message))] else [])
      ensures ConfirmEnabled() <==> valueSat != ""
    {
      FinishConfirm(AsWrittenOutcome(outcome), None);
    }

    /**
     * The rows of the description list: the three placeholders while loading
     * or without details; otherwise recipient, description, amount and
     * comment, followed by the name field when the offer asks for a name.
     */
    method Elements() returns (rows: seq<Row>)
      ensures (loading || details.None?) ==> rows == PlaceholderRows
      ensures !(loading || details.None?) ==>
                |rows| == (if WantsName(details.value) then 5 else 4)
                && rows[0] == Row("Send payment to", Text(Recipient(details)))
                && rows[1] == Row("Description: ", Text(details.value.description))
                && rows[2] == Row("Amount (Satoshi)", AmountInput)
                && rows[3] == Row("Comment", CommentInput)
                && (|rows| == 5 ==> rows[4] == Row("Name", NameInput))
    {
      if loading || details.None? {
        return PlaceholderRows;
      }
      rows := [];
      rows := rows + [Row("Send payment to", Text(Recipient(details)))];
      rows := rows + [Row("Description: ", Text(details.value.description))];
      rows := rows + [Row("Amount (Satoshi)", AmountInput)];
      rows := rows + [Row("Comment", CommentInput)];
      if WantsName(details.value) {
        rows := rows + [Row("Name", NameInput)];
      }
    }
  }

  /** While the payment call is out the button is disabled, so a second click sends nothing. */
  method SecondClickIgnored(d: DecodedOffer)
  {
    var screen := new Screen(Some(d), Some(QueryParams(Some("lno1qsg"))));
    screen.SetValueSat("10");
    var sent := screen.ClickConfirm();
    assert sent && |screen.effects| == 1;
    var during := screen.ClickConfirm();
    assert !during && |screen.effects| == 1;
  }

  /**
   * The code as it stands: a payment that returns ends in the `catch` with
   * the ReferenceError for `paymentInfo`. No success view appears, the
   * balance is not refreshed, and the re-enabled button sends the payment
   * again.
   */
  method PaymentReturnLeavesFormAsWritten(d: DecodedOffer, response: PaymentResponse)
  {
    var screen := new Screen(Some(d), Some(QueryParams(Some("lno1qsg"))));
    screen.SetValueSat("10");
    var sent := screen.BeginConfirm();
    assert sent && |screen.effects| == 1;
    screen.FinishConfirmAsWritten(Returned(response));
    assert !screen.ShowsSuccessView() && screen.ConfirmEnabled();
    assert |screen.effects| == 2 && screen.effects[1] == Alert(ErrorNotice(PaymentInfoUnbound));
    var again := screen.ClickConfirm();
    assert again && |screen.effects| == 3;
  }

  /**
   * With the dispatch reached: a payment that returns with `payment_error`
   * set still ends on the success message, whatever action the offer declared.
   */
  method ReportedErrorEndsOnSuccessMessage(d: DecodedOffer, declared: Option<SuccessAction>, error: string)
    requires error != ""
  {
    var screen := new Screen(None, Some(QueryParams(Some("lno1qsg"))));
    var decoding := screen.StartDecode();
    assert decoding == Some("lno1qsg") && screen.loading;
    screen.FinishDecode(Decoded(d));
    var sent := screen.BeginConfirm();
    assert sent && screen.loadingConfirm;
    ReportedErrorStillShowsSuccess(declared, error);
    screen.FinishConfirm(Returned(PaymentResponse(Some(error))), declared);
    assert screen.successAction == Some(DefaultSuccess) && !screen.loadingConfirm;
    assert screen.ShowsSuccessView();
  }

  /** With the dispatch reached: an `aes` action leaves the form on screen, with the notice alerted after the call. */
  method AesActionKeepsForm(d: DecodedOffer, a: SuccessAction)
    requires a.tag == "aes"
  {
    var screen := new Screen(Some(d), Some(QueryParams(Some("lno1qsg"))));
    var sent := screen.BeginConfirm();
    assert sent;
    screen.FinishConfirm(Returned(PaymentResponse(None)), Some(a));
    assert !screen.ShowsSuccessView();
    assert screen.effects[1] == Alert(NotImplementedNotice("aes"));
  }

  /** A rejected decode leaves the screen loading, showing only the placeholders. */
  method RejectedDecodeKeepsLoading()
  {
    var screen := new Screen(None, Some(QueryParams(Some("lno1qsg"))));
    var decoding := screen.StartDecode();
    screen.FinishDecode(DecodeRejected("Connection problem."));
    assert screen.loading && screen.details == None;
    var rows := screen.Elements();
    assert rows == PlaceholderRows;
    var sent := screen.BeginConfirm();
    assert !sent && screen.effects == [];
  }
}
