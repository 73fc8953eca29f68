# BOLT12 offer confirmation: a Dafny model

This project models the BOLT12 offer path of a browser Lightning wallet extension. It covers two pieces.

- **The offer-string recognizer** `findOffer` (`src/common/lib/bolt12.ts`). It trims the text with JavaScript's `String.prototype.trim`. It then matches the result against the pattern `^lno.*` with the `i` flag. `lno` is the human-readable prefix of an offer in BOLT #12 ("Offer Encoding"). On a match it returns `match[1]`, but the pattern has no capture group. A recognised offer therefore yields `undefined`, and anything else yields `null`. The model keeps this. `isOffer` is modelled as written, and in its evidently intended form.
- **The confirmation screen's decisions** (`src/app/screens/Offer.tsx`), without the rendering:
  - the initial amount text derived from `minSendable`;
  - the decode effect, with its `loading` and `details` transitions;
  - the two halves of `confirm`: the payment call going out, and the call returning or throwing;
  - the success-action dispatch over the LUD-09 tags `url`, `message` and `aes`;
  - `getRecipient`, the rows built by `elements()`, and the metadata filter `formattedMetadata`.

  The screen's state is the class `OfferScreen.Screen`. Each React state hook is a field. Alerts, the payment call and the balance refresh are recorded in order in the field `effects`.

Files:

| file | module | models |
|---|---|---|
| `common.dfy` | `Common` | `Option` |
| `bolt12.dfy` | `Bolt12` | `trim`, the pattern match, `findOffer`, `isOffer` |
| `sat_amount.dfy` | `SatAmount` | `(minSendable / 1000).toString()` for integer millisatoshis, and a reader proving the text denotes the amount |
| `success_action.dfy` | `SuccessActions` | the dispatch on the declared action and `payment_error`, and the alert texts |
| `metadata.dfy` | `Metadata` | `formattedMetadata` |
| `offer_screen.dfy` | `OfferScreen` | the screen state and its operations |

Modelling choices:

- **Trimmed characters.** The code points `trim` strips are ECMAScript's WhiteSpace and LineTerminator sets. `.` stops at LF, CR, U+2028 and U+2029. Case folding under `i` without `u` only relates ASCII letters to ASCII letters. So `l`, `n` and `o` each match only their two ASCII cases.
- **Trim's reference definition.** `Trim` is pinned down by `Bolt12.TrimUnique`: a trimmed core with any trimmable padding trims back to that core.
- **The declared success action.** The dispatch reads `paymentInfo.successAction`, and `paymentInfo` is bound nowhere in `Offer.tsx`. As written, reading it throws a ReferenceError as soon as the payment call returns, so the dispatch is never reached (see "## Findings"). `Screen.FinishConfirmAsWritten` models that. `Screen.FinishConfirm` models the dispatch as evidently intended, and takes the declared action as a parameter.
- **Truthiness tests.** `payment.payment_error` is tested for truthiness. An empty string therefore counts as no error. `payerData.name` is modelled as the boolean its truthiness gives.
- **Scenario methods.** Five client methods at the end of `offer_screen.dfy` run the screen's operations in sequence and show what the contracts give a caller. `SecondClickIgnored` shows the disabled button at work. `PaymentReturnLeavesFormAsWritten` follows the code as written. `ReportedErrorEndsOnSuccessMessage` and `AesActionKeepsForm` follow the intended dispatch. `RejectedDecodeKeepsLoading` follows a failed decode.
- **Two helper predicates.** `Screen.ConfirmEnabled` is the negation of the confirm button's `disabled` condition (`Offer.tsx:323`). `Screen.ShowsSuccessView` is the branch at `Offer.tsx:305`. Their content is stated through `Screen.ClickConfirm`, `Screen.BeginConfirm`, `Screen.FinishConfirm` and `Screen.FinishConfirmAsWritten`.

Behaviours of the code a reader may not expect:

- `findOffer` returns `undefined` for a recognised offer, not the offer text.
- `confirm` sends `valueSat` as typed. It is not parsed, and nothing checks that it is positive or within the offer's bounds.
- A payment call that returns always ends in the `catch`, because `paymentInfo` is unbound. The alert reads "Error: paymentInfo is not defined", the balance is not refreshed, and the form stays up with the button enabled.
- In the dispatch as intended, a truthy `payment_error` still ends on "Success, payment sent!".
- In the dispatch as intended, an `aes` or unknown tag alerts "Not implemented yet…" and leaves the form displayed.
- A rejected decode has no handler. The screen stays loading, with `details` unchanged.
- The only guard against a second confirm is the button's `disabled` attribute while `loadingConfirm` is set.

## Model

| member | source | states |
|---|---|---|
| `Bolt12.Trim` | src/common/lib/bolt12.ts:10 | the trimmed text has no trimmable code point at either end and is no longer than the input |
| `Bolt12.TrimSlice` | src/common/lib/bolt12.ts:10 | the input is the trimmed text with all-trimmable padding before and after it |
| `Bolt12.TrimUnique` | src/common/lib/bolt12.ts:10 | any trimmed core surrounded by trimmable padding trims to exactly that core |
| `Bolt12.TrimIdempotent` | src/common/lib/bolt12.ts:10 | trimming twice equals trimming once |
| `Bolt12.TrimIgnoresPadding` | src/common/lib/bolt12.ts:10 | whitespace added on either side does not change the trimmed text |
| `Bolt12.MatchOfferPattern` | src/common/lib/bolt12.ts:12 | the pattern matches exactly when the text starts with `lno` in any case; the match array then has one element only, the greedy prefix up to the first line terminator |
| `Bolt12.ElementAt` | src/common/lib/bolt12.ts:13 | indexing past the end of a match array gives `undefined` |
| `Bolt12.FindOffer` | src/common/lib/bolt12.ts:9-16 | total; `undefined` exactly when the trimmed text starts with `lno` case-insensitively, `null` exactly otherwise, never a string |
| `Bolt12.FindOfferIgnoresPadding` | src/common/lib/bolt12.ts:10-12 | leading and trailing whitespace never change the result, and `findOffer(t.trim()) == findOffer(t)` |
| `Bolt12.FindOfferAcceptsAnyCasedPrefix` | src/common/lib/bolt12.ts:12 | any casing of `lno` followed by anything, including nothing, is recognised |
| `Bolt12.FindOfferCaseInsensitive` | src/common/lib/bolt12.ts:12 | `lno…`, `LNO…` and `Lno…` give the same result |
| `Bolt12.FindOfferLosesText` | src/common/lib/bolt12.ts:13 | a recognised offer yields `undefined`, not the offer text |
| `Bolt12.EvalIsOfferBody` | src/common/lib/bolt12.ts:18 | the call `findOffer(Offer)` resolves the callee, then the argument; an unbound one throws a ReferenceError naming it; only with both bound does it return a value |
| `Bolt12.IsOfferAsWritten` | src/common/lib/bolt12.ts:1-19 | in the module's scope (its imports, `bolt12` and the parameter `offer`), `isOffer` throws a ReferenceError for `findOffer` on every input |
| `Bolt12.IsOfferNeverTrueEvenIfBound` | src/common/lib/bolt12.ts:17-19 | with both names bound, `Boolean(findOffer(x))` is false for every input |
| `Bolt12.RecognizeOffer` | src/common/lib/bolt12.ts:12-15 | returning `match[0]`: a string exactly when the trimmed text starts with `lno` in any case, `null` otherwise; the string is the trimmed text up to its first line terminator |
| `Bolt12.RecognizeOfferReturnsWholeLine` | src/common/lib/bolt12.ts:12-13 | a one-line trimmed offer is returned whole |
| `Bolt12.IsOffer` | src/common/lib/bolt12.ts:17-19 | the intended `isOffer` holds exactly when the trimmed text starts with `lno` in any case |
| `SatAmount.Fraction` | src/app/screens/Offer.tsx:46 | the digits after the point for `f` thousandths: none when `f` is 0, otherwise at most three, ending in a non-zero digit, and worth exactly `f` thousandths |
| `SatAmount.DigitsValueOfDecimal` | src/app/screens/Offer.tsx:46 | the decimal digits printed for a natural number read back as that number |
| `SatAmount.UnsignedText` | src/app/screens/Offer.tsx:46 | the text of a non-negative amount has the canonical shape; it has a point exactly when the amount is not a whole number of satoshis, and it is `"0"` exactly for 0 |
| `SatAmount.SatText` | src/app/screens/Offer.tsx:46 | the text of `msat / 1000` starts with `-` exactly when `msat < 0`, has a point exactly when `msat % 1000 != 0`, and otherwise has the canonical shape: no leading zero, one to three fraction digits, the last of them not `0` |
| `SatAmount.DecimalOfDigits` | src/app/screens/Offer.tsx:46 | digits without a leading zero are exactly the decimal notation of their value |
| `SatAmount.FractionOfValue` | src/app/screens/Offer.tsx:46 | one to three fraction digits ending in a non-zero digit are exactly the fraction digits printed for their value |
| `SatAmount.CanonicalUnsignedUnique` | src/app/screens/Offer.tsx:46 | a canonical unsigned text is the printed form of the amount it reads as |
| `SatAmount.CanonicalSatTextUnique` | src/app/screens/Offer.tsx:46 | a canonical text that reads back as `msat` is `SatText(msat)`; with the round trip, the printed text is the only canonical text of its amount |
| `SatAmount.SatTextRoundTrip` | src/app/screens/Offer.tsx:46 | the text of `msat / 1000` reads back as exactly `msat` millisatoshis: sign, integer part and up to three fraction digits |
| `SatAmount.SatTextOfWholeSats` | src/app/screens/Offer.tsx:46 | a multiple of 1000 msat prints as the plain digits of the satoshi count |
| `OfferScreen.InitialValueSat` | src/app/screens/Offer.tsx:45-47 | the initial amount is `""` exactly when there are no details, no `minSendable` or a zero one; otherwise it is a canonical text that reads back as `minSendable` millisatoshis, and so is the text JavaScript prints |
| `OfferScreen.InitialValueSatOfWholeSats` | src/app/screens/Offer.tsx:45-47 | for a whole-satoshi `minSendable` the initial amount is the digits of `minSendable / 1000` |
| `OfferScreen.Recipient` | src/app/screens/Offer.tsx:136-139 | the node id when it is present and non-empty, `undefined` otherwise |
| `SuccessActions.Resolve` | src/app/screens/Offer.tsx:99-114 | no declared action or a reported `payment_error` gives the default success message; otherwise `url`/`message` are shown unchanged and every other tag is not implemented; only `url`/`message` actions are ever shown |
| `SuccessActions.AesIsNotImplemented` | src/app/screens/Offer.tsx:104-111 | an `aes` action always gets the not-implemented notice |
| `SuccessActions.ReportedErrorStillShowsSuccess` | src/app/screens/Offer.tsx:99-113 | a non-empty `payment_error` yields "Success, payment sent!" whatever was declared |
| `SuccessActions.NotImplementedNotice` | src/app/screens/Offer.tsx:107-109 | the alert is the fixed "Not implemented yet…" text followed by the tag |
| `SuccessActions.NotImplementedNoticeNamesTag` | src/app/screens/Offer.tsx:107-109 | different tags give different notices |
| `SuccessActions.ErrorNotice` | src/app/screens/Offer.tsx:119-121 | the alert is `Error: ` followed by the thrown message |
| `Metadata.FormatEntry` | src/app/screens/Offer.tsx:210-217 | `text/plain` maps to a "Description" row, `text/long-desc` to a "Full Description" paragraph row, every other type to `undefined` |
| `Metadata.FormatEntries` | src/app/screens/Offer.tsx:209-218 | one row per description-type entry, so never more rows than entries, each labelled "Description" or "Full Description" |
| `Metadata.FormattedMetadata` | src/app/screens/Offer.tsx:206-223 | unreadable input gives `[]`; readable input gives one row per description-type entry |
| `Metadata.FormatEntriesAppend` | src/app/screens/Offer.tsx:209-218 | formatting a concatenation is concatenating the formats, so input order is kept |
| `Metadata.OtherTypesDropped` | src/app/screens/Offer.tsx:216-218 | entries of other types produce no row |
| `OfferScreen.Screen.constructor` | src/app/screens/Offer.tsx:37-53 | initial state: loading, details from the props, amount from `InitialValueSat`, empty comment, not confirming, no success action, nothing done yet |
| `OfferScreen.Screen.OfferParam` | src/app/screens/Offer.tsx:56-58 | the `offer` query parameter, absent when there is no query string |
| `OfferScreen.Screen.StartDecode` | src/app/screens/Offer.tsx:55-70 | a non-empty `offer` parameter starts its decode and keeps `loading`; otherwise `loading` is cleared at once |
| `OfferScreen.Screen.FinishDecode` | src/app/screens/Offer.tsx:60-63 | a decoded offer becomes `details` and clears `loading`; a rejection changes nothing; the amount is never recomputed |
| `OfferScreen.Screen.SetValueSat` | src/app/screens/Offer.tsx:148-170 | the amount field takes the typed or preset text |
| `OfferScreen.Screen.SetComment` | src/app/screens/Offer.tsx:183-185 | the comment field takes the typed text |
| `OfferScreen.Screen.BeginConfirm` | src/app/screens/Offer.tsx:80-95 | without details nothing happens; otherwise `loadingConfirm` is set, the confirm button becomes disabled, and exactly one payment call with offer parameter, amount, comment and recipient is recorded |
| `OfferScreen.Screen.ClickConfirm` | src/app/screens/Offer.tsx:316-324 | a click sends a payment exactly when the form is shown, the button is enabled (no payment in progress, an amount entered) and `confirm` gets past its first lines; a sent payment disables the button, so a second click does nothing until the call settles |
| `OfferScreen.Screen.FinishConfirm` | src/app/screens/Offer.tsx:97-124 | the intended tail of `confirm`: `loadingConfirm` is cleared either way, so the button is enabled again exactly when an amount is entered; a returned call stores the resolved action (the success view appears exactly then) or alerts the not-implemented notice, then requests the balance refresh; a throw alerts `Error: <message>` for an `Error` and leaves the success action; only displayable actions are ever stored |
| `OfferScreen.AsWrittenOutcome` | src/app/screens/Offer.tsx:97-121 | as written, every outcome of the payment call ends in the `catch`; a returned call does so with the ReferenceError "paymentInfo is not defined" |
| `OfferScreen.Screen.FinishConfirmAsWritten` | src/app/screens/Offer.tsx:97-124 | as written, a returned call alerts "Error: paymentInfo is not defined", stores no success action and requests no balance refresh; `loadingConfirm` is cleared, so the button is enabled again whenever an amount is entered |
| `OfferScreen.Screen.Elements` | src/app/screens/Offer.tsx:225-246 | three placeholder rows while loading or without details; otherwise recipient, description, amount, comment in that order, plus "Name" exactly when the offer asks for it (4 or 5 rows) |

## Left out

- `decodeOffer` (`bolt12.ts:20-32`) is an HTTP request to the decode service. The screen model takes its outcome as an input to `FinishDecode`: a decoded offer, or a rejection with "Connection problem.".
- The background action `offerPay` is not part of this model. It looks up the connector from global state, calls `sendPaymentOffer` and publishes notifications. The payment call is recorded as an effect with the arguments the screen sends. Its answer is an input to `FinishConfirm` and `FinishConfirmAsWritten`.
- Rendering is not modelled:
  - the JSX, `PublisherCard` and `renderSuccessAction`;
  - the contents of the amount, comment and name inputs, which are markers in the rows;
  - `window.close` and `utils.openUrl`.
- Calls into other parts of the extension are left out: `reject` with `navigate` and `msg.error`, the `api.getSettings` user-name prefill, and the origin lookup (`getOriginData`, the `origin` query parameter).
- `auth.fetchAccountInfo` is recorded as an effect and not modelled further.
- The ordering of React effects and async steps is not modelled. `confirm` is split into `BeginConfirm` and `FinishConfirm`. Which returning call belongs to which confirm, when several overlap, is not modelled.
- The JSON parse in `formattedMetadata` is not modelled. Its outcome is an input, and `None` stands for every input on which the parse or the mapping throws. `formattedMetadata` is never called by the screen.
- `SatAmount.SatText`: JavaScript number formatting is modelled as exact decimal arithmetic on an integer millisatoshi count. It does not capture floating-point rounding for counts too large for a double to hold `msat / 1000` exactly. It also does not capture exponent notation, or a `minSendable` that is not an integer (NaN, a fraction, a numeric string).
- AES success-action decryption with the preimage is not implemented in the source. The fields of an `aes` action are not modelled.
- Amount validation and range checks are absent from the source, so the model has none. The disabled button is the only guard against a second submit, and `Screen.ClickConfirm` models it.

## Findings

| source | as written | input that shows it | evidently intended | confidence | as-written member | corrected member |
|---|---|---|---|---|---|---|
| src/common/lib/bolt12.ts:13 | returns `match[1]`, but the pattern has no capture group | `"lno1qsg"` is recognised and yields `undefined` | return the matched offer text, `match[0]` | high; not executed | `Bolt12.FindOffer` (shown by `Bolt12.FindOfferLosesText`) | `Bolt12.RecognizeOffer` |
| src/common/lib/bolt12.ts:17-19 | `Boolean(findOffer(Offer))` uses two names that are unbound there | any string, e.g. `"lno1qsg"`, throws a ReferenceError; even with the names bound the result is always false | `Boolean(bolt12.findOffer(offer))` with a `findOffer` that returns the offer text | high; not executed | `Bolt12.IsOfferAsWritten` (shown by `Bolt12.IsOfferNeverTrueEvenIfBound`) | `Bolt12.IsOffer` |
| src/app/screens/Offer.tsx:99 | the dispatch reads `paymentInfo.successAction`, and `paymentInfo` is bound nowhere in the component | any payment call that returns, e.g. with no `payment_error`: the `catch` alerts "Error: paymentInfo is not defined", no success view appears, the balance is not refreshed, and the enabled button lets the user pay again | dispatch on the success action declared for the payment | high; not executed | `OfferScreen.Screen.FinishConfirmAsWritten` (shown by `OfferScreen.PaymentReturnLeavesFormAsWritten`) | `OfferScreen.Screen.FinishConfirm` |
