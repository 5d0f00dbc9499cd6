/**
 Payment bookings and the legs built from them: core/modules/ledger/domain/entity/payment_booking.go, the
 posting and event helpers that payment_event_service.go and message_handler_payment_intent.go each
 carry a copy of, and the payloads of core/shared/contracts/events/payment_events.go (the fields used).
 */
module Payments {
  import opened Text
  import opened Postings
  import opened Accounts
  import opened Ledger
  import opened Money

  datatype WithdrawalRequested = WithdrawalRequested(
    paymentID: string, transactionID: string, provider: string, clearingKey: string, debitAccount: string,
    amount: int, feeAmount: int, currency: string, requestedAt: Time)

  datatype Succeeded = Succeeded(
    workflow: string, paymentID: string, transactionID: string, clearingKey: string, creditAccount: string,
    amount: int, feeAmount: int, currency: string, succeededAt: Time)

  datatype Failed = Failed(
    workflow: string, paymentID: string, transactionID: string, clearingKey: string, debitAccount: string,
    amount: int, feeAmount: int, currency: string, occurredAt: Time)

  datatype Reversal = Refund | Chargeback

  /** PaymentRefundedEvent and PaymentChargebackEvent */
  datatype Reversed = Reversed(
    reversal: Reversal, paymentID: string, transactionID: string, clearingKey: string, creditAccount: string,
    amount: int, feeAmount: int, currency: string, reversedAt: Time)

  /** NormalizePaymentWorkflow of core/modules/payment/domain/entity/payment_intent_behavior.go */
  function NormalizeWorkflow(workflow: string): string {
    if Upper(Trim(workflow)) == "TOP_UP" then "TOP_UP"
    else if Upper(Trim(workflow)) == "WITHDRAWAL" then "WITHDRAWAL"
    else ""
  }

  predicate IsWithdrawal(workflow: string) { NormalizeWorkflow(workflow) == "WITHDRAWAL" }

  /** Trimmed, the ten letters of the word, each in upper or lower case. */
  predicate SpellsWithdrawal(workflow: string) {
    var t := Trim(workflow);
    && |t| == 10
    && t[0] in "Ww" && t[1] in "Ii" && t[2] in "Tt" && t[3] in "Hh" && t[4] in "Dd"
    && t[5] in "Rr" && t[6] in "Aa" && t[7] in "Ww" && t[8] in "Aa" && t[9] in "Ll"
  }

  /** The workflows that count as withdrawals, letter by letter. */
  lemma WithdrawalBySpelling(workflow: string)
    ensures IsWithdrawal(workflow) <==> SpellsWithdrawal(workflow)
  {
    var t := Trim(workflow);
    hide Trim;
    assert Upper("WITHDRAWAL") == "WITHDRAWAL" by { assert IsUpper("WITHDRAWAL"); }
    UpperExactly(t, "WITHDRAWAL");
    if |t| == 10 { TenLetters(t); }
  }

  /** The three outcomes of normalising a workflow. */
  lemma WorkflowsBySpelling(workflow: string)
    ensures NormalizeWorkflow(workflow) == "TOP_UP" <==> SameText(Trim(workflow), "TOP_UP")
    ensures NormalizeWorkflow(workflow) == "WITHDRAWAL" <==> SpellsWithdrawal(workflow)
    ensures NormalizeWorkflow(workflow) in {"TOP_UP", "WITHDRAWAL", ""}
  {
    hide Trim, SameText, SpellsWithdrawal;
    WithdrawalBySpelling(workflow);
    assert Upper("TOP_UP") == "TOP_UP" by { assert IsUpper("TOP_UP"); }
    UpperExactly(Trim(workflow), "TOP_UP");
  }

  lemma TenLetters(t: string)
    requires |t| == 10
    ensures SameText(t, "WITHDRAWAL") <==>
              && t[0] in "Ww" && t[1] in "Ii" && t[2] in "Tt" && t[3] in "Hh" && t[4] in "Dd"
              && t[5] in "Rr" && t[6] in "Aa" && t[7] in "Ww" && t[8] in "Aa" && t[9] in "Ll"
  {
    var w := "WITHDRAWAL";
    assert SameText(t, w) <==>
             SameLetter(t[0], w[0]) && SameLetter(t[1], w[1]) && SameLetter(t[2], w[2]) && SameLetter(t[3], w[3]) && SameLetter(t[4], w[4])
             && SameLetter(t[5], w[5]) && SameLetter(t[6], w[6]) && SameLetter(t[7], w[7]) && SameLetter(t[8], w[8]) && SameLetter(t[9], w[9]);
  }

  // ---------------------------------------------------------------- transaction ids

  datatype LegKind =
    | SucceededLeg | RefundedLeg | ChargebackLeg
    | SucceededFeeLeg | RefundedFeeLeg | ChargebackFeeLeg
    | WithdrawalLeg | WithdrawalFeeLeg | WithdrawalFailedLeg | WithdrawalFeeFailedLeg

  function Suffix(kind: LegKind): string {
    match kind
    case SucceededLeg => ":succeeded"
    case RefundedLeg => ":refunded"
    case ChargebackLeg => ":chargeback"
    case SucceededFeeLeg => ":succeeded:fee"
    case RefundedFeeLeg => ":refunded:fee"
    case ChargebackFeeLeg => ":chargeback:fee"
    case WithdrawalLeg => ":withdrawal:principal"
    case WithdrawalFeeLeg => ":withdrawal:fee"
    case WithdrawalFailedLeg => ":withdrawal:principal:failed"
    case WithdrawalFeeFailedLeg => ":withdrawal:fee:failed"
  }

  /** The ledger transaction id of one leg pair of a payment. */
  function LegID(paymentID: string, kind: LegKind): string { "payment:" + paymentID + Suffix(kind) }

  /** The characters 1, 4, 5 and 8 places from the end of a suffix; no two suffixes share them. */
  function Marks(kind: LegKind): string {
    match kind
    case SucceededLeg => "deeu"
    case RefundedLeg => "dnur"
    case ChargebackLeg => "kbea"
    case SucceededFeeLeg => "e:de"
    case RefundedFeeLeg => "e:dn"
    case ChargebackFeeLeg => "e:kb"
    case WithdrawalLeg => "licr"
    case WithdrawalFeeLeg => "e:la"
    case WithdrawalFailedLeg => "dial"
    case WithdrawalFeeFailedLeg => "diae"
  }

  lemma SuffixMarks(kind: LegKind)
    ensures var s := Suffix(kind);
            |s| >= 9 && [s[|s| - 1], s[|s| - 4], s[|s| - 5], s[|s| - 8]] == Marks(kind)
  {
    match kind {
      case SucceededLeg =>
      case RefundedLeg =>
      case ChargebackLeg =>
      case SucceededFeeLeg =>
      case RefundedFeeLeg =>
      case ChargebackFeeLeg =>
      case WithdrawalLeg =>
      case WithdrawalFeeLeg =>
      case WithdrawalFailedLeg =>
      case WithdrawalFeeFailedLeg =>
    }
  }

  lemma MarksDiffer(k: LegKind, l: LegKind)
    requires Marks(k) == Marks(l)
    ensures k == l
  {
    var a, b := Marks(k), Marks(l);
    assert a[0] == b[0] && a[1] == b[1] && a[2] == b[2] && a[3] == b[3];
  }

  /** No suffix is the end of another one. */
  lemma SuffixFree(k: LegKind, l: LegKind)
    requires |Suffix(k)| <= |Suffix(l)| && Suffix(l)[|Suffix(l)| - |Suffix(k)|..] == Suffix(k)
    ensures k == l
  {
    hide Suffix, Marks;
    var s, t := Suffix(k), Suffix(l);
    SuffixMarks(k);
    SuffixMarks(l);
    var end := t[|t| - |s|..];
    assert end[|s| - 1] == t[|t| - 1] && end[|s| - 4] == t[|t| - 4];
    assert end[|s| - 5] == t[|t| - 5] && end[|s| - 8] == t[|t| - 8];
    MarksDiffer(k, l);
  }

  /** Ledger transaction ids are injective in payment id and leg kind, whatever the payment id contains. */
  lemma LegIDInjective(p: string, k: LegKind, q: string, l: LegKind)
    ensures LegID(p, k) == LegID(q, l) <==> p == q && k == l
  {
    if LegID(p, k) == LegID(q, l) {
      if |Suffix(k)| <= |Suffix(l)| { LegIDOrdered(p, k, q, l); } else { LegIDOrdered(q, l, p, k); }
    }
  }

  lemma LegIDOrdered(p: string, k: LegKind, q: string, l: LegKind)
    requires LegID(p, k) == LegID(q, l) && |Suffix(k)| <= |Suffix(l)|
    ensures p == q && k == l
  {
    hide Suffix;
    var id, s, t := LegID(p, k), Suffix(k), Suffix(l);
    assert id[|id| - |s|..] == s && id[|id| - |t|..] == t;
    assert id[|id| - |t|..][|t| - |s|..] == id[|id| - |s|..];
    SuffixFree(k, l);
    assert p == id[8..|id| - |s|] && q == id[8..|id| - |t|];
  }

  lemma LegIDIsID(paymentID: string, kind: LegKind)
    ensures IsID(LegID(paymentID, kind))
  {
    hide Suffix;
    SuffixEnds(kind);
    var id, s := LegID(paymentID, kind), Suffix(kind);
    assert id[0] == 'p' && id[|id| - 1] == s[|s| - 1];
  }

  lemma TrimOfLegID(id: string, kind: LegKind)
    ensures Trim(LegID(id, kind)) == LegID(id, kind)
  {
    hide LegID;
    LegIDIsID(id, kind);
  }

  lemma LegIDNotBlank(paymentID: string, leg: LegKind)
    ensures LegID(paymentID, leg) != ""
  {
    hide Suffix;
  }

  lemma SuffixEnds(kind: LegKind)
    ensures var s := Suffix(kind); s != "" && !IsSpace(s[|s| - 1])
  {
  }

  // ---------------------------------------------------------------- accounts and payment ids

  /** resolvePaymentEventID */
  function Resolve(paymentID: string, transactionID: string): (r: string)
    ensures Trimmed(r)
  {
    FirstNonEmpty(paymentID, transactionID)
  }

  /** ledgerClearingAccountID (of the service, the consumer and the booking entities) */
  function ClearingAccount(key: string): (id: string)
    ensures IsID(id)
  {
    var k := Lower(Trim(key));
    var id := "ledger:clearing:" + k;
    assert IsID(id) by {
      assert id[0] == 'l';
      if k == "" { assert id[|id| - 1] == ':'; } else { assert id[|id| - 1] == k[|k| - 1]; }
    }
    id
  }

  /** providerClearingAccountKey */
  function ProviderKey(provider: string): string {
    var p := Lower(Trim(provider));
    if p == "" then "" else "provider:" + p
  }

  // ---------------------------------------------------------------- bookings

  datatype Booking = Booking(paymentID: string, debit: string, credit: string, currency: string, amount: int)

  /** NewPaymentSucceededBooking: from the clearing account to the credited account */
  function SucceededBooking(paymentID: string, transactionID: string, clearingKey: string, creditAccount: string,
                            currency: string, amount: int): (r: Result<Booking>)
  {
    if Resolve(paymentID, transactionID) == "" then Err(PaymentIDRequired)
    else if Lower(Trim(clearingKey)) == "" then Err(ClearingKeyRequired)
    else if Trim(creditAccount) == "" then Err(CreditAccountRequired)
    else if Currency(currency) == "" then Err(CurrencyRequired)
    else if amount <= 0 then Err(AmountInvalid)
    else if ClearingAccount(Lower(Trim(clearingKey))) == Trim(creditAccount) then Err(AccountsMustDiffer)
    else Ok(Booking(Resolve(paymentID, transactionID), ClearingAccount(Lower(Trim(clearingKey))), Trim(creditAccount),
                    Currency(currency), amount))
  }

  /** NewPaymentReversalBooking: from the account once credited back to the clearing account */
  function ReversalBooking(paymentID: string, transactionID: string, clearingKey: string, creditAccount: string,
                           currency: string, amount: int): (r: Result<Booking>)
  {
    match SucceededBooking(paymentID, transactionID, clearingKey, creditAccount, currency, amount)
    case Err(e) => Err(e)
    case Ok(b) => Ok(b.(debit := b.credit, credit := b.debit))
  }

  // ---------------------------------------------------------------- legs

  /** NewLedgerAccountPaymentPosting followed by NewLedgerAccountEventFromPosting */
  function Leg(account: string, tx: string, kind: PaymentKind, paymentID: string, other: string, currency: string,
               delta: int, at: Time): Result<Event>
  {
    match NewPaymentPosting(account, tx, Payment(kind), paymentID, other, currency, delta, at)
    case Err(e) => Err(e)
    case Ok(p) => Ok(Event(account, 0, EventOfPosting(p).value))
  }

  /** Two legs under one transaction id: `delta` on account a against b, the opposite on b against a. */
  function LegPair(a: string, b: string, tx: string, paymentID: string, currency: string, delta: int, at: Time,
                   ka: PaymentKind, kb: PaymentKind): Result<seq<Event>>
  {
    match Leg(a, tx, ka, paymentID, b, currency, delta, at)
    case Err(e) => Err(e)
    case Ok(first) =>
      match Leg(b, tx, kb, paymentID, a, currency, -delta, at)
      case Err(e) => Err(e)
      case Ok(second) => Ok([first, second])
  }

  /** The pair as the withdrawal builders make it: newPaymentPosting panics where the posting is refused. */
  function HoldPair(a: string, b: string, tx: string, paymentID: string, currency: string, delta: int, at: Time,
                    ka: PaymentKind, kb: PaymentKind): Result<seq<Event>>
  {
    match LegPair(a, b, tx, paymentID, currency, delta, at, ka, kb)
    case Err(e) => Err(Panic(e))
    case Ok(events) => Ok(events)
  }

  /** paymentLedgerEventsFromBooking: a missing booked time is the current time */
  function BookingPair(tx: string, b: Booking, debitKind: PaymentKind, creditKind: PaymentKind, at: Time, now: Time)
    : Result<seq<Event>>
  {
    LegPair(b.debit, b.credit, tx, b.paymentID, b.currency, -b.amount, if at == ZERO_TIME then now else at, debitKind, creditKind)
  }

  /** Appends the events of a fee to those of the principal. */
  function Both(principal: Result<seq<Event>>, fee: Result<seq<Event>>): Result<seq<Event>> {
    match principal
    case Err(e) => Err(e)
    case Ok(events) =>
      match fee
      case Err(e) => Err(e)
      case Ok(more) => Ok(events + more)
  }

  /** The posting a leg leaves on its account: the sign is that of its kind, whatever the sign of the delta. */
  function LegPosting(tx: string, kind: PaymentKind, paymentID: string, other: string, currency: string, delta: int, at: Time): Posting {
    Posting(Trim(tx), Payment(kind), Trim(paymentID), Trim(other), Currency(currency), Signed(kind, Abs(delta)), at)
  }

  lemma LegReads(account: string, tx: string, kind: PaymentKind, paymentID: string, other: string, currency: string,
                 delta: int, at: Time)
    requires Leg(account, tx, kind, paymentID, other, currency, delta, at).Ok?
    ensures var e := Leg(account, tx, kind, paymentID, other, currency, delta, at).value;
            && AccountOf(e) == Trim(account) && IsID(Trim(account)) && Trim(other) != Trim(account)
            && Preview(AccountOf(e), e.data) == Ok(LegPosting(tx, kind, paymentID, other, currency, delta, at))
            && LegPosting(tx, kind, paymentID, other, currency, delta, at).delta != 0
  {
    hide Text.Trim, Text.Trimmed, Text.IsUpper, Text.Currency, Direction;
    var p := NewPaymentPosting(account, tx, Payment(kind), paymentID, other, currency, delta, at).value;
    EventRoundTrip(Trim(account), p);
  }

  /** A pair of legs of opposite kinds is mirrored, for any non-zero amount of either sign. */
  lemma LegPairIsMirrored(a: string, b: string, tx: string, paymentID: string, currency: string, delta: int, at: Time,
                          ka: PaymentKind, kb: PaymentKind)
    requires Direction(ka) == -Direction(kb)
    requires LegPair(a, b, tx, paymentID, currency, delta, at, ka, kb).Ok?
    ensures var events := LegPair(a, b, tx, paymentID, currency, delta, at, ka, kb).value;
            && |events| == 2 && Paired(events)
            && AccountOf(events[0]) == Trim(a) && AccountOf(events[1]) == Trim(b)
            && Preview(Trim(a), events[0].data) == Ok(LegPosting(tx, ka, paymentID, b, currency, delta, at))
            && Preview(Trim(b), events[1].data) == Ok(LegPosting(tx, kb, paymentID, a, currency, -delta, at))
            && IsID(Trim(a)) && IsID(Trim(b)) && Trim(a) != Trim(b)
  {
    hide Text.Trim, Text.Trimmed, Text.IsUpper, Text.Currency, Postings.Preview, Ledger.AccountOf, Leg, Paired, Direction, Accounts.IsID;
    var events := LegPair(a, b, tx, paymentID, currency, delta, at, ka, kb).value;
    LegReads(a, tx, ka, paymentID, b, currency, delta, at);
    LegReads(b, tx, kb, paymentID, a, currency, -delta, at);
    PairIsPaired(events[0], events[1]);
  }

  /** A pair is refused exactly for a blank field, a zero amount or time, or one account on both sides. */
  predicate LegsAllowed(a: string, b: string, tx: string, paymentID: string, currency: string, delta: int, at: Time) {
    && Trim(a) != "" && Trim(b) != "" && Trim(a) != Trim(b) && Trim(tx) != "" && Trim(paymentID) != ""
    && Currency(currency) != "" && delta != 0 && at != ZERO_TIME
  }

  lemma LegPairOk(a: string, b: string, tx: string, paymentID: string, currency: string, delta: int, at: Time,
                  ka: PaymentKind, kb: PaymentKind)
    ensures LegPair(a, b, tx, paymentID, currency, delta, at, ka, kb).Ok? <==> LegsAllowed(a, b, tx, paymentID, currency, delta, at)
  {
    hide Text.Trim, Text.Trimmed, Text.IsUpper, Text.Currency;
  }
}
