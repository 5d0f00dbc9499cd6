/**
 The Kafka copy of the same builders, core/modules/ledger/application/messaging/message_handler_payment_intent.go.
 The payment id is resolved first, with the message's aggregate id as a further fallback.
 */
module PaymentConsumer {
  import opened Text
  import opened Postings
  import opened Payments
  import opened PaymentService

  /** resolvePaymentWithdrawalRequestedID and its four siblings */
  function ResolveID(aggregateID: string, paymentID: string, transactionID: string): (r: string)
    ensures Trimmed(r)
  {
    FirstNonEmpty(FirstNonEmpty(paymentID, aggregateID), transactionID)
  }

  function WithdrawalEvents(feeAccount: string, w: WithdrawalRequested): Result<seq<Event>> {
    var clearing := ClearingAccount(FirstNonEmpty(w.clearingKey, ProviderKey(w.provider)));
    var principal := HoldPair(Trim(w.debitAccount), clearing, LegID(Trim(w.paymentID), WithdrawalLeg), Trim(w.paymentID),
                              w.currency, -w.amount, w.requestedAt, ReserveWithdrawal, ReceiveWithdrawalHold);
    if w.feeAmount > 0 && Trim(feeAccount) != "" then
      Both(principal,
           HoldPair(Trim(w.debitAccount), Trim(feeAccount), LegID(Trim(w.paymentID), WithdrawalFeeLeg), Trim(w.paymentID),
                    w.currency, -w.feeAmount, w.requestedAt, ReserveWithdrawal, ReceiveWithdrawalHold))
    else principal
  }

  function SucceededEvents(feeAccount: string, s: Succeeded, now: Time): Result<seq<Event>> {
    if IsWithdrawal(s.workflow) then Ok([]) else
      match SucceededBooking(s.paymentID, s.transactionID, s.clearingKey, s.creditAccount, s.currency, s.amount)
      case Err(e) => Err(e)
      case Ok(b) =>
        var principal := BookingPair(LegID(Trim(b.paymentID), SucceededLeg), b, WithdrawFromIntent, DepositFromIntent,
                                     s.succeededAt, now);
        if s.feeAmount > 0 && Trim(feeAccount) != "" then
          var fee := b.(debit := ClearingAccount(s.clearingKey), credit := Trim(feeAccount), amount := s.feeAmount);
          Both(principal, BookingPair(LegID(Trim(b.paymentID), SucceededFeeLeg), fee, WithdrawFromIntent,
                                      DepositFromIntent, s.succeededAt, now))
        else principal
  }

  function FailedEvents(feeAccount: string, f: Failed): Result<seq<Event>> {
    if !IsWithdrawal(f.workflow) then Ok([]) else
      var principal := HoldPair(Trim(f.debitAccount), ClearingAccount(f.clearingKey),
                                LegID(Trim(f.paymentID), WithdrawalFailedLeg), Trim(f.paymentID), f.currency, f.amount,
                                f.occurredAt, ReleaseWithdrawal, WithdrawReleasedHold);
      if f.feeAmount > 0 && Trim(feeAccount) != "" then
        Both(principal,
             HoldPair(Trim(f.debitAccount), Trim(feeAccount), LegID(Trim(f.paymentID), WithdrawalFeeFailedLeg),
                      Trim(f.paymentID), f.currency, f.feeAmount, f.occurredAt, ReleaseWithdrawal, WithdrawReleasedHold))
      else principal
  }

  function ReversedEvents(feeAccount: string, r: Reversed, now: Time): Result<seq<Event>> {
    match ReversalBooking(r.paymentID, r.transactionID, r.clearingKey, r.creditAccount, r.currency, r.amount)
    case Err(e) => Err(e)
    case Ok(b) =>
      var principal := BookingPair(LegID(Trim(b.paymentID), ReversalLeg(r.reversal)), b, DebitKind(r.reversal),
                                   CreditKind(r.reversal), r.reversedAt, now);
      if r.feeAmount > 0 && Trim(feeAccount) != "" then
        var fee := b.(debit := Trim(feeAccount), credit := ClearingAccount(r.clearingKey), amount := r.feeAmount);
        Both(principal, BookingPair(LegID(Trim(b.paymentID), ReversalFeeLeg(r.reversal)), fee, DebitKind(r.reversal),
                                    CreditKind(r.reversal), r.reversedAt, now))
      else principal
  }

  /** The dispatch of handlePaymentOutboxEvent: resolve the payment id, then build. */
  function EventsOfMessage(feeAccount: string, aggregateID: string, p: Payload, now: Time): Result<seq<Event>> {
    match p
    case OnWithdrawal(w) =>
      WithdrawalEvents(feeAccount, w.(paymentID := ResolveID(aggregateID, w.paymentID, w.transactionID)))
    case OnSucceeded(s) =>
      SucceededEvents(feeAccount, s.(paymentID := ResolveID(aggregateID, s.paymentID, s.transactionID)), now)
    case OnFailed(f) =>
      FailedEvents(feeAccount, f.(paymentID := ResolveID(aggregateID, f.paymentID, f.transactionID)))
    case OnReversed(r) =>
      ReversedEvents(feeAccount, r.(paymentID := ResolveID(aggregateID, r.paymentID, r.transactionID)), now)
  }

  function IDsOf(p: Payload): (string, string) {
    match p
    case OnWithdrawal(w) => (w.paymentID, w.transactionID)
    case OnSucceeded(s) => (s.paymentID, s.transactionID)
    case OnFailed(f) => (f.paymentID, f.transactionID)
    case OnReversed(r) => (r.paymentID, r.transactionID)
  }

  /** Both paths resolve the payload to one payment id. */
  predicate SamePaymentID(aggregateID: string, p: Payload) {
    ResolveID(aggregateID, IDsOf(p).0, IDsOf(p).1) == Resolve(IDsOf(p).0, IDsOf(p).1)
  }

  /** Two payment ids agree if the payload carries one, or if the aggregate id is blank or the transaction id. */
  lemma SamePaymentIDExactly(aggregateID: string, p: Payload)
    ensures SamePaymentID(aggregateID, p) <==>
              || Trim(IDsOf(p).0) != "" || Trim(aggregateID) == "" || Trim(aggregateID) == Trim(IDsOf(p).1)
  {
    hide Text.Trim, Text.Trimmed;
  }

  /** The two paths build the very same events for a payload that they resolve to one payment id. */
  lemma PathsAgree(feeAccount: string, aggregateID: string, p: Payload, now: Time)
    requires SamePaymentID(aggregateID, p)
    ensures EventsOfMessage(feeAccount, aggregateID, p, now) == EventsOfPayload(feeAccount, p, now)
  {
    hide Text.Trim, Text.Trimmed, HoldPair, BookingPair, Both, LegID, IsWithdrawal, Text.Currency, Text.Lower, ClearingAccount, ProviderKey;
  }

  // ---------------------------------------------------------------- and only those

  lemma FirstOfPair(a: string, b: string, tx: string, paymentID: string, currency: string, delta: int, at: Time,
                    ka: PaymentKind, kb: PaymentKind)
    requires LegPair(a, b, tx, paymentID, currency, delta, at, ka, kb).Ok?
    ensures var events := LegPair(a, b, tx, paymentID, currency, delta, at, ka, kb).value;
            events != [] && events[0].data.PaymentEvent? && events[0].data.transactionID == Trim(tx)
  {
    hide Text.Trim, Text.Trimmed, Text.Currency, Text.IsUpper, Postings.WellFormed, Leg;
    LegHasID(a, tx, ka, paymentID, b, currency, delta, at);
  }

  lemma LegHasID(account: string, tx: string, kind: PaymentKind, paymentID: string, other: string, currency: string, delta: int, at: Time)
    requires Leg(account, tx, kind, paymentID, other, currency, delta, at).Ok?
    ensures var e := Leg(account, tx, kind, paymentID, other, currency, delta, at).value;
            e.data.PaymentEvent? && e.data.transactionID == Trim(tx)
  {
    hide Text.Trim, Text.Trimmed, Text.Currency, Text.IsUpper, Postings.WellFormed, Postings.Abs;
  }

  /** The transaction id of the first event, when there is one. */
  function FirstID(r: Result<seq<Event>>): Option<string> {
    if r.Ok? && r.value != [] && r.value[0].data.PaymentEvent? then Some(r.value[0].data.transactionID) else None
  }

  function PrincipalKind(p: Payload): LegKind {
    match p
    case OnWithdrawal(_) => WithdrawalLeg
    case OnSucceeded(_) => SucceededLeg
    case OnFailed(_) => WithdrawalFailedLeg
    case OnReversed(r) => ReversalLeg(r.reversal)
  }

  lemma FirstIDOfPayload(feeAccount: string, p: Payload, now: Time)
    requires EventsOfPayload(feeAccount, p, now).Ok? && EventsOfPayload(feeAccount, p, now).value != []
    ensures FirstID(EventsOfPayload(feeAccount, p, now)) == Some(LegID(Resolve(IDsOf(p).0, IDsOf(p).1), PrincipalKind(p)))
  {
    hide Text.Trim, Text.Trimmed, LegPair, LegID, IsWithdrawal, Text.Currency, Text.Lower, ClearingAccount, ProviderKey;
    var id := Resolve(IDsOf(p).0, IDsOf(p).1);
    TrimOfLegID(id, PrincipalKind(p));
    match p {
      case OnWithdrawal(w) =>
        FirstOfPair(Trim(w.debitAccount), ClearingAccount(FirstNonEmpty(w.clearingKey, ProviderKey(w.provider))),
                    LegID(id, WithdrawalLeg), id, w.currency, -w.amount, w.requestedAt, ReserveWithdrawal, ReceiveWithdrawalHold);
      case OnSucceeded(s) =>
        var b := SucceededBooking(id, s.transactionID, s.clearingKey, s.creditAccount, s.currency, s.amount).value;
        FirstOfPair(b.debit, b.credit, LegID(id, SucceededLeg), b.paymentID, b.currency, -b.amount,
                    if s.succeededAt == ZERO_TIME then now else s.succeededAt, WithdrawFromIntent, DepositFromIntent);
      case OnFailed(f) =>
        FirstOfPair(Trim(f.debitAccount), ClearingAccount(f.clearingKey), LegID(id, WithdrawalFailedLeg), id, f.currency,
                    f.amount, f.occurredAt, ReleaseWithdrawal, WithdrawReleasedHold);
      case OnReversed(r) =>
        var b := ReversalBooking(id, r.transactionID, r.clearingKey, r.creditAccount, r.currency, r.amount).value;
        FirstOfPair(b.debit, b.credit, LegID(id, ReversalLeg(r.reversal)), b.paymentID, b.currency, -b.amount,
                    if r.reversedAt == ZERO_TIME then now else r.reversedAt, DebitKind(r.reversal), CreditKind(r.reversal));
    }
  }

  /** The same payload, with its payment id set. */
  function WithPaymentID(p: Payload, id: string): Payload {
    match p
    case OnWithdrawal(w) => OnWithdrawal(w.(paymentID := id))
    case OnSucceeded(s) => OnSucceeded(s.(paymentID := id))
    case OnFailed(f) => OnFailed(f.(paymentID := id))
    case OnReversed(r) => OnReversed(r.(paymentID := id))
  }

  /** A message is built like the payload that carries the payment id the consumer resolved. */
  lemma MessageIsPayload(feeAccount: string, aggregateID: string, p: Payload, now: Time)
    ensures var q := WithPaymentID(p, ResolveID(aggregateID, IDsOf(p).0, IDsOf(p).1));
            EventsOfMessage(feeAccount, aggregateID, p, now) == EventsOfMessage(feeAccount, aggregateID, q, now)
            && (ResolveID(aggregateID, IDsOf(p).0, IDsOf(p).1) != "" ==>
                  EventsOfMessage(feeAccount, aggregateID, p, now) == EventsOfPayload(feeAccount, q, now))
  {
    hide Text.Trim, Text.Trimmed, WithdrawalEvents, SucceededEvents, FailedEvents, ReversedEvents, EventsOfPayload;
    var q := WithPaymentID(p, ResolveID(aggregateID, IDsOf(p).0, IDsOf(p).1));
    SamePaymentIDExactly(aggregateID, q);
    if ResolveID(aggregateID, IDsOf(p).0, IDsOf(p).1) != "" { PathsAgree(feeAccount, aggregateID, q, now); }
  }

  /**
   The consumer and the service build the same events for a payload if and only if they resolve it to the
   same payment id; otherwise the payment would be booked once per path, under two transaction ids.
   */
  lemma PathsAgreeExactly(feeAccount: string, aggregateID: string, p: Payload, now: Time)
    requires EventsOfPayload(feeAccount, p, now).Ok? && EventsOfPayload(feeAccount, p, now).value != []
    ensures EventsOfMessage(feeAccount, aggregateID, p, now) == EventsOfPayload(feeAccount, p, now) <==> SamePaymentID(aggregateID, p)
  {
    hide Text.Trim, Text.Trimmed, EventsOfPayload, EventsOfMessage, LegID;
    if SamePaymentID(aggregateID, p) {
      PathsAgree(feeAccount, aggregateID, p, now);
    } else if EventsOfMessage(feeAccount, aggregateID, p, now) == EventsOfPayload(feeAccount, p, now) {
      var id := ResolveID(aggregateID, IDsOf(p).0, IDsOf(p).1);
      var q := WithPaymentID(p, id);
      FirstIDOfPayload(feeAccount, p, now);
      MessageIsPayload(feeAccount, aggregateID, p, now);
      FirstIDOfPayload(feeAccount, q, now);
      LegIDInjective(Resolve(IDsOf(p).0, IDsOf(p).1), PrincipalKind(p), Resolve(IDsOf(q).0, IDsOf(q).1), PrincipalKind(q));
    }
  }
}
