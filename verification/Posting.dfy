/**
 Postings and ledger events: the pure half of
 core/modules/ledger/domain/aggregate/ledger_account_aggregate.go and all of ledger_account_event.go.
 */
module Postings {
  import opened Text

  // Times are points on a line; 0 is Go's zero time. UTC() keeps the point.
  type Time = int
  const ZERO_TIME: Time := 0

  /** The ten payment event types; each is also the reference type of the postings it books. */
  datatype PaymentKind =
    | DepositFromIntent | WithdrawFromIntent
    | DepositFromRefund | WithdrawFromRefund
    | DepositFromChargeback | WithdrawFromChargeback
    | ReserveWithdrawal | ReceiveWithdrawalHold
    | ReleaseWithdrawal | WithdrawReleasedHold

  datatype ReferenceType = Payment(kind: PaymentKind) | InternalTransfer | Unknown(name: string)

  datatype Posting = Posting(
    transactionID: string, referenceType: ReferenceType, referenceID: string,
    counterparty: string, currency: string, delta: int, bookedAt: Time)

  /** Event payloads. The ten payment structs share one shape and differ in their type name. */
  datatype EventData =
    | PaymentEvent(kind: PaymentKind, transactionID: string, paymentID: string,
                   counterparty: string, currency: string, amount: int, bookedAt: Time)
    | TransferredToAccount(transactionID: string, toAccountID: string, currency: string, amount: int, bookedAt: Time)
    | ReceivedTransfer(transactionID: string, fromAccountID: string, currency: string, amount: int, bookedAt: Time)
    | Unsupported

  datatype Event = Event(aggregateID: string, version: nat, data: EventData)

  datatype Error =
    | AggregateIDEmpty | AccountIDRequired | AccountIDMismatch | TransactionRequired | ReferenceTypeInvalid
    | ReferenceIDRequired | CounterpartyRequired | AccountsMustDiffer | CurrencyRequired
    | AmountInvalid | BookedAtRequired | InsufficientFunds | UnsupportedEventType | PostingMismatch
    // raised above the aggregate
    | Validation | EventAggregateIDRequired | BatchInconsistent | StateInconsistent
    | DuplicateVersion | VersionConflict | DuplicateSnapshot | NotLoaded
    // payment bookings, and a panic raised while a posting is built
    | PaymentIDRequired | ClearingKeyRequired | CreditAccountRequired | BookingTypeInvalid
    | Panic(cause: Error)

  datatype Result<T> = Ok(value: T) | Err(error: Error)
  datatype Option<T> = None | Some(value: T)

  // ---------------------------------------------------------------- building postings

  /** newLedgerPosting */
  function NewPosting(transactionID: string, referenceType: ReferenceType, referenceID: string,
                      counterparty: string, currency: string, delta: int, bookedAt: Time): Result<Posting>
  {
    if Trim(transactionID) == "" then Err(TransactionRequired)
    else if Currency(currency) == "" then Err(CurrencyRequired)
    else if delta == 0 then Err(AmountInvalid)
    else if bookedAt == ZERO_TIME then Err(BookedAtRequired)
    else Ok(Posting(Trim(transactionID), referenceType, Trim(referenceID), Trim(counterparty),
                    Currency(currency), delta, bookedAt))
  }

  /** normalizeLedgerAccountPosting */
  function Normalize(accountID: string, p: Posting): Result<(string, Posting)> {
    if Trim(accountID) == "" then Err(AccountIDRequired)
    else if p.referenceType.Unknown? then Err(ReferenceTypeInvalid)
    else if Trim(p.transactionID) == "" then Err(TransactionRequired)
    else if Trim(p.referenceID) == "" then Err(ReferenceIDRequired)
    else if Trim(p.counterparty) == "" then Err(CounterpartyRequired)
    else if Trim(p.counterparty) == Trim(accountID) then Err(AccountsMustDiffer)
    else if Currency(p.currency) == "" then Err(CurrencyRequired)
    else if p.delta == 0 then Err(AmountInvalid)
    else if p.bookedAt == ZERO_TIME then Err(BookedAtRequired)
    else Ok((Trim(accountID),
             Posting(Trim(p.transactionID), p.referenceType, Trim(p.referenceID), Trim(p.counterparty),
                     Currency(p.currency), p.delta, p.bookedAt)))
  }

  /** NewLedgerAccountPaymentPosting */
  function NewPaymentPosting(accountID: string, transactionID: string, referenceType: ReferenceType,
                             referenceID: string, counterparty: string, currency: string,
                             delta: int, bookedAt: Time): (r: Result<Posting>)
    ensures r.Ok? ==> WellFormed(Trim(accountID), r.value)
  {
    match NewPosting(transactionID, referenceType, referenceID, counterparty, currency, delta, bookedAt)
    case Err(e) => Err(e)
    case Ok(p) =>
      match Normalize(accountID, p)
      case Err(e) => Err(e)
      case Ok((_, q)) => Ok(q)
  }

  /** NewLedgerAccountTransferOutPosting */
  function TransferOutPosting(accountID: string, transactionID: string, to: string, currency: string,
                              amount: int, bookedAt: Time): Result<Posting>
  {
    NewPaymentPosting(accountID, transactionID, InternalTransfer, transactionID, to, currency, -amount, bookedAt)
  }

  /** NewLedgerAccountTransferInPosting */
  function TransferInPosting(accountID: string, transactionID: string, from: string, currency: string,
                             amount: int, bookedAt: Time): Result<Posting>
  {
    NewPaymentPosting(accountID, transactionID, InternalTransfer, transactionID, from, currency, amount, bookedAt)
  }

  /** Which refusal a posting meets: the first of these that applies. */
  lemma PostingRefusals(accountID: string, tx: string, ref: ReferenceType, refID: string, other: string, currency: string, delta: int,
                        at: Time)
    ensures var r := NewPaymentPosting(accountID, tx, ref, refID, other, currency, delta, at);
            if Trim(tx) == "" then r == Err(TransactionRequired)
            else if Trim(currency) == "" then r == Err(CurrencyRequired)
            else if delta == 0 then r == Err(AmountInvalid)
            else if at == ZERO_TIME then r == Err(BookedAtRequired)
            else if Trim(accountID) == "" then r == Err(AccountIDRequired)
            else if ref.Unknown? then r == Err(ReferenceTypeInvalid)
            else if Trim(refID) == "" then r == Err(ReferenceIDRequired)
            else if Trim(other) == "" then r == Err(CounterpartyRequired)
            else if Trim(other) == Trim(accountID) then r == Err(AccountsMustDiffer)
            else r == Ok(Posting(Trim(tx), ref, Trim(refID), Trim(other), Currency(currency), delta, at))
  {
    hide Text.Trim, Text.Trimmed, Text.IsUpper, WellFormed, Text.Currency;
    CurrencyBlank(currency);
  }

  /** What a posting on account `id` looks like once every field has been normalised. */
  predicate WellFormed(id: string, p: Posting) {
    && Trimmed(id) && id != ""
    && !p.referenceType.Unknown?
    && Trimmed(p.transactionID) && p.transactionID != ""
    && Trimmed(p.referenceID) && p.referenceID != ""
    && Trimmed(p.counterparty) && p.counterparty != "" && p.counterparty != id
    && Trimmed(p.currency) && IsUpper(p.currency) && p.currency != ""
    && p.delta != 0 && p.bookedAt != ZERO_TIME
  }

  /** Normalisation is a projection onto the well-formed postings: those, and only those, are its fixed points. */
  lemma NormalizeFixpoints(id: string, p: Posting)
    ensures Normalize(id, p) == Ok((id, p)) <==> WellFormed(id, p)
    ensures Normalize(id, p).Ok? ==> WellFormed(Normalize(id, p).value.0, Normalize(id, p).value.1)
  {
    hide Text.Trim, Text.Trimmed, Text.IsUpper, Text.Currency;
  }

  // ---------------------------------------------------------------- events and postings

  /** The sign with which an event of this kind moves the account's balance. */
  function Direction(kind: PaymentKind): (d: int)
    ensures d == 1 || d == -1
  {
    match kind
    case DepositFromIntent | DepositFromRefund | DepositFromChargeback
       | ReceiveWithdrawalHold | ReleaseWithdrawal => 1
    case _ => -1
  }

  /** direction * amount */
  function Signed(kind: PaymentKind, amount: int): int { if Direction(kind) == 1 then amount else -amount }

  function Abs(x: int): (a: int)
    ensures a >= 0 && (a == x || a == -x)
  {
    if x < 0 then -x else x
  }

  /** previewLedgerPostingFromEvent, with "not a posting event" reported as UnsupportedEventType */
  function Preview(accountID: string, data: EventData): (r: Result<Posting>)
    ensures r.Ok? ==> WellFormed(Trim(accountID), r.value)
  {
    match data
    case PaymentEvent(kind, tx, paymentID, counterparty, currency, amount, at) =>
      NewPaymentPosting(accountID, tx, Payment(kind), paymentID, counterparty, currency, Signed(kind, amount), at)
    case TransferredToAccount(tx, to, currency, amount, at) =>
      TransferOutPosting(accountID, tx, to, currency, amount, at)
    case ReceivedTransfer(tx, from, currency, amount, at) =>
      TransferInPosting(accountID, tx, from, currency, amount, at)
    case Unsupported => Err(UnsupportedEventType)
  }

  /** newLedgerPaymentEvent: the payment event that records a posting, if its reference type has one */
  function EventOfPosting(p: Posting): Option<EventData> {
    match p.referenceType
    case Payment(kind) =>
      Some(PaymentEvent(kind, p.transactionID, p.referenceID, p.counterparty, p.currency, Abs(p.delta), p.bookedAt))
    case _ => None
  }

  /** SameLedgerAccountPosting: equality up to the booked time */
  predicate Same(l: Posting, r: Posting) {
    l.(bookedAt := r.bookedAt) == r
  }

  /** Two postings are the same exactly when they agree in every field but the booked time. */
  lemma SameExactly(l: Posting, r: Posting)
    ensures Same(l, r) <==>
              && l.transactionID == r.transactionID && l.referenceType == r.referenceType && l.referenceID == r.referenceID
              && l.counterparty == r.counterparty && l.currency == r.currency && l.delta == r.delta
  {
  }

  /** The payload as it would read had it been booked at `at`. */
  function BookedAt(data: EventData, at: Time): EventData {
    match data
    case PaymentEvent(kind, tx, id, other, currency, amount, _) =>
      PaymentEvent(kind, tx, id, other, currency, amount, at)
    case TransferredToAccount(tx, to, currency, amount, _) => TransferredToAccount(tx, to, currency, amount, at)
    case ReceivedTransfer(tx, from, currency, amount, _) => ReceivedTransfer(tx, from, currency, amount, at)
    case Unsupported => Unsupported
  }

  /** Two payloads that differ at most in when they were booked. */
  predicate SameEvent(l: EventData, r: EventData) {
    BookedAt(l, ZERO_TIME) == BookedAt(r, ZERO_TIME)
  }

  /**
   Turning a posting into its event and reading the event back gives the posting whose sign is the
   one of its kind. So the round trip is the identity exactly when the sign already matched.
   */
  lemma EventRoundTrip(id: string, p: Posting)
    requires WellFormed(id, p) && p.referenceType.Payment?
    ensures EventOfPosting(p).Some?
    ensures Preview(id, EventOfPosting(p).value)
         == Ok(p.(delta := Signed(p.referenceType.kind, Abs(p.delta))))
    ensures Preview(id, EventOfPosting(p).value) == Ok(p)
       <==> (p.delta > 0 <==> Direction(p.referenceType.kind) == 1)
  {
    hide Text.Trim, Text.Trimmed, Text.IsUpper, Text.Currency;
  }

  lemma PostingIsStable(accountID: string, tx: string, ref: ReferenceType, refID: string, other: string, currency: string,
                        delta: int, at: Time)
    ensures var r := NewPaymentPosting(accountID, tx, ref, refID, other, currency, delta, at);
            NewPaymentPosting(Trim(accountID), tx, ref, refID, other, currency, delta, at) == r
  {
    hide Text.Trim, Text.Trimmed, Text.IsUpper, Text.Currency, WellFormed;
  }

  /** Reading an event for the trimmed account id changes nothing. */
  lemma PreviewOfTrimmed(accountID: string, data: EventData)
    ensures Preview(Trim(accountID), data) == Preview(accountID, data)
  {
    hide Text.Trim, Text.Trimmed, Text.IsUpper, Text.Currency, NewPaymentPosting, WellFormed, Direction;
    match data {
      case PaymentEvent(kind, tx, id, other, c, amount, at) =>
        PostingIsStable(accountID, tx, Payment(kind), id, other, c, Signed(kind, amount), at);
      case TransferredToAccount(tx, to, c, amount, at) =>
        PostingIsStable(accountID, tx, InternalTransfer, tx, to, c, -amount, at);
      case ReceivedTransfer(tx, from, c, amount, at) =>
        PostingIsStable(accountID, tx, InternalTransfer, tx, from, c, amount, at);
      case Unsupported =>
    }
  }

  /** Reading an event again after its fields were normalised changes nothing. */
  lemma PreviewIsStable(accountID: string, data: EventData)
    requires Preview(accountID, data).Ok?
    ensures Preview(Trim(accountID), data) == Preview(accountID, data)
    ensures var p := Preview(accountID, data).value;
            Normalize(accountID, p) == Ok((Trim(accountID), p))
  {
    hide Text.Trim, Text.Trimmed, Preview, WellFormed, Normalize;
    PreviewOfTrimmed(accountID, data);
    NormalizeOfTrimmed(accountID, Preview(accountID, data).value);
  }

  lemma NormalizeOfTrimmed(accountID: string, p: Posting)
    requires WellFormed(Trim(accountID), p)
    ensures Normalize(accountID, p) == Ok((Trim(accountID), p))
  {
    hide Text.Trim, Text.Trimmed, Text.IsUpper, Text.Currency;
  }

  /** The transfer commands write the normalised fields but the raw amount; the event still reads back as the posting. */
  lemma TransferEventsReadBack(id: string, tx: string, other: string, currency: string, amount: int, at: Time)
    ensures var p := TransferOutPosting(id, tx, other, currency, amount, at);
            p.Ok? ==> Preview(id, TransferredToAccount(p.value.transactionID, p.value.counterparty,
                                                       p.value.currency, amount, p.value.bookedAt)) == p
    ensures var p := TransferInPosting(id, tx, other, currency, amount, at);
            p.Ok? ==> Preview(id, ReceivedTransfer(p.value.transactionID, p.value.counterparty,
                                                   p.value.currency, amount, p.value.bookedAt)) == p
  {
    hide Text.Trim, Text.Trimmed, Text.IsUpper, Text.Currency;
  }

  /** Booking the same event at another (non-zero) time gives the same posting up to that time. */
  lemma PreviewIgnoresTime(accountID: string, l: EventData, r: EventData)
    requires SameEvent(l, r) && Preview(accountID, l).Ok? && !r.Unsupported? && r.bookedAt != ZERO_TIME
    ensures Preview(accountID, r).Ok? && Same(Preview(accountID, l).value, Preview(accountID, r).value)
  {
    hide Text.Trim, Text.Trimmed, Text.IsUpper, Text.Currency;
  }
}
