/**
 RecordPaymentSucceeded and RecordPaymentReversed of the ledger service, which book a payment directly, and how
 they meet the payment events of the same payment.
 */
module PaymentCommands {
  import opened Text
  import opened Postings
  import opened Accounts
  import opened Entities
  import opened Stores
  import opened Ledger
  import opened Services
  import opened Payments
  import opened PaymentService

  /** RecordPaymentSucceededCommand, and RecordPaymentReversedCommand with its reversal type */
  datatype PaymentCommand = PaymentCommand(
    paymentID: string, transactionID: string, clearingKey: string, creditAccount: string, currency: string, amount: int)

  /** normalizePaymentBookingType */
  function ReversalOf(reversalType: string): Option<Reversal> {
    if Trim(reversalType) == "PaymentRefundedEvent" then Some(Refund)
    else if Trim(reversalType) == "PaymentChargebackEvent" then Some(Chargeback)
    else None
  }

  /** The payment events that say the same as a command: without a fee, and without a time of their own. */
  function AsSucceeded(cmd: PaymentCommand): Payload {
    OnSucceeded(Succeeded("", cmd.paymentID, cmd.transactionID, cmd.clearingKey, cmd.creditAccount, cmd.amount, 0, cmd.currency,
                          ZERO_TIME))
  }

  function AsReversed(cmd: PaymentCommand, reversal: Reversal): Payload {
    OnReversed(Reversed(reversal, cmd.paymentID, cmd.transactionID, cmd.clearingKey, cmd.creditAccount, cmd.amount, 0, cmd.currency,
                        ZERO_TIME))
  }

  function EntriesOfBooking(b: Booking): seq<EntryInput> {
    [EntryInput(b.debit, b.currency, -b.amount), EntryInput(b.credit, b.currency, b.amount)]
  }

  predicate GoodPaymentBooking(b: Booking) {
    IsID(b.debit) && IsID(b.credit) && IsID(b.paymentID) && Trimmed(b.currency) && IsUpper(b.currency) && b.currency != ""
    && b.amount > 0 && b.debit != b.credit
  }

  lemma SucceededBookingIsGood(paymentID: string, transactionID: string, key: string, credit: string, currency: string, amount: int)
    requires SucceededBooking(paymentID, transactionID, key, credit, currency, amount).Ok?
    ensures GoodPaymentBooking(SucceededBooking(paymentID, transactionID, key, credit, currency, amount).value)
    ensures GoodPaymentBooking(ReversalBooking(paymentID, transactionID, key, credit, currency, amount).value)
  {
    hide Text.Trim, Text.Trimmed, Text.IsUpper, Text.Currency, ClearingAccount;
  }

  lemma BookingBalances(b: Booking)
    requires GoodPaymentBooking(b)
    ensures Balanced(EntriesOfBooking(b))
    ensures Currency(b.currency) == b.currency && Trim(b.paymentID) == b.paymentID
  {
    hide Text.Trim, Text.Trimmed, Text.IsUpper, Text.Currency;
    var e := EntriesOfBooking(b);
    assert e[..1][..0] == [] && Entities.Total(e[..1][..0]) == 0;
    assert Entities.Total(e[..1]) == -b.amount;
  }

  /** The two legs of a booking, booked now under the transaction's id and in its currency. */
  method RecordBooking(service: LedgerService, b: Booking, leg: LegKind, debitKind: PaymentKind, creditKind: PaymentKind, now: Time)
    returns (r: Result<()>)
    requires service.repo.Valid() && GoodPaymentBooking(b) && now != ZERO_TIME
    modifies service.repo
    ensures service.repo.Valid()
    ensures BookingPair(LegID(Trim(b.paymentID), leg), b, debitKind, creditKind, ZERO_TIME, now).Ok?
    ensures Outcome(service.repo.rows, r)
         == Record(old(service.repo.rows), BookingPair(LegID(Trim(b.paymentID), leg), b, debitKind, creditKind, ZERO_TIME, now).value)
  {
    hide Text.Trim, Text.Trimmed, Text.IsUpper, Text.Currency, LegID, LegPair, Ledger.Record, Stores.GoodStore, Balanced,
         Entities.EntryOf;
    BookingBalances(b);
    TrimOfLegID(b.paymentID, leg);
    LegIDIsID(b.paymentID, leg);
    var tx := NewLedgerTransaction(LegID(Trim(b.paymentID), leg), EntriesOfBooking(b), now);
    if tx.Err? {
      return Err(Validation);
    }
    LegPairOk(b.debit, b.credit, LegID(b.paymentID, leg), b.paymentID, b.currency, -b.amount, now, debitKind, creditKind);
    var events := LegPair(b.debit, b.credit, tx.value.transactionID, b.paymentID, tx.value.currency, -b.amount, tx.value.createdAt,
                          debitKind, creditKind);
    r := service.RecordLedgerEvents(events.value);
  }

  /** The command took the store from `before` to `after` and answered `r` as the payment event would, without a fee. */
  ghost predicate RecordedAs(before: Rows, p: Payload, now: Time, after: Rows, r: Result<()>) {
    match EventsOfPayload("", p, now)
    case Err(_) => r == Err(Validation) && after == before
    case Ok(events) => Outcome(after, r) == Record(before, events)
  }

  /** RecordPaymentSucceeded: what the succeeded event of the payment does, without a fee and booked now */
  method RecordPaymentSucceeded(service: LedgerService, cmd: PaymentCommand, now: Time) returns (r: Result<()>)
    requires service.repo.Valid() && now != ZERO_TIME
    modifies service.repo
    ensures service.repo.Valid()
    ensures RecordedAs(old(service.repo.rows), AsSucceeded(cmd), now, service.repo.rows, r)
  {
    hide Text.Trim, Text.Trimmed, Text.IsUpper, Text.Currency, LegID, BookingPair, Ledger.Record, Stores.GoodStore,
         SucceededBooking, IsWithdrawal, SpellsWithdrawal, GoodPaymentBooking;
    NoWorkflow();
    SameBooking(cmd);
    var booking := SucceededBooking(cmd.paymentID, cmd.transactionID, cmd.clearingKey, cmd.creditAccount, cmd.currency, cmd.amount);
    if booking.Err? {
      return Err(Validation);
    }
    SucceededBookingIsGood(cmd.paymentID, cmd.transactionID, cmd.clearingKey, cmd.creditAccount, cmd.currency, cmd.amount);
    r := RecordBooking(service, booking.value, SucceededLeg, WithdrawFromIntent, DepositFromIntent, now);
  }

  /** RecordPaymentReversed: what the refund or chargeback event of the payment does, without a fee and booked now */
  method RecordPaymentReversed(service: LedgerService, cmd: PaymentCommand, reversalType: string, now: Time) returns (r: Result<()>)
    requires service.repo.Valid() && now != ZERO_TIME
    modifies service.repo
    ensures service.repo.Valid()
    ensures Trim(reversalType) == "PaymentRefundedEvent" ==>
              RecordedAs(old(service.repo.rows), AsReversed(cmd, Refund), now, service.repo.rows, r)
    ensures Trim(reversalType) == "PaymentChargebackEvent" ==>
              RecordedAs(old(service.repo.rows), AsReversed(cmd, Chargeback), now, service.repo.rows, r)
    ensures Trim(reversalType) != "PaymentRefundedEvent" && Trim(reversalType) != "PaymentChargebackEvent" ==>
              r == Err(Validation) && service.repo.rows == old(service.repo.rows)
  {
    hide Text.Trim, Text.Trimmed, Text.IsUpper, Text.Currency, LegID, BookingPair, Ledger.Record, Stores.GoodStore,
         SucceededBooking, IsWithdrawal, SpellsWithdrawal, GoodPaymentBooking;
    SameBooking(cmd);
    var booking := ReversalBooking(cmd.paymentID, cmd.transactionID, cmd.clearingKey, cmd.creditAccount, cmd.currency, cmd.amount);
    if ReversalOf(reversalType).None? || booking.Err? {
      return Err(Validation);
    }
    var reversal := ReversalOf(reversalType).value;
    SucceededBookingIsGood(cmd.paymentID, cmd.transactionID, cmd.clearingKey, cmd.creditAccount, cmd.currency, cmd.amount);
    r := RecordBooking(service, booking.value, ReversalLeg(reversal), DebitKind(reversal), CreditKind(reversal), now);
  }

  lemma NoWorkflow()
    ensures !IsWithdrawal("")
  {
  }

  /** Resolving the payment id first does not change the booking. */
  lemma SameBooking(cmd: PaymentCommand)
    ensures SucceededBooking(Resolve(cmd.paymentID, cmd.transactionID), cmd.transactionID, cmd.clearingKey, cmd.creditAccount,
                             cmd.currency, cmd.amount)
         == SucceededBooking(cmd.paymentID, cmd.transactionID, cmd.clearingKey, cmd.creditAccount, cmd.currency, cmd.amount)
  {
    hide Text.Trim, Text.Trimmed, Text.IsUpper, Text.Currency, ClearingAccount;
  }
}
