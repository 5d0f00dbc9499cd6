/** The builders of core/modules/ledger/application/service/payment_event_service.go, behind the gRPC server. */
module PaymentService {
  import opened Text
  import opened Postings
  import opened Payments

  datatype Payload =
    | OnWithdrawal(withdrawal: WithdrawalRequested)
    | OnSucceeded(succeeded: Succeeded)
    | OnFailed(failed: Failed)
    | OnReversed(reversed: Reversed)

  /** paymentWithdrawalRequestedLedgerEvents: reserve on the wallet, hold on the clearing (and fee) account */
  function WithdrawalEvents(feeAccount: string, w: WithdrawalRequested): Result<seq<Event>> {
    var paymentID := Resolve(w.paymentID, w.transactionID);
    var clearing := ClearingAccount(FirstNonEmpty(w.clearingKey, ProviderKey(w.provider)));
    var principal := HoldPair(Trim(w.debitAccount), clearing, LegID(paymentID, WithdrawalLeg), paymentID, w.currency,
                              -w.amount, w.requestedAt, ReserveWithdrawal, ReceiveWithdrawalHold);
    if w.feeAmount > 0 && Trim(feeAccount) != "" then
      Both(principal,
           HoldPair(Trim(w.debitAccount), Trim(feeAccount), LegID(paymentID, WithdrawalFeeLeg), paymentID, w.currency,
                    -w.feeAmount, w.requestedAt, ReserveWithdrawal, ReceiveWithdrawalHold))
    else principal
  }

  /** paymentSucceededLedgerEvents: from clearing to the wallet, and the fee from clearing to the fee account */
  function SucceededEvents(feeAccount: string, s: Succeeded, now: Time): Result<seq<Event>> {
    if IsWithdrawal(s.workflow) then Ok([]) else
      match SucceededBooking(Resolve(s.paymentID, s.transactionID), s.transactionID, s.clearingKey, s.creditAccount,
                             s.currency, s.amount)
      case Err(e) => Err(e)
      case Ok(b) =>
        var principal := BookingPair(LegID(Trim(b.paymentID), SucceededLeg), b, WithdrawFromIntent, DepositFromIntent,
                                     s.succeededAt, now);
        if s.feeAmount > 0 && Trim(feeAccount) != "" then
          var fee := b.(debit := ClearingAccount(s.clearingKey), credit := Trim(feeAccount), amount := s.feeAmount);
          Both(principal, BookingPair(LegID(b.paymentID, SucceededFeeLeg), fee, WithdrawFromIntent, DepositFromIntent,
                                      s.succeededAt, now))
        else principal
  }

  /** paymentFailedLedgerEvents: release what the withdrawal request reserved */
  function FailedEvents(feeAccount: string, f: Failed): Result<seq<Event>> {
    if !IsWithdrawal(f.workflow) then Ok([]) else
      var paymentID := Resolve(f.paymentID, f.transactionID);
      var principal := HoldPair(Trim(f.debitAccount), ClearingAccount(f.clearingKey), LegID(paymentID, WithdrawalFailedLeg),
                                paymentID, f.currency, f.amount, f.occurredAt, ReleaseWithdrawal, WithdrawReleasedHold);
      if f.feeAmount > 0 && Trim(feeAccount) != "" then
        Both(principal,
             HoldPair(Trim(f.debitAccount), Trim(feeAccount), LegID(paymentID, WithdrawalFeeFailedLeg), paymentID,
                      f.currency, f.feeAmount, f.occurredAt, ReleaseWithdrawal, WithdrawReleasedHold))
      else principal
  }

  function DebitKind(r: Reversal): PaymentKind { if r.Refund? then WithdrawFromRefund else WithdrawFromChargeback }
  function CreditKind(r: Reversal): PaymentKind { if r.Refund? then DepositFromRefund else DepositFromChargeback }
  function ReversalLeg(r: Reversal): LegKind { if r.Refund? then RefundedLeg else ChargebackLeg }
  function ReversalFeeLeg(r: Reversal): LegKind { if r.Refund? then RefundedFeeLeg else ChargebackFeeLeg }

  /** paymentReversedLedgerEvents, for a refund or a chargeback */
  function ReversedEvents(feeAccount: string, r: Reversed, now: Time): Result<seq<Event>> {
    match ReversalBooking(Resolve(r.paymentID, r.transactionID), r.transactionID, r.clearingKey, r.creditAccount,
                          r.currency, r.amount)
    case Err(e) => Err(e)
    case Ok(b) =>
      var principal := BookingPair(LegID(Trim(b.paymentID), ReversalLeg(r.reversal)), b, DebitKind(r.reversal),
                                   CreditKind(r.reversal), r.reversedAt, now);
      if r.feeAmount > 0 && Trim(feeAccount) != "" then
        var fee := b.(debit := Trim(feeAccount), credit := ClearingAccount(r.clearingKey), amount := r.feeAmount);
        Both(principal, BookingPair(LegID(b.paymentID, ReversalFeeLeg(r.reversal)), fee, DebitKind(r.reversal),
                                    CreditKind(r.reversal), r.reversedAt, now))
      else principal
  }

  function EventsOfPayload(feeAccount: string, p: Payload, now: Time): Result<seq<Event>> {
    match p
    case OnWithdrawal(w) => WithdrawalEvents(feeAccount, w)
    case OnSucceeded(s) => SucceededEvents(feeAccount, s, now)
    case OnFailed(f) => FailedEvents(feeAccount, f)
    case OnReversed(r) => ReversedEvents(feeAccount, r, now)
  }
}
