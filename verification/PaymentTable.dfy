/**
 What each payment event leaves on the ledger, written out: which accounts, which transaction ids, which reference types
 and amounts. And exactly which payment events are accepted.
 */
module PaymentTable {
  import opened Text
  import opened Postings
  import opened Accounts
  import opened Ledger
  import opened Money
  import opened Payments
  import opened PaymentService
  import opened PaymentEntries
  import opened PaymentFacts

  /** The payment id, or the transaction id where there is none. */
  function NameOf(paymentID: string, transactionID: string): string {
    if Trim(paymentID) != "" then Trim(paymentID) else Trim(transactionID)
  }

  function Clearing(key: string): string { "ledger:clearing:" + Lower(Trim(key)) }

  /** Where a withdrawal is held. */
  function Holding(w: WithdrawalRequested): string {
    if Trim(w.clearingKey) != "" then "ledger:clearing:" + Lower(Trim(w.clearingKey))
    else if Trim(w.provider) != "" then "ledger:clearing:provider:" + Lower(Trim(w.provider))
    else "ledger:clearing:"
  }

  /** One amount from the first account to the second, under one transaction id. */
  function Move(from: string, to: string, tx: string, out: PaymentKind, into: PaymentKind, id: string, c: string, amount: int, at: Time)
    : (places: seq<(string, Posting)>)
    ensures |places| == 2
  {
    [(from, Posting(tx, Payment(out), id, to, c, -amount, at)), (to, Posting(tx, Payment(into), id, from, c, amount, at))]
  }

  /** The same two postings, the receiving side first. */
  function MoveBack(to: string, from: string, tx: string, into: PaymentKind, out: PaymentKind, id: string, c: string, amount: int, at: Time)
    : (places: seq<(string, Posting)>)
    ensures |places| == 2
  {
    [(to, Posting(tx, Payment(into), id, from, c, amount, at)), (from, Posting(tx, Payment(out), id, to, c, -amount, at))]
  }

  /** The postings of a payment event, account by account, in order. */
  function Leaves(feeAccount: string, p: Payload, now: Time): seq<(string, Posting)> {
    var fee, withFee := Trim(feeAccount), FeeAmount(p) > 0 && Trim(feeAccount) != "";
    match p
    case OnWithdrawal(w) =>
      var id, wallet, c := NameOf(w.paymentID, w.transactionID), Trim(w.debitAccount), Currency(w.currency);
      Move(wallet, Holding(w), "payment:" + id + ":withdrawal:principal", ReserveWithdrawal, ReceiveWithdrawalHold, id, c,
           Abs(w.amount), w.requestedAt)
      + (if !withFee then []
         else Move(wallet, fee, "payment:" + id + ":withdrawal:fee", ReserveWithdrawal, ReceiveWithdrawalHold, id, c, w.feeAmount,
                   w.requestedAt))
    case OnFailed(f) =>
      var id, wallet, c := NameOf(f.paymentID, f.transactionID), Trim(f.debitAccount), Currency(f.currency);
      if !SpellsWithdrawal(f.workflow) then [] else
        MoveBack(wallet, Clearing(f.clearingKey), "payment:" + id + ":withdrawal:principal:failed", ReleaseWithdrawal,
                 WithdrawReleasedHold, id, c, Abs(f.amount), f.occurredAt)
        + (if !withFee then []
           else MoveBack(wallet, fee, "payment:" + id + ":withdrawal:fee:failed", ReleaseWithdrawal, WithdrawReleasedHold, id, c,
                         f.feeAmount, f.occurredAt))
    case OnSucceeded(s) =>
      var id, wallet, c := NameOf(s.paymentID, s.transactionID), Trim(s.creditAccount), Currency(s.currency);
      var at := if s.succeededAt == ZERO_TIME then now else s.succeededAt;
      if SpellsWithdrawal(s.workflow) then [] else
        Move(Clearing(s.clearingKey), wallet, "payment:" + id + ":succeeded", WithdrawFromIntent, DepositFromIntent, id, c, s.amount, at)
        + (if !withFee then []
           else Move(Clearing(s.clearingKey), fee, "payment:" + id + ":succeeded:fee", WithdrawFromIntent, DepositFromIntent, id, c,
                     s.feeAmount, at))
    case OnReversed(r) =>
      var id, wallet, c := NameOf(r.paymentID, r.transactionID), Trim(r.creditAccount), Currency(r.currency);
      var at := if r.reversedAt == ZERO_TIME then now else r.reversedAt;
      match r.reversal
      case Refund =>
        Move(wallet, Clearing(r.clearingKey), "payment:" + id + ":refunded", WithdrawFromRefund, DepositFromRefund, id, c, r.amount, at)
        + (if !withFee then []
           else Move(fee, Clearing(r.clearingKey), "payment:" + id + ":refunded:fee", WithdrawFromRefund, DepositFromRefund, id, c,
                     r.feeAmount, at))
      case Chargeback =>
        Move(wallet, Clearing(r.clearingKey), "payment:" + id + ":chargeback", WithdrawFromChargeback, DepositFromChargeback, id, c,
             r.amount, at)
        + (if !withFee then []
           else Move(fee, Clearing(r.clearingKey), "payment:" + id + ":chargeback:fee", WithdrawFromChargeback, DepositFromChargeback,
                     id, c, r.feeAmount, at))
  }

  lemma HoldingIsHold(w: WithdrawalRequested)
    ensures HoldAccount(w) == Holding(w)
    ensures Trim(Holding(w)) == Holding(w) != ""
  {
    hide Text.Trim, Text.Trimmed, Text.Lower, Text.IsLower;
    ClearingIsStable(w.clearingKey);
    TrimOfID(HoldAccount(w));
    TrimBlank();
    if Trim(w.clearingKey) != "" {
      assert FirstNonEmpty(w.clearingKey, ProviderKey(w.provider)) == Trim(w.clearingKey);
    } else if Trim(w.provider) != "" {
      ProviderKeyReads(w.provider);
      var key := "provider:" + Lower(Trim(w.provider));
      assert FirstNonEmpty(w.clearingKey, ProviderKey(w.provider)) == key;
      assert Trim(key) == key && Lower(key) == key;
      assert "ledger:clearing:" + key == "ledger:clearing:provider:" + Lower(Trim(w.provider));
    } else {
      assert ProviderKey(w.provider) == "";
      assert FirstNonEmpty(w.clearingKey, "") == "";
    }
  }

  lemma ProviderKeyReads(provider: string)
    requires Trim(provider) != ""
    ensures ProviderKey(provider) == "provider:" + Lower(Trim(provider)) != ""
    ensures Trim(ProviderKey(provider)) == ProviderKey(provider)
    ensures Lower("provider:" + Lower(Trim(provider))) == "provider:" + Lower(Trim(provider))
  {
    var p := Lower(Trim(provider));
    assert p != "";
    hide Text.Trim, Text.Lower;
    JoinTrimmed("provider:", p);
    LowerJoins(p);
  }

  lemma LowerJoins(p: string)
    requires IsLower(p)
    ensures IsLower("provider:" + p)
  {
    var s := "provider:" + p;
    assert s[9..] == p;
    assert IsLower(s[8..]) by { assert s[8..][1..] == s[9..]; }
    assert IsLower(s[7..]) by { assert s[7..][1..] == s[8..]; }
    assert IsLower(s[6..]) by { assert s[6..][1..] == s[7..]; }
    assert IsLower(s[5..]) by { assert s[5..][1..] == s[6..]; }
    assert IsLower(s[4..]) by { assert s[4..][1..] == s[5..]; }
    assert IsLower(s[3..]) by { assert s[3..][1..] == s[4..]; }
    assert IsLower(s[2..]) by { assert s[2..][1..] == s[3..]; }
    assert IsLower(s[1..]) by { assert s[1..][1..] == s[2..]; }
  }

  /** The two postings of an entry. */
  lemma EntryLeaves(x: Entry)
    requires Opposite(x) && Legs(x).Ok?
    ensures var events, tx := Legs(x).value, LegID(x.paymentID, x.leg);
            && |events| == 2 && AccountOf(events[0]) == Trim(x.a) && AccountOf(events[1]) == Trim(x.b)
            && Preview(Trim(x.a), events[0].data)
               == Ok(Posting(tx, Payment(x.ka), Trim(x.paymentID), Trim(x.b), Currency(x.currency), Signed(x.ka, Abs(x.delta)), x.at))
            && Preview(Trim(x.b), events[1].data)
               == Ok(Posting(tx, Payment(x.kb), Trim(x.paymentID), Trim(x.a), Currency(x.currency), Signed(x.kb, Abs(x.delta)), x.at))
  {
    hide Text.Trim, Text.Trimmed, Text.Currency, LegPair, Paired, Postings.Preview, Postings.WellFormed, Ledger.AccountOf, LegID, Direction;
    LegPairIsMirrored(x.a, x.b, LegID(x.paymentID, x.leg), x.paymentID, x.currency, x.delta, x.at, x.ka, x.kb);
    TrimOfLegID(x.paymentID, x.leg);
  }

  /** An event leaves this posting on this account. */
  predicate EventLeaves(e: Event, place: (string, Posting)) {
    AccountOf(e) == place.0 && Preview(place.0, e.data) == Ok(place.1)
  }

  /** Event by event, the batch leaves these postings. */
  predicate BatchLeaves(events: seq<Event>, places: seq<(string, Posting)>) {
    |events| == |places| && forall i | 0 <= i < |events| :: EventLeaves(events[i], places[i])
  }

  lemma LeavesJoin(a: seq<Event>, b: seq<Event>, x: seq<(string, Posting)>, y: seq<(string, Posting)>)
    requires BatchLeaves(a, x) && BatchLeaves(b, y)
    ensures BatchLeaves(a + b, x + y)
  {
    hide EventLeaves;
  }

  /** An entry from its first account to its second, or back, leaves the two postings of that move. */
  lemma EntryIsMove(x: Entry, tx: string)
    requires Opposite(x) && Legs(x).Ok? && Trim(x.paymentID) == x.paymentID && tx == LegID(x.paymentID, x.leg)
    ensures Direction(x.ka) == -1 ==>
              BatchLeaves(Legs(x).value, Move(Trim(x.a), Trim(x.b), tx, x.ka, x.kb, x.paymentID, Currency(x.currency), Abs(x.delta), x.at))
    ensures Direction(x.ka) == 1 ==>
              BatchLeaves(Legs(x).value, MoveBack(Trim(x.a), Trim(x.b), tx, x.ka, x.kb, x.paymentID, Currency(x.currency), Abs(x.delta), x.at))
  {
    hide Legs, Text.Trim, Text.Trimmed, Text.Currency, Postings.Preview, Postings.WellFormed, Ledger.AccountOf, LegID, Direction;
    EntryLeaves(x);
  }

  lemma PrincipalLeaves(p: Payload, now: Time)
    requires BooksLegs(p) && Legs(Principal(p, now)).Ok?
    requires p.OnSucceeded? ==> p.succeeded.amount > 0
    requires p.OnReversed? ==> p.reversed.amount > 0
    ensures |Leaves("", p, now)| == 2 && BatchLeaves(Legs(Principal(p, now)).value, Leaves("", p, now))
  {
    hide Legs, Text.Trim, Text.Trimmed, Text.Currency, Text.Lower, HoldAccount, Holding, IsWithdrawal, SpellsWithdrawal, BatchLeaves,
         Move, MoveBack;
    TrimBlank();
    var x := Principal(p, now);
    assert forall m: seq<(string, Posting)> :: m + [] == m;
    EntriesAreOpposite("", p, now);
    EntryIsMove(x, LegID(x.paymentID, x.leg));
    match p {
      case OnWithdrawal(w) => HoldingIsHold(w);
      case OnSucceeded(s) => TrimOfID(ClearingAccount(s.clearingKey));
      case OnFailed(f) => TrimOfID(ClearingAccount(f.clearingKey));
      case OnReversed(r) => TrimOfID(ClearingAccount(r.clearingKey));
    }
  }

  lemma FeeLeaves(feeAccount: string, p: Payload, now: Time)
    requires BooksLegs(p) && BooksFee(feeAccount, p) && Legs(FeeEntry(feeAccount, p, now)).Ok?
    ensures var all := Leaves(feeAccount, p, now);
            && |all| == 4 && all[..2] == Leaves("", p, now) && BatchLeaves(Legs(FeeEntry(feeAccount, p, now)).value, all[2..])
  {
    hide Legs, Text.Trim, Text.Trimmed, Text.Currency, Text.Lower, HoldAccount, Holding, IsWithdrawal, SpellsWithdrawal, BatchLeaves,
         Move, MoveBack;
    TrimBlank();
    var x := FeeEntry(feeAccount, p, now);
    EntriesAreOpposite(feeAccount, p, now);
    EntryIsMove(x, LegID(x.paymentID, x.leg));
    match p {
      case OnWithdrawal(w) => HoldingIsHold(w);
      case OnSucceeded(s) => TrimOfID(ClearingAccount(s.clearingKey));
      case OnFailed(f) => TrimOfID(ClearingAccount(f.clearingKey));
      case OnReversed(r) => TrimOfID(ClearingAccount(r.clearingKey));
    }
  }

  /** What a batch built from a payment event leaves is what the table says. */
  lemma PayloadLeaves(feeAccount: string, p: Payload, now: Time)
    requires EventsOfPayload(feeAccount, p, now).Ok?
    ensures BatchLeaves(EventsOfPayload(feeAccount, p, now).value, Leaves(feeAccount, p, now))
  {
    hide EventsOfPayload, Legs, Principal, FeeEntry, Text.Trim, Text.Trimmed, BatchLeaves, SpellsWithdrawal, IsWithdrawal;
    PayloadIsEntries(feeAccount, p, now);
    BookedAmountsArePositive(feeAccount, p, now);
    NothingLeaves(feeAccount, p, now);
    if BooksLegs(p) {
      PrincipalLeaves(p, now);
      if BooksFee(feeAccount, p) {
        FeeLeaves(feeAccount, p, now);
        var all := Leaves(feeAccount, p, now);
        LeavesJoin(Legs(Principal(p, now)).value, Legs(FeeEntry(feeAccount, p, now)).value, all[..2], all[2..]);
        assert all == all[..2] + all[2..];
      }
    }
  }

  lemma NothingLeaves(feeAccount: string, p: Payload, now: Time)
    ensures BatchLeaves([], [])
    ensures !BooksLegs(p) ==> Leaves(feeAccount, p, now) == []
    ensures !BooksFee(feeAccount, p) ==> Leaves(feeAccount, p, now) == Leaves("", p, now)
  {
    hide Text.Trimmed, SpellsWithdrawal, Text.Lower, Text.Currency, Holding;
    assert Trim("") == "" by { TrimBlank(); }
  }

  // ---------------------------------------------------------------- which payment events are accepted

  /** The payment events the service turns into a batch, in terms of their fields. */
  predicate Accepted(feeAccount: string, p: Payload, now: Time) {
    var fee, withFee := Trim(feeAccount), FeeAmount(p) > 0 && Trim(feeAccount) != "";
    match p
    case OnWithdrawal(w) =>
      && NameOf(w.paymentID, w.transactionID) != "" && Trim(w.debitAccount) != "" && Trim(w.debitAccount) != Holding(w)
      && Trim(w.currency) != "" && w.amount != 0 && w.requestedAt != ZERO_TIME && (withFee ==> fee != Trim(w.debitAccount))
    case OnFailed(f) =>
      SpellsWithdrawal(f.workflow) ==>
        && NameOf(f.paymentID, f.transactionID) != "" && Trim(f.debitAccount) != "" && Trim(f.debitAccount) != Clearing(f.clearingKey)
        && Trim(f.currency) != "" && f.amount != 0 && f.occurredAt != ZERO_TIME && (withFee ==> fee != Trim(f.debitAccount))
    case OnSucceeded(s) =>
      !SpellsWithdrawal(s.workflow) ==>
        && NameOf(s.paymentID, s.transactionID) != "" && Trim(s.clearingKey) != "" && Trim(s.creditAccount) != ""
        && Trim(s.creditAccount) != Clearing(s.clearingKey) && Trim(s.currency) != "" && s.amount > 0
        && (s.succeededAt != ZERO_TIME || now != ZERO_TIME) && (withFee ==> fee != Clearing(s.clearingKey))
    case OnReversed(r) =>
      && NameOf(r.paymentID, r.transactionID) != "" && Trim(r.clearingKey) != "" && Trim(r.creditAccount) != ""
      && Trim(r.creditAccount) != Clearing(r.clearingKey) && Trim(r.currency) != "" && r.amount > 0
      && (r.reversedAt != ZERO_TIME || now != ZERO_TIME) && (withFee ==> fee != Clearing(r.clearingKey))
  }

  lemma EntryOk(x: Entry)
    requires Trim(x.paymentID) == x.paymentID
    ensures Legs(x).Ok? <==>
              && Trim(x.a) != "" && Trim(x.b) != "" && Trim(x.a) != Trim(x.b) && x.paymentID != "" && Currency(x.currency) != ""
              && x.delta != 0 && x.at != ZERO_TIME
  {
    hide Text.Trim, Text.Trimmed, Text.Currency, LegPair, LegID;
    TrimOfLegID(x.paymentID, x.leg);
    LegIDNotBlank(x.paymentID, x.leg);
    LegPairOk(x.a, x.b, LegID(x.paymentID, x.leg), x.paymentID, x.currency, x.delta, x.at, x.ka, x.kb);
  }

  /** What a booking of a success or reversal asks for beyond what its legs do. */
  predicate BookingAsks(p: Payload) {
    match p
    case OnSucceeded(s) => Trim(s.clearingKey) != "" && s.amount > 0
    case OnReversed(r) => Trim(r.clearingKey) != "" && r.amount > 0
    case _ => true
  }

  /** A batch is built if and only if its booking is accepted and each of its entries is. */
  lemma BuildsByEntries(feeAccount: string, p: Payload, now: Time)
    requires BooksLegs(p)
    ensures EventsOfPayload(feeAccount, p, now).Ok? <==>
              BookingAsks(p) && Legs(Principal(p, now)).Ok? && (BooksFee(feeAccount, p) ==> Legs(FeeEntry(feeAccount, p, now)).Ok?)
  {
    hide Text.Trim, Text.Trimmed, LegPair, LegID, IsWithdrawal, SpellsWithdrawal, ClearingAccount, ProviderKey, Text.Currency, Text.Lower;
    WorkflowOf(p);
    EntryOk(Principal(p, now));
    match p {
      case OnSucceeded(s) =>
        ClearingIsStable(s.clearingKey);
        TrimOfID(ClearingAccount(s.clearingKey));
        LowerNotBlank(s.clearingKey);
      case OnReversed(r) =>
        ClearingIsStable(r.clearingKey);
        TrimOfID(ClearingAccount(r.clearingKey));
        LowerNotBlank(r.clearingKey);
      case _ =>
    }
  }

  lemma LowerNotBlank(key: string)
    ensures Lower(Trim(key)) == "" <==> Trim(key) == ""
  {
    hide Text.Trim;
  }

  /** The service builds a batch from a payment event exactly when the event is accepted. */
  lemma AcceptedExactly(feeAccount: string, p: Payload, now: Time)
    ensures EventsOfPayload(feeAccount, p, now).Ok? <==> Accepted(feeAccount, p, now)
  {
    hide Text.Trim, Text.Trimmed, Legs, IsWithdrawal, SpellsWithdrawal, Text.Lower, Text.Currency, EventsOfPayload, Holding, HoldAccount,
         ProviderKey;
    if BooksLegs(p) {
      BuildsByEntries(feeAccount, p, now);
      EntryOk(Principal(p, now));
      EntryOk(FeeEntry(feeAccount, p, now));
      match p {
        case OnWithdrawal(w) => HoldingIsHold(w); CurrencyBlank(w.currency);
        case OnSucceeded(s) => TrimOfID(ClearingAccount(s.clearingKey)); CurrencyBlank(s.currency);
        case OnFailed(f) => TrimOfID(ClearingAccount(f.clearingKey)); CurrencyBlank(f.currency);
        case OnReversed(r) => TrimOfID(ClearingAccount(r.clearingKey)); CurrencyBlank(r.currency);
      }
    } else {
      NothingBuilds(feeAccount, p, now);
    }
  }

  lemma NothingBuilds(feeAccount: string, p: Payload, now: Time)
    requires !BooksLegs(p)
    ensures EventsOfPayload(feeAccount, p, now).Ok? && Accepted(feeAccount, p, now)
  {
    hide Text.Trim, Text.Trimmed, IsWithdrawal, SpellsWithdrawal, Text.Lower;
    WorkflowOf(p);
  }

  // ---------------------------------------------------------------- providers

  /** Two withdrawals without a clearing key are held on one account exactly when their providers agree up to case and white space. */
  lemma HeldPerProvider(v: WithdrawalRequested, w: WithdrawalRequested)
    requires Trim(v.clearingKey) == "" && Trim(w.clearingKey) == ""
    ensures HoldAccount(v) == HoldAccount(w) <==> SameText(Trim(v.provider), Trim(w.provider))
  {
    hide Text.Trim, Text.Trimmed, HoldAccount, SameText;
    HoldingIsHold(v);
    HoldingIsHold(w);
    LowerExactly(Trim(v.provider), Trim(w.provider));
    var front := "ledger:clearing:provider:";
    var a, b := Lower(Trim(v.provider)), Lower(Trim(w.provider));
    assert (front + a)[|front|..] == a && (front + b)[|front|..] == b;
    assert |"ledger:clearing:"| < |front|;
  }

  /** Two clearing keys are one account exactly when they agree up to case and white space. */
  lemma ClearingPerKey(k: string, l: string)
    ensures ClearingAccount(k) == ClearingAccount(l) <==> SameText(Trim(k), Trim(l))
    ensures ClearingAccount(k) == Clearing(k)
  {
    hide Text.Trim, Text.Trimmed, SameText;
    LowerExactly(Trim(k), Trim(l));
    var front := "ledger:clearing:";
    var a, b := Lower(Trim(k)), Lower(Trim(l));
    assert (front + a)[|front|..] == a && (front + b)[|front|..] == b;
  }
}
