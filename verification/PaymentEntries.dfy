/**
 What a payment event books, said once for all four kinds: one principal entry and perhaps one fee entry,
 each an amount moved between two accounts. The builders of payment_event_service.go refine this.
 */
module PaymentEntries {
  import opened Text
  import opened Postings
  import opened Accounts
  import opened Ledger
  import opened Batches
  import opened Transfers
  import opened Money
  import opened Funds
  import opened Payments
  import opened PaymentService

  /** An amount moved between accounts a and b, as two legs of the kinds ka and kb. */
  datatype Entry = Entry(a: string, b: string, leg: LegKind, paymentID: string, currency: string, delta: int, at: Time,
                         ka: PaymentKind, kb: PaymentKind)

  function Legs(x: Entry): Result<seq<Event>> {
    LegPair(x.a, x.b, LegID(x.paymentID, x.leg), x.paymentID, x.currency, x.delta, x.at, x.ka, x.kb)
  }

  /** Withdrawals book nothing on success; other payments book nothing on failure. */
  predicate BooksLegs(p: Payload) {
    match p
    case OnWithdrawal(_) => true
    case OnSucceeded(s) => !SpellsWithdrawal(s.workflow)
    case OnFailed(f) => SpellsWithdrawal(f.workflow)
    case OnReversed(_) => true
  }

  /** The builders ask for the normalised workflow, which is to ask how it is spelt. */
  lemma WorkflowOf(p: Payload)
    ensures p.OnSucceeded? ==> (IsWithdrawal(p.succeeded.workflow) <==> SpellsWithdrawal(p.succeeded.workflow))
    ensures p.OnFailed? ==> (IsWithdrawal(p.failed.workflow) <==> SpellsWithdrawal(p.failed.workflow))
  {
    hide IsWithdrawal, SpellsWithdrawal;
    match p {
      case OnSucceeded(s) => WithdrawalBySpelling(s.workflow);
      case OnFailed(f) => WithdrawalBySpelling(f.workflow);
      case _ =>
    }
  }

  function FeeAmount(p: Payload): int {
    match p
    case OnWithdrawal(w) => w.feeAmount
    case OnSucceeded(s) => s.feeAmount
    case OnFailed(f) => f.feeAmount
    case OnReversed(r) => r.feeAmount
  }

  predicate BooksFee(feeAccount: string, p: Payload) { FeeAmount(p) > 0 && Trim(feeAccount) != "" }

  function TimeOr(at: Time, now: Time): Time { if at == ZERO_TIME then now else at }

  /** The clearing account a withdrawal request is held on: the one of its key, else the provider's. */
  function HoldAccount(w: WithdrawalRequested): (id: string)
    ensures IsID(id)
  {
    ClearingAccount(FirstNonEmpty(w.clearingKey, ProviderKey(w.provider)))
  }

  function Principal(p: Payload, now: Time): Entry {
    match p
    case OnWithdrawal(w) =>
      Entry(Trim(w.debitAccount), HoldAccount(w), WithdrawalLeg, Resolve(w.paymentID, w.transactionID), w.currency,
            -w.amount, w.requestedAt, ReserveWithdrawal, ReceiveWithdrawalHold)
    case OnSucceeded(s) =>
      Entry(ClearingAccount(s.clearingKey), Trim(s.creditAccount), SucceededLeg, Resolve(s.paymentID, s.transactionID),
            Currency(s.currency), -s.amount, TimeOr(s.succeededAt, now), WithdrawFromIntent, DepositFromIntent)
    case OnFailed(f) =>
      Entry(Trim(f.debitAccount), ClearingAccount(f.clearingKey), WithdrawalFailedLeg, Resolve(f.paymentID, f.transactionID),
            f.currency, f.amount, f.occurredAt, ReleaseWithdrawal, WithdrawReleasedHold)
    case OnReversed(r) =>
      Entry(Trim(r.creditAccount), ClearingAccount(r.clearingKey), ReversalLeg(r.reversal), Resolve(r.paymentID, r.transactionID),
            Currency(r.currency), -r.amount, TimeOr(r.reversedAt, now), DebitKind(r.reversal), CreditKind(r.reversal))
  }

  /** The fee moves between the paying side and the fee account. */
  function FeeEntry(feeAccount: string, p: Payload, now: Time): Entry {
    match p
    case OnWithdrawal(w) => Principal(p, now).(b := Trim(feeAccount), leg := WithdrawalFeeLeg, delta := -w.feeAmount)
    case OnSucceeded(s) => Principal(p, now).(b := Trim(feeAccount), leg := SucceededFeeLeg, delta := -s.feeAmount)
    case OnFailed(f) => Principal(p, now).(b := Trim(feeAccount), leg := WithdrawalFeeFailedLeg, delta := f.feeAmount)
    case OnReversed(r) =>
      Principal(p, now).(a := Trim(feeAccount), leg := ReversalFeeLeg(r.reversal), delta := -r.feeAmount)
  }

  lemma ClearingIsStable(key: string)
    ensures ClearingAccount(Lower(Trim(key))) == ClearingAccount(key)
    ensures ClearingAccount(Trim(key)) == ClearingAccount(key)
  {
    hide Text.Trim, Text.Trimmed;
  }

  /** A batch built from a payload is its principal legs, followed by its fee legs if it has a fee. */
  lemma PayloadIsEntries(feeAccount: string, p: Payload, now: Time)
    requires EventsOfPayload(feeAccount, p, now).Ok?
    ensures var events := EventsOfPayload(feeAccount, p, now).value;
            if !BooksLegs(p) then events == []
            else Legs(Principal(p, now)).Ok?
                 && if !BooksFee(feeAccount, p) then events == Legs(Principal(p, now)).value
                    else Legs(FeeEntry(feeAccount, p, now)).Ok?
                         && events == Legs(Principal(p, now)).value + Legs(FeeEntry(feeAccount, p, now)).value
  {
    hide Text.Trim, Text.Trimmed, LegPair, LegID, IsWithdrawal, SpellsWithdrawal, ClearingAccount, ProviderKey, Text.Currency, Text.Lower;
    WorkflowOf(p);
    match p {
      case OnSucceeded(s) => ClearingIsStable(s.clearingKey);
      case OnReversed(r) => ClearingIsStable(r.clearingKey);
      case _ =>
    }
  }

  /** By how much an entry moves account id in currency c: the signs are those of its kinds. */
  function EntryDelta(x: Entry, id: string, c: string): int {
    if c != Currency(x.currency) then 0 else
      (if id == Trim(x.a) then Signed(x.ka, Abs(x.delta)) else 0) + (if id == Trim(x.b) then Signed(x.kb, Abs(x.delta)) else 0)
  }

  /** The two kinds of an entry move money in opposite directions. */
  predicate Opposite(x: Entry) { Direction(x.ka) == -Direction(x.kb) }

  lemma EntriesAreOpposite(feeAccount: string, p: Payload, now: Time)
    ensures Opposite(Principal(p, now)) && Opposite(FeeEntry(feeAccount, p, now))
  {
    hide Text.Trim, Text.Trimmed, ClearingAccount, ProviderKey, Text.Currency;
  }

  /** A kind that debits its account and may not overdraw it. */
  predicate GuardedKind(k: PaymentKind) { k == ReserveWithdrawal }

  lemma OnlyReservationsAreGuarded(e: Event, tx: string, kind: PaymentKind, paymentID: string, other: string, currency: string,
                                   delta: int, at: Time)
    requires Preview(AccountOf(e), e.data) == Ok(LegPosting(tx, kind, paymentID, other, currency, delta, at)) && delta != 0
    ensures Guarded(e) <==> GuardedKind(kind)
  {
    hide Text.Trim, Text.Trimmed, Text.Currency, Ledger.AccountOf, Postings.Preview, Postings.WellFormed;
  }

  /** Everything about the two legs of one entry. */
  lemma EntryFacts(x: Entry)
    requires Opposite(x) && Legs(x).Ok?
    ensures var events := Legs(x).value;
            && |events| == 2 && Paired(events)
            && AccountsOf(events) == {Trim(x.a), Trim(x.b)} && "" !in AccountsOf(events)
            && Slot(events[0]) == (Trim(x.a), LegID(x.paymentID, x.leg))
            && Slot(events[1]) == (Trim(x.b), LegID(x.paymentID, x.leg))
            && Trim(x.a) != Trim(x.b) && x.delta != 0
            && CurrencyOf(events[0]) == Currency(x.currency)
            && (Guarded(events[0]) <==> GuardedKind(x.ka)) && (Guarded(events[1]) <==> GuardedKind(x.kb))
            && (forall c :: Delta(events[0], Trim(x.a), c) == EntryDelta(x, Trim(x.a), c))
            && forall id, c :: BatchDelta(events, id, c) == EntryDelta(x, id, c)
  {
    hide Text.Trim, Text.Trimmed, Text.Currency, LegPair, Paired, Postings.Preview, Postings.WellFormed, Ledger.AccountOf, LegID, Guarded,
         GuardedKind, Direction;
    var tx := LegID(x.paymentID, x.leg);
    LegPairIsMirrored(x.a, x.b, tx, x.paymentID, x.currency, x.delta, x.at, x.ka, x.kb);
    LegPairOk(x.a, x.b, tx, x.paymentID, x.currency, x.delta, x.at, x.ka, x.kb);
    TrimOfLegID(x.paymentID, x.leg);
    var events := Legs(x).value;
    OnlyReservationsAreGuarded(events[0], tx, x.ka, x.paymentID, x.b, x.currency, x.delta, x.at);
    OnlyReservationsAreGuarded(events[1], tx, x.kb, x.paymentID, x.a, x.currency, -x.delta, x.at);
    assert events == [events[0], events[1]];
    forall id, c ensures BatchDelta(events, id, c) == EntryDelta(x, id, c) { PairDelta(events[0], events[1], id, c); }
  }

  lemma PairDelta(e: Event, f: Event, id: string, c: string)
    ensures BatchDelta([e, f], id, c) == Delta(e, id, c) + Delta(f, id, c)
  {
    hide Delta;
    assert [e, f][..1] == [e] && [e][..0] == [];
    assert BatchDelta([e][..0], id, c) == 0;
    assert BatchDelta([e], id, c) == Delta(e, id, c);
  }

  lemma {:induction false} DeltaJoins(a: seq<Event>, b: seq<Event>, id: string, c: string)
    ensures BatchDelta(a + b, id, c) == BatchDelta(a, id, c) + BatchDelta(b, id, c)
  {
    hide Delta;
    if b == [] {
      assert a + b == a;
    } else {
      DeltaJoins(a, b[..|b| - 1], id, c);
      assert (a + b)[..|a + b| - 1] == a + b[..|b| - 1];
    }
  }

  // ---------------------------------------------------------------- whole payloads

  /** By how much a payment event moves account id in currency c. */
  function PayloadDelta(feeAccount: string, p: Payload, id: string, c: string): int {
    if !BooksLegs(p) then 0 else
      EntryDelta(Principal(p, ZERO_TIME), id, c)
      + if BooksFee(feeAccount, p) then EntryDelta(FeeEntry(feeAccount, p, ZERO_TIME), id, c) else 0
  }

  /** The accounts a payment event writes. */
  function PayloadAccounts(feeAccount: string, p: Payload): set<string> {
    if !BooksLegs(p) then {} else
      {Trim(Principal(p, ZERO_TIME).a), Trim(Principal(p, ZERO_TIME).b)}
      + if BooksFee(feeAccount, p)
        then {Trim(FeeEntry(feeAccount, p, ZERO_TIME).a), Trim(FeeEntry(feeAccount, p, ZERO_TIME).b)} else {}
  }

  /** The current time only dates an entry. */
  lemma EntriesOverTime(feeAccount: string, p: Payload, s: Time, t: Time)
    ensures Principal(p, s).(at := t) == Principal(p, t).(at := t)
    ensures FeeEntry(feeAccount, p, s).(at := t) == FeeEntry(feeAccount, p, t).(at := t)
  {
    hide Text.Trim, Text.Trimmed, ClearingAccount, ProviderKey, Text.Currency, Resolve;
  }

  /** A batch of mirrored pairs, small, with proper account ids, booked under distinct ids. */
  ghost predicate WellBuilt(events: seq<Event>) {
    Paired(events) && |events| <= 4 && "" !in AccountsOf(events) && Distinct(events)
  }

  /** What the batch of a payload is and does. */
  lemma PayloadFacts(feeAccount: string, p: Payload, now: Time)
    requires EventsOfPayload(feeAccount, p, now).Ok?
    ensures var events := EventsOfPayload(feeAccount, p, now).value;
            && WellBuilt(events)
            && (events == [] <==> !BooksLegs(p))
            && AccountsOf(events) == PayloadAccounts(feeAccount, p)
            && (forall id, c :: BatchDelta(events, id, c) == PayloadDelta(feeAccount, p, id, c))
            && (!p.OnWithdrawal? ==> forall e | e in events :: !Guarded(e))
  {
    hide Text.Trim, Text.Trimmed, EventsOfPayload, Principal, FeeEntry, Legs, Guarded, BooksLegs, BooksFee, WellBuilt,
         Opposite, Ledger.AccountsOf, EntryDelta, BatchDelta, Unguarded;
    PayloadIsEntries(feeAccount, p, now);
    EntriesAreOpposite(feeAccount, p, now);
    EntryKinds(feeAccount, p, now);
    EntriesOverTime(feeAccount, p, now, ZERO_TIME);
    if !BooksLegs(p) {
      NothingIsWellBuilt();
      assert forall id, c :: BatchDelta([], id, c) == 0 by { NothingMoves(); }
    } else {
      var x := Principal(p, now);
      OneEntry(x);
      EntryOverTime(x, Principal(p, ZERO_TIME));
      if BooksFee(feeAccount, p) {
        var y := FeeEntry(feeAccount, p, now);
        EntryOverTime(y, FeeEntry(feeAccount, p, ZERO_TIME));
        JoinedEntries(x, y);
      } else {
        assert EventsOfPayload(feeAccount, p, now).value == Legs(x).value;
      }
    }
  }

  lemma EntryOverTime(x: Entry, y: Entry)
    requires x.(at := ZERO_TIME) == y.(at := ZERO_TIME)
    ensures x.a == y.a && x.b == y.b && forall id, c :: EntryDelta(x, id, c) == EntryDelta(y, id, c)
  {
    hide Text.Trim, Text.Trimmed, Text.Currency;
  }

  lemma EntryKinds(feeAccount: string, p: Payload, now: Time)
    ensures FeeEntry(feeAccount, p, now).leg != Principal(p, now).leg
    ensures !p.OnWithdrawal? ==>
              Unguarded(Principal(p, now)) && Unguarded(FeeEntry(feeAccount, p, now))
  {
    hide Text.Trim, Text.Trimmed, ClearingAccount, ProviderKey, Text.Currency, Resolve;
  }

  lemma NothingIsWellBuilt()
    ensures WellBuilt([]) && AccountsOf([]) == {}
  {
  }

  lemma NothingMoves()
    ensures forall id, c :: BatchDelta([], id, c) == 0
  {
  }

  /** No leg of the entry is a guarded debit. */
  predicate Unguarded(x: Entry) { !GuardedKind(x.ka) && !GuardedKind(x.kb) }

  lemma OneEntry(x: Entry)
    requires Opposite(x) && Legs(x).Ok?
    ensures var events := Legs(x).value;
            && events != [] && WellBuilt(events) && AccountsOf(events) == {Trim(x.a), Trim(x.b)}
            && (forall id, c :: BatchDelta(events, id, c) == EntryDelta(x, id, c))
            && (Unguarded(x) ==> forall e | e in events :: !Guarded(e))
  {
    hide Text.Trim, Text.Trimmed, Legs, Paired, Guarded, Slot, LegID, Opposite, Ledger.AccountsOf, BatchDelta, EntryDelta, CurrencyOf,
         GuardedKind;
    EntryFacts(x);
  }

  /** Two entries of one payment under different leg kinds, one after the other. */
  lemma JoinedEntries(x: Entry, y: Entry)
    requires Opposite(x) && Opposite(y) && Legs(x).Ok? && Legs(y).Ok? && x.leg != y.leg
    ensures var events := Legs(x).value + Legs(y).value;
            && WellBuilt(events) && AccountsOf(events) == {Trim(x.a), Trim(x.b), Trim(y.a), Trim(y.b)}
            && (forall id, c :: BatchDelta(events, id, c) == EntryDelta(x, id, c) + EntryDelta(y, id, c))
            && events != [] && (Unguarded(x) && Unguarded(y) ==> forall e | e in events :: !Guarded(e))
  {
    hide Text.Trim, Text.Trimmed, Legs, Paired, Guarded, Slot, LegID, Opposite, Ledger.AccountsOf, BatchDelta, EntryDelta, CurrencyOf,
         GuardedKind;
    var a, b := Legs(x).value, Legs(y).value;
    EntryFacts(x);
    EntryFacts(y);
    PairedJoins(a, b);
    AccountsOfJoin(a, b);
    LegIDInjective(x.paymentID, x.leg, y.paymentID, y.leg);
    forall i, j | 0 <= i < j < 4 ensures Slot((a + b)[i]) != Slot((a + b)[j]) {
      if j < 2 { assert Slot(a[i]) != Slot(a[j]); }
      else if i < 2 { assert Slot(a[i]).1 != Slot(b[j - 2]).1; }
      else { assert Slot(b[i - 2]) != Slot(b[j - 2]); }
    }
    forall id, c ensures BatchDelta(a + b, id, c) == EntryDelta(x, id, c) + EntryDelta(y, id, c) { DeltaJoins(a, b, id, c); }
  }
}
