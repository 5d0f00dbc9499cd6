/** What the payment batches do to the ledger: they are double entry, they undo each other, and they land once. */
module PaymentFacts {
  import opened Text
  import opened Postings
  import opened Accounts
  import opened Stores
  import opened Ledger
  import opened Batches
  import opened Transfers
  import opened Runs
  import opened Money
  import opened Funds
  import opened Payments
  import opened PaymentService
  import opened PaymentEntries
  import PaymentConsumer

  /** The two ways a payment event reaches the ledger. */
  datatype Path = Grpc | Kafka(aggregateID: string)

  function Delivered(path: Path, feeAccount: string, p: Payload, now: Time): Result<seq<Event>> {
    match path
    case Grpc => EventsOfPayload(feeAccount, p, now)
    case Kafka(aggregateID) => PaymentConsumer.EventsOfMessage(feeAccount, aggregateID, p, now)
  }

  /** The payload whose batch is delivered: on the Kafka path its payment id may have been filled in. */
  function Resolved(path: Path, p: Payload): Payload {
    match path
    case Grpc => p
    case Kafka(aggregateID) =>
      if PaymentConsumer.SamePaymentID(aggregateID, p) then p
      else PaymentConsumer.WithPaymentID(p, PaymentConsumer.ResolveID(aggregateID, PaymentConsumer.IDsOf(p).0, PaymentConsumer.IDsOf(p).1))
  }

  lemma DeliveredIsPayload(path: Path, feeAccount: string, p: Payload, now: Time)
    ensures Delivered(path, feeAccount, p, now) == EventsOfPayload(feeAccount, Resolved(path, p), now)
    ensures Resolved(path, p).OnWithdrawal? <==> p.OnWithdrawal?
  {
    hide EventsOfPayload, PaymentConsumer.EventsOfMessage, Text.Trim, Text.Trimmed;
    if path.Kafka? {
      PaymentConsumer.MessageIsPayload(feeAccount, path.aggregateID, p, now);
      if PaymentConsumer.SamePaymentID(path.aggregateID, p) {
        PaymentConsumer.PathsAgree(feeAccount, path.aggregateID, p, now);
      } else {
        PaymentConsumer.SamePaymentIDExactly(path.aggregateID, p);
      }
    }
  }

  /**
   Every batch a payment event is turned into, on either path and for amounts of either sign, is double
   entry: its legs come in mirrored pairs and so sum to zero in every currency.
   */
  lemma PaymentsAreDoubleEntry(path: Path, feeAccount: string, p: Payload, now: Time)
    requires Delivered(path, feeAccount, p, now).Ok?
    ensures var events := Delivered(path, feeAccount, p, now).value;
            WellBuilt(events) && DoubleEntry(Batch(events)) && forall c :: BatchTotal(events, c) == 0
  {
    hide Delivered, EventsOfPayload, Resolved, Paired, Ledger.AccountsOf, Distinct, PayloadAccounts, PayloadDelta, BooksLegs;
    DeliveredIsPayload(path, feeAccount, p, now);
    PayloadFacts(feeAccount, Resolved(path, p), now);
    var events := Delivered(path, feeAccount, p, now).value;
    forall c ensures BatchTotal(events, c) == 0 { PairedSumsToZero(events, c); }
  }

  // ---------------------------------------------------------------- what a payment moves

  function FeeBooked(feeAccount: string, p: Payload): int { if BooksFee(feeAccount, p) then FeeAmount(p) else 0 }

  /**
   Who pays whom. A withdrawal request takes amount and fee from the wallet, to be held on the clearing and the fee
   account; its failure gives them back. A success pays the wallet and the fee account out of clearing; a refund or
   chargeback takes both back into clearing.
   */
  function PayloadMoves(feeAccount: string, p: Payload, id: string, c: string): int {
    var fee := FeeBooked(feeAccount, p);
    match p
    case OnWithdrawal(w) =>
      if c != Currency(w.currency) then 0 else
        (if id == Trim(w.debitAccount) then -(Abs(w.amount) + fee) else 0)
        + (if id == HoldAccount(w) then Abs(w.amount) else 0)
        + (if id == Trim(feeAccount) then fee else 0)
    case OnFailed(f) =>
      if c != Currency(f.currency) || !SpellsWithdrawal(f.workflow) then 0 else
        (if id == Trim(f.debitAccount) then Abs(f.amount) + fee else 0)
        - (if id == ClearingAccount(f.clearingKey) then Abs(f.amount) else 0)
        - (if id == Trim(feeAccount) then fee else 0)
    case OnSucceeded(s) =>
      if c != Currency(s.currency) || SpellsWithdrawal(s.workflow) then 0 else
        (if id == Trim(s.creditAccount) then s.amount else 0)
        - (if id == ClearingAccount(s.clearingKey) then s.amount + fee else 0)
        + (if id == Trim(feeAccount) then fee else 0)
    case OnReversed(r) =>
      if c != Currency(r.currency) then 0 else
        (if id == ClearingAccount(r.clearingKey) then r.amount + fee else 0)
        - (if id == Trim(r.creditAccount) then r.amount else 0)
        - (if id == Trim(feeAccount) then fee else 0)
  }

  /** The batch of a payment event moves every account as stated, up and down. */
  lemma PayloadMovesExactly(feeAccount: string, p: Payload, now: Time, id: string, c: string)
    requires EventsOfPayload(feeAccount, p, now).Ok?
    ensures BatchDelta(EventsOfPayload(feeAccount, p, now).value, id, c) == PayloadMoves(feeAccount, p, id, c)
  {
    hide EventsOfPayload, BatchDelta, WellBuilt, Ledger.AccountsOf, Guarded, PayloadAccounts, PayloadDelta, PayloadMoves, IsWithdrawal, SpellsWithdrawal;
    PayloadFacts(feeAccount, p, now);
    BookedAmountsArePositive(feeAccount, p, now);
    DeltaIsMoves(feeAccount, p, id, c);
  }

  lemma DeltaIsMoves(feeAccount: string, p: Payload, id: string, c: string)
    requires p.OnSucceeded? && !SpellsWithdrawal(p.succeeded.workflow) ==> p.succeeded.amount > 0
    requires p.OnReversed? ==> p.reversed.amount > 0
    ensures PayloadDelta(feeAccount, p, id, c) == PayloadMoves(feeAccount, p, id, c)
  {
    hide Text.Trim, Text.Trimmed, Text.Currency, Text.IsUpper, ClearingAccount, HoldAccount, Resolve, IsWithdrawal, SpellsWithdrawal,
         EntryDelta, BooksFee;
    ClearingIsTrimmed(p);
    FeeBookedIs(feeAccount, p);
    PrincipalMoves(p, id, c);
    FeeMoves(feeAccount, p, id, c);
  }

  lemma FeeBookedIs(feeAccount: string, p: Payload)
    ensures FeeBooked(feeAccount, p) == if BooksFee(feeAccount, p) then FeeAmount(p) else 0
    ensures BooksFee(feeAccount, p) ==> FeeAmount(p) > 0
  {
  }

  /** What the principal moves, by the signs of its kinds. */
  lemma PrincipalMoves(p: Payload, id: string, c: string)
    ensures var x := Principal(p, ZERO_TIME);
            EntryDelta(x, id, c) ==
            if c != Currency(x.currency) then 0
            else if p.OnFailed? then (if id == Trim(x.a) then Abs(x.delta) else 0) - (if id == Trim(x.b) then Abs(x.delta) else 0)
            else (if id == Trim(x.b) then Abs(x.delta) else 0) - (if id == Trim(x.a) then Abs(x.delta) else 0)
  {
    hide Text.Trim, Text.Trimmed, Text.Currency, ClearingAccount, HoldAccount, Resolve;
  }

  lemma FeeMoves(feeAccount: string, p: Payload, id: string, c: string)
    ensures var x := FeeEntry(feeAccount, p, ZERO_TIME);
            EntryDelta(x, id, c) ==
            if c != Currency(x.currency) then 0
            else if p.OnFailed? then (if id == Trim(x.a) then Abs(x.delta) else 0) - (if id == Trim(x.b) then Abs(x.delta) else 0)
            else (if id == Trim(x.b) then Abs(x.delta) else 0) - (if id == Trim(x.a) then Abs(x.delta) else 0)
  {
    hide Text.Trim, Text.Trimmed, Text.Currency, ClearingAccount, HoldAccount, Resolve;
  }

  lemma BookedAmountsArePositive(feeAccount: string, p: Payload, now: Time)
    requires EventsOfPayload(feeAccount, p, now).Ok?
    ensures p.OnSucceeded? && !SpellsWithdrawal(p.succeeded.workflow) ==> p.succeeded.amount > 0
    ensures p.OnReversed? ==> p.reversed.amount > 0
  {
    hide Text.Trim, Text.Trimmed, Text.Currency, Text.IsUpper, ClearingAccount, Resolve, IsWithdrawal, SpellsWithdrawal, BookingPair, HoldPair;
    WorkflowOf(p);
  }

  lemma ClearingIsTrimmed(p: Payload)
    ensures Trim(Principal(p, ZERO_TIME).a) == Principal(p, ZERO_TIME).a
    ensures Trim(Principal(p, ZERO_TIME).b) == Principal(p, ZERO_TIME).b
  {
    hide Text.Trim, Text.Trimmed, ClearingAccount, HoldAccount, Resolve, Text.Currency;
    TrimOfID(if p.OnSucceeded? then Principal(p, ZERO_TIME).a else Principal(p, ZERO_TIME).b);
  }

  // ---------------------------------------------------------------- funds

  /** Successes, failures and reversals are never refused for lack of funds, whatever ran before. */
  lemma PaymentNeverShort(path: Path, feeAccount: string, p: Payload, now: Time, rows: Rows)
    requires Delivered(path, feeAccount, p, now).Ok? && !p.OnWithdrawal?
    ensures Record(rows, Delivered(path, feeAccount, p, now).value).result != Err(InsufficientFunds)
  {
    hide Delivered, EventsOfPayload, Resolved, Ledger.AccountsOf, WellBuilt, PayloadAccounts, PayloadDelta, BooksLegs, Guarded, Ledger.Record;
    DeliveredIsPayload(path, feeAccount, p, now);
    PayloadFacts(feeAccount, Resolved(path, p), now);
    NeverShort(rows, Delivered(path, feeAccount, p, now).value);
  }

  /** A withdrawal request reserves amount and fee; it is the one payment event that can be refused for funds. */
  function Reserved(feeAccount: string, w: WithdrawalRequested): int {
    Abs(w.amount) + if BooksFee(feeAccount, OnWithdrawal(w)) then w.feeAmount else 0
  }

  lemma WithdrawalCovered(rows: Rows, feeAccount: string, w: WithdrawalRequested)
    requires WithdrawalEvents(feeAccount, w).Ok?
    ensures CoveredIn(rows, WithdrawalEvents(feeAccount, w).value)
       <==> BalanceIn(rows, Trim(w.debitAccount), Currency(w.currency)) >= Reserved(feeAccount, w)
  {
    hide Text.Trim, Text.Trimmed, Text.Currency, WithdrawalEvents, Legs, Paired, Guarded, LegID, Ledger.AccountsOf, BatchDelta,
         Delta, BalanceIn, BooksFee, Ledger.AccountOf, HoldAccount, Resolve, CurrencyOf, Postings.Preview, Postings.WellFormed;
    var p := OnWithdrawal(w);
    var events := WithdrawalEvents(feeAccount, w).value;
    PayloadIsEntries(feeAccount, p, ZERO_TIME);
    var x, y := Principal(p, ZERO_TIME), FeeEntry(feeAccount, p, ZERO_TIME);
    var id, c := Trim(w.debitAccount), Currency(w.currency);
    EntryFacts(x);
    FirstDelta(events, id, c);
    if BooksFee(feeAccount, p) {
      EntryFacts(y);
      assert events[..2] == Legs(x).value && events[2] == Legs(y).value[0] && events[3] == Legs(y).value[1];
      ThirdDelta(events, id, c);
      FeeIsPositive(feeAccount, p);
    }
  }

  lemma FeeIsPositive(feeAccount: string, p: Payload)
    requires BooksFee(feeAccount, p)
    ensures FeeAmount(p) > 0
  {
  }

  lemma FirstDelta(events: seq<Event>, id: string, c: string)
    requires |events| >= 1
    ensures BatchDelta(events[..1], id, c) == Delta(events[0], id, c)
  {
    hide Delta;
    assert events[..1][..0] == [];
    assert BatchDelta(events[..1][..0], id, c) == 0;
  }

  lemma ThirdDelta(events: seq<Event>, id: string, c: string)
    requires |events| >= 3
    ensures BatchDelta(events[..3], id, c) == BatchDelta(events[..2], id, c) + Delta(events[2], id, c)
  {
    hide Delta;
    assert events[..3][..2] == events[..2];
  }

  /**
   A fresh payment event is stored, and moves exactly what it says, whatever the store holds; except that a
   withdrawal request is refused for funds if and only if the wallet does not hold amount and fee together.
   */
  lemma FreshPaymentMoves(rows: Rows, feeAccount: string, p: Payload, now: Time)
    requires GoodStore(rows) && EventsOfPayload(feeAccount, p, now).Ok? && BooksLegs(p)
    requires forall e | e in EventsOfPayload(feeAccount, p, now).value :: UnbookedIn(rows, e)
    ensures var out := Record(rows, EventsOfPayload(feeAccount, p, now).value);
            if p.OnWithdrawal? && BalanceIn(rows, Trim(p.withdrawal.debitAccount), Currency(p.withdrawal.currency))
                                  < Reserved(feeAccount, p.withdrawal)
            then out == Outcome(rows, Err(InsufficientFunds))
            else out.result == Ok(()) && forall id, c ::
                   BalanceIn(out.rows, id, c) == BalanceIn(rows, id, c) + PayloadMoves(feeAccount, p, id, c)
  {
    hide Text.Trim, Text.Trimmed, Text.Currency, WithdrawalEvents, Ledger.AccountsOf, BalanceIn, Reserved, UnbookedIn, Stores.GoodStore,
         Ledger.Record, Commits, CoveredIn, Distinct, Paired, PayloadDelta, PayloadAccounts, BookedOn, OnlyAdds, Keeps, Guarded,
         PayloadMoves, SucceededEvents, FailedEvents, ReversedEvents, BooksLegs;
    var events := EventsOfPayload(feeAccount, p, now).value;
    PayloadFacts(feeAccount, p, now);
    if p.OnWithdrawal? {
      WithdrawalCovered(rows, feeAccount, p.withdrawal);
    } else {
      UnguardedIsCovered(rows, events);
    }
    SmallBatchNeedsOne(rows, events);
    FreshBatchExactly(rows, events);
    RecordEffect(rows, events);
    forall id, c ensures BatchDelta(events, id, c) == PayloadMoves(feeAccount, p, id, c) { PayloadMovesExactly(feeAccount, p, now, id, c); }
  }

  // ---------------------------------------------------------------- reversal

  /** The second event names the accounts, currency and amounts of the first. */
  predicate SameTerms(p: Payload, q: Payload) {
    match (p, q)
    case (OnWithdrawal(w), OnFailed(f)) =>
      && Trim(w.debitAccount) == Trim(f.debitAccount) && Lower(Trim(w.clearingKey)) == Lower(Trim(f.clearingKey))
      && Currency(w.currency) == Currency(f.currency) && w.amount == f.amount && w.feeAmount == f.feeAmount
    case (OnSucceeded(s), OnReversed(r)) =>
      && Trim(s.creditAccount) == Trim(r.creditAccount) && Lower(Trim(s.clearingKey)) == Lower(Trim(r.clearingKey))
      && Currency(s.currency) == Currency(r.currency) && s.amount == r.amount && s.feeAmount == r.feeAmount
    case _ => false
  }

  /**
   What it takes for the second event to undo the first. A failure releases to the account of its clearing
   key, so a withdrawal that fell back to its provider's account is not undone; and only withdrawals are
   released on failure. A withdrawal books nothing on success, so there is nothing for a refund to take back.
   */
  predicate Undoable(p: Payload, q: Payload) {
    match (p, q)
    case (OnWithdrawal(w), OnFailed(f)) => SpellsWithdrawal(f.workflow) && (Trim(w.clearingKey) != "" || Trim(w.provider) == "")
    case (OnSucceeded(s), OnReversed(_)) => !SpellsWithdrawal(s.workflow)
    case _ => false
  }

  ghost predicate NetsToZero(feeAccount: string, p: Payload, q: Payload) {
    forall id, c :: PayloadDelta(feeAccount, p, id, c) + PayloadDelta(feeAccount, q, id, c) == 0
  }

  lemma ClearingByKey(k: string, l: string)
    requires Lower(Trim(k)) == Lower(Trim(l))
    ensures ClearingAccount(k) == ClearingAccount(l)
    ensures Trim(k) == "" <==> Trim(l) == ""
    ensures Trim(k) == "" ==> |ClearingAccount(k)| == 16
    ensures Trim(k) != "" ==> |ClearingAccount(k)| > 16
  {
    hide Text.Trim, Text.Trimmed;
    assert |"ledger:clearing:"| == 16;
  }

  /** A withdrawal is held on the account of its clearing key, unless only the provider is known. */
  lemma HeldOnKey(w: WithdrawalRequested, key: string)
    requires Lower(Trim(w.clearingKey)) == Lower(Trim(key))
    ensures HoldAccount(w) == ClearingAccount(key) <==> Trim(w.clearingKey) != "" || Trim(w.provider) == ""
  {
    hide Text.Trim, Text.Trimmed, ClearingAccount;
    ClearingByKey(w.clearingKey, key);
    ClearingIsStable(w.clearingKey);
    if Trim(w.clearingKey) == "" {
      ClearingIsStable(ProviderKey(w.provider));
      assert FirstNonEmpty(w.clearingKey, ProviderKey(w.provider)) == Trim(ProviderKey(w.provider));
      if Trim(w.provider) == "" {
        assert ProviderKey(w.provider) == "";
        ClearingByKey("", key) by { assert Trim("") == "" by { TrimBlank(); } }
      } else {
        ProviderKeyIsTrimmed(w.provider);
        ClearingByKey(ProviderKey(w.provider), ProviderKey(w.provider));
      }
    }
  }

  lemma TrimBlank()
    ensures Trim("") == "" && Lower("") == ""
  {
  }

  lemma ProviderKeyIsTrimmed(provider: string)
    requires Trim(provider) != ""
    ensures Trim(ProviderKey(provider)) != ""
  {
    var p := Lower(Trim(provider));
    assert p != "";
    hide Text.Trim, Text.Lower;
    JoinTrimmed("provider:", p);
  }

  /** Two entries that move the same amount back between the same accounts. */
  predicate Inverse(x: Entry, y: Entry) {
    && Currency(x.currency) == Currency(y.currency) && Abs(x.delta) == Abs(y.delta)
    && ((Trim(x.a) == Trim(y.a) && Trim(x.b) == Trim(y.b) && Direction(x.ka) == -Direction(y.ka) && Direction(x.kb) == -Direction(y.kb))
        || (Trim(x.a) == Trim(y.b) && Trim(x.b) == Trim(y.a) && Direction(x.ka) == -Direction(y.kb) && Direction(x.kb) == -Direction(y.ka)))
  }

  lemma InverseCancels(x: Entry, y: Entry)
    requires Inverse(x, y)
    ensures forall id, c :: EntryDelta(x, id, c) + EntryDelta(y, id, c) == 0
  {
    hide Text.Trim, Text.Trimmed, Text.Currency, Direction;
  }

  lemma FeesAreInverse(feeAccount: string, p: Payload, q: Payload)
    requires SameTerms(p, q)
    ensures Inverse(FeeEntry(feeAccount, p, ZERO_TIME), FeeEntry(feeAccount, q, ZERO_TIME))
  {
    hide Text.Trim, Text.Trimmed, Text.Lower, Text.IsUpper, ClearingAccount, ProviderKey, Resolve, IsWithdrawal, SpellsWithdrawal;
    match (p, q)
    case (OnWithdrawal(w), OnFailed(f)) =>
    case (OnSucceeded(s), OnReversed(r)) => ClearingByKey(s.clearingKey, r.clearingKey);
  }

  lemma PrincipalsAreInverse(p: Payload, q: Payload)
    requires SameTerms(p, q) && Undoable(p, q)
    ensures Inverse(Principal(p, ZERO_TIME), Principal(q, ZERO_TIME))
  {
    hide Text.Trim, Text.Trimmed, Text.Lower, Text.IsUpper, ClearingAccount, ProviderKey, Resolve, IsWithdrawal, SpellsWithdrawal, HoldAccount;
    match (p, q)
    case (OnWithdrawal(w), OnFailed(f)) => HeldOnKey(w, f.clearingKey);
    case (OnSucceeded(s), OnReversed(r)) => ClearingByKey(s.clearingKey, r.clearingKey);
  }

  /** The failing family, on the account where it shows. */
  lemma NotUndone(feeAccount: string, p: Payload, q: Payload, now: Time, later: Time)
    requires SameTerms(p, q) && !Undoable(p, q)
    requires EventsOfPayload(feeAccount, p, now).Ok? && EventsOfPayload(feeAccount, q, later).Ok?
    ensures !NetsToZero(feeAccount, p, q)
  {
    hide Text.Trim, Text.Trimmed, Text.Lower, Text.IsUpper, Text.Currency, ClearingAccount, ProviderKey, Resolve, IsWithdrawal, SpellsWithdrawal,
         HoldAccount, EventsOfPayload, Legs, Paired, Guarded, Slot, LegID, Ledger.AccountsOf, BatchDelta, Delta, CurrencyOf;
    PayloadIsEntries(feeAccount, p, now);
    PayloadIsEntries(feeAccount, q, later);
    match (p, q)
    case (OnWithdrawal(w), OnFailed(f)) =>
      EntryFacts(Principal(p, now));
      HeldOnKey(w, f.clearingKey);
      var id, c := HoldAccount(w), Currency(w.currency);
      if SpellsWithdrawal(f.workflow) { EntryFacts(Principal(q, later)); }
      assert PayloadDelta(feeAccount, p, id, c) + PayloadDelta(feeAccount, q, id, c) != 0;
    case (OnSucceeded(s), OnReversed(r)) =>
      EntryFacts(Principal(q, later));
      var id, c := Trim(r.creditAccount), Currency(r.currency);
      assert PayloadDelta(feeAccount, p, id, c) + PayloadDelta(feeAccount, q, id, c) != 0;
  }

  /**
   A withdrawal request and its failure, and a success and its refund or chargeback, net to zero on every
   account in every currency exactly when the pair is undoable.
   */
  lemma ReversalNetsToZero(feeAccount: string, p: Payload, q: Payload, now: Time, later: Time)
    requires SameTerms(p, q)
    requires EventsOfPayload(feeAccount, p, now).Ok? && EventsOfPayload(feeAccount, q, later).Ok?
    ensures NetsToZero(feeAccount, p, q) <==> Undoable(p, q)
  {
    hide EventsOfPayload, Principal, FeeEntry, EntryDelta, Inverse, IsWithdrawal, SpellsWithdrawal, Text.Trim, Text.Trimmed, Text.Lower, Text.Currency;
    if Undoable(p, q) {
      PrincipalsAreInverse(p, q);
      InverseCancels(Principal(p, ZERO_TIME), Principal(q, ZERO_TIME));
      if BooksFee(feeAccount, p) {
        FeesAreInverse(feeAccount, p, q);
        InverseCancels(FeeEntry(feeAccount, p, ZERO_TIME), FeeEntry(feeAccount, q, ZERO_TIME));
      }
    } else {
      NotUndone(feeAccount, p, q, now, later);
    }
  }

  /**
   Reversal over runs: once a payment event was stored, the event that undoes it is accepted after any
   further run (funds or no funds) and takes back, on every account, exactly what the first one did.
   */
  lemma ReversalRestores(rows: Rows, feeAccount: string, p: Payload, now: Time, commands: seq<Command>, q: Payload, later: Time)
    requires GoodStore(rows) && AllLegal(commands) && SameTerms(p, q) && Undoable(p, q)
    requires EventsOfPayload(feeAccount, p, now).Ok? && Commits(rows, EventsOfPayload(feeAccount, p, now).value)
    requires EventsOfPayload(feeAccount, q, later).Ok?
    requires var before := Run(Record(rows, EventsOfPayload(feeAccount, p, now).value).rows, commands);
             forall e | e in EventsOfPayload(feeAccount, q, later).value :: UnbookedIn(before, e)
    ensures var done := Record(rows, EventsOfPayload(feeAccount, p, now).value).rows;
            var before := Run(done, commands);
            var out := Record(before, EventsOfPayload(feeAccount, q, later).value);
            && out.result == Ok(())
            && forall id, c ::
                 BalanceIn(out.rows, id, c) - BalanceIn(before, id, c) == BalanceIn(rows, id, c) - BalanceIn(done, id, c)
  {
    hide EventsOfPayload, Ledger.AccountsOf, BalanceIn, UnbookedIn, Stores.GoodStore, Ledger.Record, Commits, CoveredIn, Distinct, Paired,
         PayloadDelta, PayloadAccounts, BookedOn, OnlyAdds, Keeps, Guarded, SameTerms, Legal, Step, Grows, Stores.StateOf;
    var first, second := EventsOfPayload(feeAccount, p, now).value, EventsOfPayload(feeAccount, q, later).value;
    RecordEffect(rows, first);
    var done := Record(rows, first).rows;
    RunGrows(done, commands);
    var before := Run(done, commands);
    PayloadFacts(feeAccount, p, now);
    PayloadFacts(feeAccount, q, later);
    ReversalNetsToZero(feeAccount, p, q, now, later);
    UndoableBooks(p, q);
    assert CoveredIn(before, second) by { UnguardedIsCovered(before, second); }
    SmallBatchNeedsOne(before, second);
    FreshBatchExactly(before, second);
    RecordEffect(before, second);
    forall id, c
      ensures BalanceIn(Record(before, second).rows, id, c) - BalanceIn(before, id, c) == BalanceIn(rows, id, c) - BalanceIn(done, id, c)
    {
      assert PayloadDelta(feeAccount, p, id, c) + PayloadDelta(feeAccount, q, id, c) == 0;
    }
  }

  lemma UndoableBooks(p: Payload, q: Payload)
    requires Undoable(p, q)
    ensures BooksLegs(q) && !q.OnWithdrawal?
  {
    hide IsWithdrawal, SpellsWithdrawal, Text.Trim, Text.Trimmed;
  }

  lemma UnguardedIsCovered(rows: Rows, events: seq<Event>)
    requires forall e | e in events :: !Guarded(e)
    ensures CoveredIn(rows, events)
  {
    hide Guarded, BatchDelta, BalanceIn;
  }
}
