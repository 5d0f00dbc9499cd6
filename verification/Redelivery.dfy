/**
 Payment events delivered again: through the other path, at another time, or under another fee account. A
 payment is booked once per payment id that its deliveries resolve to.
 */
module Redelivery {
  import opened Text
  import opened Postings
  import opened Accounts
  import opened Stores
  import opened Ledger
  import opened Batches
  import opened Transfers
  import opened Runs
  import opened Money
  import opened Funds
  import opened Payments
  import opened PaymentService
  import opened PaymentEntries
  import opened PaymentFacts
  import PaymentConsumer

  // ---------------------------------------------------------------- the same batch at another time

  lemma LegPairOverTime(a: string, b: string, tx: string, paymentID: string, currency: string, delta: int, at: Time, again: Time,
                        ka: PaymentKind, kb: PaymentKind)
    requires LegPair(a, b, tx, paymentID, currency, delta, at, ka, kb).Ok? && again != ZERO_TIME
    ensures LegPair(a, b, tx, paymentID, currency, delta, again, ka, kb).Ok?
    ensures SameBatch(LegPair(a, b, tx, paymentID, currency, delta, at, ka, kb).value,
                      LegPair(a, b, tx, paymentID, currency, delta, again, ka, kb).value)
  {
    hide Text.Trim, Text.Trimmed, Text.IsUpper, Text.Currency, Postings.WellFormed, Direction;
  }

  lemma EntryAtAnyTime(x: Entry, y: Entry)
    requires Legs(x).Ok? && Legs(y).Ok? && x.(at := ZERO_TIME) == y.(at := ZERO_TIME)
    ensures SameBatch(Legs(x).value, Legs(y).value)
  {
    hide LegPair, LegID, SameBatch;
    LegPairOk(y.a, y.b, LegID(y.paymentID, y.leg), y.paymentID, y.currency, y.delta, y.at, y.ka, y.kb);
    LegPairOverTime(x.a, x.b, LegID(x.paymentID, x.leg), x.paymentID, x.currency, x.delta, x.at, y.at, x.ka, x.kb);
  }

  lemma SameBatchJoins(a: seq<Event>, b: seq<Event>, c: seq<Event>, d: seq<Event>)
    requires SameBatch(a, c) && SameBatch(b, d)
    ensures SameBatch(a + b, c + d)
  {
    hide SameDelivery;
  }

  /** Whether a payload can be built does not depend on the current time. */
  lemma BuildsAtAnyTime(feeAccount: string, p: Payload, now: Time, later: Time)
    requires EventsOfPayload(feeAccount, p, now).Ok? && later != ZERO_TIME
    ensures EventsOfPayload(feeAccount, p, later).Ok?
  {
    hide Text.Trim, Text.Trimmed, LegPair, LegID, IsWithdrawal, SpellsWithdrawal, ClearingAccount, ProviderKey, SameBatch, SucceededBooking;
    match p {
      case OnSucceeded(s) =>
        if !IsWithdrawal(s.workflow) {
          var id := Resolve(s.paymentID, s.transactionID);
          var b := SucceededBooking(id, s.transactionID, s.clearingKey, s.creditAccount, s.currency, s.amount).value;
          LegPairOverTime(b.debit, b.credit, LegID(Trim(b.paymentID), SucceededLeg), b.paymentID, b.currency, -b.amount,
                          TimeOr(s.succeededAt, now), TimeOr(s.succeededAt, later), WithdrawFromIntent, DepositFromIntent);
          if BooksFee(feeAccount, p) {
            LegPairOverTime(ClearingAccount(s.clearingKey), Trim(feeAccount), LegID(b.paymentID, SucceededFeeLeg), b.paymentID,
                            b.currency, -s.feeAmount, TimeOr(s.succeededAt, now), TimeOr(s.succeededAt, later),
                            WithdrawFromIntent, DepositFromIntent);
          }
        }
      case OnReversed(r) =>
        var id := Resolve(r.paymentID, r.transactionID);
        var b := ReversalBooking(id, r.transactionID, r.clearingKey, r.creditAccount, r.currency, r.amount).value;
        LegPairOverTime(b.debit, b.credit, LegID(Trim(b.paymentID), ReversalLeg(r.reversal)), b.paymentID, b.currency, -b.amount,
                        TimeOr(r.reversedAt, now), TimeOr(r.reversedAt, later), DebitKind(r.reversal), CreditKind(r.reversal));
        if BooksFee(feeAccount, p) {
          LegPairOverTime(Trim(feeAccount), ClearingAccount(r.clearingKey), LegID(b.paymentID, ReversalFeeLeg(r.reversal)), b.paymentID,
                          b.currency, -r.feeAmount, TimeOr(r.reversedAt, now), TimeOr(r.reversedAt, later),
                          DebitKind(r.reversal), CreditKind(r.reversal));
        }
      case _ =>
    }
  }

  /** The batch a payload is turned into differs between two deliveries at most in booked times. */
  lemma PayloadAtAnyTime(feeAccount: string, p: Payload, now: Time, later: Time)
    requires EventsOfPayload(feeAccount, p, now).Ok? && later != ZERO_TIME
    ensures EventsOfPayload(feeAccount, p, later).Ok?
    ensures SameBatch(EventsOfPayload(feeAccount, p, now).value, EventsOfPayload(feeAccount, p, later).value)
  {
    hide EventsOfPayload, Principal, FeeEntry, Legs, SameDelivery, BooksLegs, BooksFee;
    BuildsAtAnyTime(feeAccount, p, now, later);
    PayloadIsEntries(feeAccount, p, now);
    PayloadIsEntries(feeAccount, p, later);
    EntriesOverTime(feeAccount, p, now, ZERO_TIME);
    EntriesOverTime(feeAccount, p, later, ZERO_TIME);
    if BooksLegs(p) {
      var x, y := Principal(p, now), Principal(p, later);
      EntryAtAnyTime(x, y);
      if BooksFee(feeAccount, p) {
        var f, g := FeeEntry(feeAccount, p, now), FeeEntry(feeAccount, p, later);
        EntryAtAnyTime(f, g);
        SameBatchJoins(Legs(x).value, Legs(f).value, Legs(y).value, Legs(g).value);
      }
    }
  }

  // ---------------------------------------------------------------- once per payment id

  /** The payment id a path books the payload under. */
  function PathID(path: Path, p: Payload): string {
    var ids := PaymentConsumer.IDsOf(p);
    match path
    case Grpc => Resolve(ids.0, ids.1)
    case Kafka(aggregateID) => PaymentConsumer.ResolveID(aggregateID, ids.0, ids.1)
  }

  lemma ResolvedHasPathID(path: Path, p: Payload)
    ensures var ids := PaymentConsumer.IDsOf(Resolved(path, p)); Resolve(ids.0, ids.1) == PathID(path, p)
    ensures forall other: Path :: PathID(path, p) == PathID(other, p) ==> Resolved(path, p) == Resolved(other, p)
  {
    hide Text.Trim, Text.Trimmed;
  }

  lemma ResolvedMovesTheSame(path: Path, feeAccount: string, p: Payload)
    ensures var q := Resolved(path, p);
            && (BooksLegs(q) <==> BooksLegs(p)) && (q.OnWithdrawal? <==> p.OnWithdrawal?)
            && (p.OnWithdrawal? ==> q.withdrawal == p.withdrawal.(paymentID := q.withdrawal.paymentID)
                                    && Reserved(feeAccount, q.withdrawal) == Reserved(feeAccount, p.withdrawal))
            && forall id, c :: PayloadMoves(feeAccount, q, id, c) == PayloadMoves(feeAccount, p, id, c)
  {
    hide Text.Trim, Text.Trimmed, Text.Currency, IsWithdrawal, SpellsWithdrawal, ClearingAccount, ProviderKey, PaymentConsumer.SamePaymentID;
  }

  /**
   A payment delivered again under the same payment id, through either path, at any other time and after any
   further run: the delivery builds, succeeds and changes nothing.
   */
  lemma PaymentExactlyOnce(rows: Rows, feeAccount: string, p: Payload, first: Path, now: Time, commands: seq<Command>,
                           second: Path, later: Time)
    requires GoodStore(rows) && AllLegal(commands) && PathID(first, p) == PathID(second, p) && later != ZERO_TIME
    requires Delivered(first, feeAccount, p, now).Ok? && Record(rows, Delivered(first, feeAccount, p, now).value).result.Ok?
    ensures Delivered(second, feeAccount, p, later).Ok?
    ensures var after := Run(Record(rows, Delivered(first, feeAccount, p, now).value).rows, commands);
            Record(after, Delivered(second, feeAccount, p, later).value) == Outcome(after, Ok(()))
  {
    hide EventsOfPayload, Delivered, Stores.GoodStore, Ledger.Record, SameBatch, Legal, Step, Resolved, PathID;
    DeliveredIsPayload(first, feeAccount, p, now);
    DeliveredIsPayload(second, feeAccount, p, later);
    ResolvedHasPathID(first, p);
    var q := Resolved(first, p);
    PayloadAtAnyTime(feeAccount, q, now, later);
    BatchExactlyOnce(rows, EventsOfPayload(feeAccount, q, now).value, commands, EventsOfPayload(feeAccount, q, later).value);
  }

  /** The store after a first delivery and a further run. */
  function AfterDelivery(rows: Rows, feeAccount: string, p: Payload, path: Path, now: Time, commands: seq<Command>): Rows
    requires Delivered(path, feeAccount, p, now).Ok?
  {
    Run(Record(rows, Delivered(path, feeAccount, p, now).value).rows, commands)
  }

  /** None of the events is booked under its transaction id. */
  predicate NothingBooked(rows: Rows, events: seq<Event>) { forall e | e in events :: UnbookedIn(rows, e) }

  /** A delivery of which nothing is booked yet: refused for funds, or stored with the moves of the payment. */
  lemma FreshDelivery(rows: Rows, feeAccount: string, p: Payload, path: Path, now: Time)
    requires GoodStore(rows) && BooksLegs(p) && Delivered(path, feeAccount, p, now).Ok?
    requires NothingBooked(rows, Delivered(path, feeAccount, p, now).value)
    ensures var out := Record(rows, Delivered(path, feeAccount, p, now).value);
            && out != Outcome(rows, Ok(()))
            && if p.OnWithdrawal? && BalanceIn(rows, Trim(p.withdrawal.debitAccount), Currency(p.withdrawal.currency))
                                     < Reserved(feeAccount, p.withdrawal)
               then out == Outcome(rows, Err(InsufficientFunds))
               else out.result == Ok(()) && Commits(rows, Delivered(path, feeAccount, p, now).value) && forall id, c ::
                      BalanceIn(out.rows, id, c) == BalanceIn(rows, id, c) + PayloadMoves(feeAccount, p, id, c)
  {
    hide EventsOfPayload, Delivered, Stores.GoodStore, Ledger.Record, Resolved, BooksLegs, PayloadMoves, Reserved, BalanceIn, UnbookedIn,
         Commits, BookedOn, OnlyAdds, Keeps, Text.Trim, Text.Trimmed, Text.Currency, WellBuilt, Ledger.AccountsOf, PayloadAccounts,
         PayloadDelta, BatchDelta, Guarded, Stores.StateOf;
    DeliveredIsPayload(path, feeAccount, p, now);
    ResolvedMovesTheSame(path, feeAccount, p);
    var q := Resolved(path, p);
    var events := Delivered(path, feeAccount, p, now).value;
    FreshPaymentMoves(rows, feeAccount, q, now);
    PayloadFacts(feeAccount, q, now);
    RecordEffect(rows, events);
    if Record(rows, events).result.Ok? {
      SuccessBooks(rows, events);
      UnbookedIsNotBooked(rows, events[0]);
      assert events[0] in events;
      if !Commits(rows, events) { assert false; }
    }
  }

  lemma UnbookedIsNotBooked(rows: Rows, e: Event)
    ensures !(UnbookedIn(rows, e) && BookedIn(rows, e))
  {
    hide Stores.StateOf, Ledger.AccountOf, Postings.Preview, Postings.WellFormed;
  }

  /**
   A second delivery, on any path, at any time and after any further run, is absorbed if and only if both
   deliveries resolve the payload to one payment id. Under another id, of which nothing is booked, the payment is
   booked a second time (or, a withdrawal the wallet cannot pay twice, refused for funds).
   */
  lemma AbsorbedIffSameID(rows: Rows, feeAccount: string, p: Payload, first: Path, now: Time, commands: seq<Command>,
                          second: Path, later: Time)
    requires GoodStore(rows) && AllLegal(commands) && later != ZERO_TIME && BooksLegs(p)
    requires Delivered(first, feeAccount, p, now).Ok? && Record(rows, Delivered(first, feeAccount, p, now).value).result.Ok?
    requires Delivered(second, feeAccount, p, later).Ok?
    requires PathID(first, p) != PathID(second, p) ==>
               NothingBooked(AfterDelivery(rows, feeAccount, p, first, now, commands), Delivered(second, feeAccount, p, later).value)
    ensures var after := AfterDelivery(rows, feeAccount, p, first, now, commands);
            var out := Record(after, Delivered(second, feeAccount, p, later).value);
            && (out == Outcome(after, Ok(())) <==> PathID(first, p) == PathID(second, p))
            && (PathID(first, p) != PathID(second, p) && out.result.Ok? ==>
                  forall id, c :: BalanceIn(out.rows, id, c) == BalanceIn(after, id, c) + PayloadMoves(feeAccount, p, id, c))
            && (out.result.Ok? || (p.OnWithdrawal? && out == Outcome(after, Err(InsufficientFunds))))
  {
    hide Delivered, Stores.GoodStore, Ledger.Record, Legal, Step, PathID, BooksLegs, NothingBooked, PayloadMoves, BalanceIn, Reserved,
         Commits, BookedOn, OnlyAdds, Keeps, Grows;
    if PathID(first, p) == PathID(second, p) {
      PaymentExactlyOnce(rows, feeAccount, p, first, now, commands, second, later);
    } else {
      RecordEffect(rows, Delivered(first, feeAccount, p, now).value);
      RunGrows(Record(rows, Delivered(first, feeAccount, p, now).value).rows, commands);
      FreshDelivery(AfterDelivery(rows, feeAccount, p, first, now, commands), feeAccount, p, second, later);
    }
  }

  /** The leg kinds of a payment event: those of its principal and of its fee. */
  function KindsOf(p: Payload): set<LegKind> { {Principal(p, ZERO_TIME).leg, FeeEntry("", p, ZERO_TIME).leg} }

  function IDOf(p: Payload): string { Resolve(PaymentConsumer.IDsOf(p).0, PaymentConsumer.IDsOf(p).1) }

  /** Everything a payload books is under a transaction id made from its payment id and one of its leg kinds. */
  lemma SlotsOfPayload(feeAccount: string, p: Payload, now: Time, e: Event)
    requires EventsOfPayload(feeAccount, p, now).Ok? && e in EventsOfPayload(feeAccount, p, now).value
    ensures exists k :: k in KindsOf(p) && Slot(e).1 == LegID(IDOf(p), k)
  {
    hide EventsOfPayload, Legs, Paired, Guarded, Slot, LegID, BooksFee, Ledger.AccountsOf, EntryDelta, BatchDelta, GuardedKind, Delta,
         CurrencyOf, Text.Trim, Text.Trimmed, Opposite, Text.Currency, ClearingAccount, HoldAccount, IsWithdrawal, SpellsWithdrawal;
    PayloadIsEntries(feeAccount, p, now);
    EntriesAreOpposite(feeAccount, p, now);
    var x, y := Principal(p, now), FeeEntry(feeAccount, p, now);
    assert x.paymentID == y.paymentID == IDOf(p) && x.leg in KindsOf(p) && y.leg in KindsOf(p);
    if e in Legs(x).value {
      EntryFacts(x);
      assert e == Legs(x).value[0] || e == Legs(x).value[1];
      assert Slot(e).1 == LegID(IDOf(p), x.leg);
    } else {
      EntryFacts(y);
      assert e == Legs(y).value[0] || e == Legs(y).value[1];
      assert Slot(e).1 == LegID(IDOf(p), y.leg);
    }
  }

  /** Two payment events that share no transaction id: other payment ids, or other leg kinds. */
  predicate Apart(p: Payload, q: Payload) { IDOf(p) != IDOf(q) || KindsOf(p) !! KindsOf(q) }

  /** What one batch stores does not touch the transaction ids of a payment event apart from it. */
  lemma ApartStaysUnbooked(rows: Rows, feeAccount: string, p: Payload, now: Time, q: Payload, later: Time)
    requires GoodStore(rows) && EventsOfPayload(feeAccount, p, now).Ok? && EventsOfPayload(feeAccount, q, later).Ok? && Apart(p, q)
    requires NothingBooked(rows, EventsOfPayload(feeAccount, q, later).value)
    ensures NothingBooked(Record(rows, EventsOfPayload(feeAccount, p, now).value).rows, EventsOfPayload(feeAccount, q, later).value)
  {
    hide EventsOfPayload, Stores.GoodStore, Ledger.Record, UnbookedIn, BookedOn, Keeps, OnlyAdds, LegID, Slot, Commits, IDOf, KindsOf,
         Stores.StateOf;
    var first, second := EventsOfPayload(feeAccount, p, now).value, EventsOfPayload(feeAccount, q, later).value;
    RecordEffect(rows, first);
    if Commits(rows, first) {
      forall e | e in second ensures UnbookedIn(Record(rows, first).rows, e) {
        SlotsOfPayload(feeAccount, q, later, e);
        forall f | f in first ensures Slot(f).1 != Slot(e).1 {
          SlotsOfPayload(feeAccount, p, now, f);
          var k :| k in KindsOf(p) && Slot(f).1 == LegID(IDOf(p), k);
          var l :| l in KindsOf(q) && Slot(e).1 == LegID(IDOf(q), l);
          LegIDInjective(IDOf(p), k, IDOf(q), l);
        }
        OtherSlotStaysFree(first, e, rows, Record(rows, first).rows);
      }
    }
  }

  lemma OtherSlotStaysFree(events: seq<Event>, e: Event, rows: Rows, after: Rows)
    requires UnbookedIn(rows, e) && forall f | f in events :: Slot(f).1 != Slot(e).1
    requires GoodStore(after) && OnlyAdds(events, AccountOf(e), StateOf(RowOf(rows, AccountOf(e))), StateOf(RowOf(after, AccountOf(e))))
    ensures UnbookedIn(after, e)
  {
    hide Stores.StateOf, Ledger.AccountOf, Postings.Preview, Postings.WellFormed, Stores.GoodStore;
    var id, tx := AccountOf(e), PostingOf(e).transactionID;
    var s, t := StateOf(RowOf(rows, id)), StateOf(RowOf(after, id));
    if tx in t.posted {
      PostedUnderOwnID(after, id, tx);
    }
  }

  /** A withdrawal takes from its wallet exactly what it reserves. */
  lemma WalletPays(feeAccount: string, w: WithdrawalRequested)
    requires WithdrawalEvents(feeAccount, w).Ok?
    ensures PayloadMoves(feeAccount, OnWithdrawal(w), Trim(w.debitAccount), Currency(w.currency)) == -Reserved(feeAccount, w)
  {
    hide Text.Trim, Text.Trimmed, Text.Currency, WithdrawalEvents, Legs, Paired, Guarded, LegID, Ledger.AccountsOf, BatchDelta, Delta,
         HoldAccount, Resolve, CurrencyOf, Slot;
    var p := OnWithdrawal(w);
    PayloadIsEntries(feeAccount, p, ZERO_TIME);
    EntryFacts(Principal(p, ZERO_TIME));
    TrimOfID(HoldAccount(w));
    if BooksFee(feeAccount, p) { EntryFacts(FeeEntry(feeAccount, p, ZERO_TIME)); }
  }

  /** The wallet of a withdrawal holds less than `due`; other payments need no funds. */
  predicate Lacks(rows: Rows, p: Payload, due: int) {
    p.OnWithdrawal? && BalanceIn(rows, Trim(p.withdrawal.debitAccount), Currency(p.withdrawal.currency)) < due
  }

  function Due(feeAccount: string, p: Payload): int { if p.OnWithdrawal? then Reserved(feeAccount, p.withdrawal) else 0 }

  /**
   Two deliveries of one payment into a store that knows neither. If they resolve one payment id, the accounts move
   as the payment says, once. If they do not, the accounts move twice, or once only if it is a withdrawal and the
   wallet cannot pay it twice; a withdrawal the wallet cannot even pay once moves nothing.
   */
  lemma MovesOncePerID(rows: Rows, feeAccount: string, p: Payload, first: Path, now: Time, second: Path, later: Time)
    requires GoodStore(rows) && later != ZERO_TIME && BooksLegs(p)
    requires Delivered(first, feeAccount, p, now).Ok? && Delivered(second, feeAccount, p, later).Ok?
    requires NothingBooked(rows, Delivered(first, feeAccount, p, now).value)
    requires NothingBooked(rows, Delivered(second, feeAccount, p, later).value)
    ensures var one := Record(rows, Delivered(first, feeAccount, p, now).value);
            var two := Record(one.rows, Delivered(second, feeAccount, p, later).value);
            if Lacks(rows, p, Due(feeAccount, p)) then one == two == Outcome(rows, Err(InsufficientFunds))
            else
              && one.result == Ok(())
              && (forall id, c :: BalanceIn(one.rows, id, c) == BalanceIn(rows, id, c) + PayloadMoves(feeAccount, p, id, c))
              && if PathID(first, p) == PathID(second, p) then two == Outcome(one.rows, Ok(()))
                 else if Lacks(rows, p, Due(feeAccount, p) + Due(feeAccount, p)) then two == Outcome(one.rows, Err(InsufficientFunds))
                 else two.result == Ok(())
                      && forall id, c :: BalanceIn(two.rows, id, c) == BalanceIn(one.rows, id, c) + PayloadMoves(feeAccount, p, id, c)
  {
    hide EventsOfPayload, Delivered, Stores.GoodStore, Ledger.Record, Legal, Step, PathID, BooksLegs, NothingBooked, PayloadMoves,
         BalanceIn, Reserved, Commits, BookedOn, OnlyAdds, Keeps, Resolved, Resolve, Text.Trim, Text.Currency;
    FreshDelivery(rows, feeAccount, p, first, now);
    RecordEffect(rows, Delivered(first, feeAccount, p, now).value);
    var done := Record(rows, Delivered(first, feeAccount, p, now).value).rows;
    if Lacks(rows, p, Due(feeAccount, p)) {
      FreshDelivery(rows, feeAccount, p, second, later);
    } else if PathID(first, p) == PathID(second, p) {
      assert Run(done, []) == done;
      PaymentExactlyOnce(rows, feeAccount, p, first, now, [], second, later);
    } else {
      OtherPathStaysUnbooked(rows, feeAccount, p, first, now, second, later);
      FreshDelivery(done, feeAccount, p, second, later);
      if p.OnWithdrawal? { WithdrawalPays(feeAccount, p, first, now); }
    }
  }

  lemma OtherPathStaysUnbooked(rows: Rows, feeAccount: string, p: Payload, first: Path, now: Time, second: Path, later: Time)
    requires GoodStore(rows) && PathID(first, p) != PathID(second, p)
    requires Delivered(first, feeAccount, p, now).Ok? && Delivered(second, feeAccount, p, later).Ok?
    requires NothingBooked(rows, Delivered(second, feeAccount, p, later).value)
    ensures NothingBooked(Record(rows, Delivered(first, feeAccount, p, now).value).rows, Delivered(second, feeAccount, p, later).value)
  {
    hide EventsOfPayload, Delivered, Stores.GoodStore, Ledger.Record, PathID, NothingBooked, Resolved, Resolve;
    DeliveredIsPayload(first, feeAccount, p, now);
    DeliveredIsPayload(second, feeAccount, p, later);
    ResolvedHasPathID(first, p);
    ResolvedHasPathID(second, p);
    ApartStaysUnbooked(rows, feeAccount, Resolved(first, p), now, Resolved(second, p), later);
  }

  lemma WithdrawalPays(feeAccount: string, p: Payload, path: Path, now: Time)
    requires p.OnWithdrawal? && Delivered(path, feeAccount, p, now).Ok?
    ensures PayloadMoves(feeAccount, p, Trim(p.withdrawal.debitAccount), Currency(p.withdrawal.currency)) == -Due(feeAccount, p)
  {
    hide WithdrawalEvents, Resolved, Reserved, PayloadMoves, Text.Trim, Text.Trimmed, Text.Currency, Delivered;
    DeliveredIsPayload(path, feeAccount, p, now);
    ResolvedMovesTheSame(path, feeAccount, p);
    WalletPays(feeAccount, Resolved(path, p).withdrawal);
  }

  // ---------------------------------------------------------------- another fee account

  /** The legs of the fee, if it has any. */
  function FeeLegs(feeAccount: string, p: Payload, now: Time): seq<Event> {
    if BooksFee(feeAccount, p) && Legs(FeeEntry(feeAccount, p, now)).Ok? then Legs(FeeEntry(feeAccount, p, now)).value else []
  }

  /** One leg cannot be booked against two counterparties. */
  lemma OneCounterparty(rows: Rows, x: Entry, y: Entry)
    requires Opposite(x) && Opposite(y) && Legs(x).Ok? && Legs(y).Ok? && x.paymentID == y.paymentID && x.leg == y.leg
    requires (Trim(x.a) == Trim(y.a) && Trim(x.b) != Trim(y.b)) || (Trim(x.b) == Trim(y.b) && Trim(x.a) != Trim(y.a))
    ensures exists e :: e in Legs(y).value && !(BookedIn(rows, Legs(x).value[0]) && BookedIn(rows, Legs(x).value[1]) && BookedIn(rows, e))
  {
    hide Text.Trim, Text.Trimmed, Text.Currency, LegPair, Paired, Postings.Preview, Postings.WellFormed, Ledger.AccountOf, LegID, Direction,
         Stores.StateOf, Accounts.IsID, Stores.RowOf;
    var tx := LegID(x.paymentID, x.leg);
    LegPairIsMirrored(x.a, x.b, tx, x.paymentID, x.currency, x.delta, x.at, x.ka, x.kb);
    LegPairIsMirrored(y.a, y.b, tx, y.paymentID, y.currency, y.delta, y.at, y.ka, y.kb);
    var e := if Trim(x.a) == Trim(y.a) then Legs(y).value[0] else Legs(y).value[1];
    assert e in Legs(y).value;
  }

  /**
   A payment delivered again under another fee configuration changes nothing. It is absorbed if and only if it now
   carries no fee, or the fee it was booked with; otherwise it is refused. (Where it was booked without a fee,
   nothing else may have been booked as its fee.)
   */
  lemma FeeChangeExactly(rows: Rows, p: Payload, feeAccount: string, now: Time, commands: seq<Command>, newAccount: string, later: Time)
    requires GoodStore(rows) && AllLegal(commands) && later != ZERO_TIME && BooksLegs(p)
    requires EventsOfPayload(feeAccount, p, now).Ok? && Record(rows, EventsOfPayload(feeAccount, p, now).value).result.Ok?
    requires EventsOfPayload(newAccount, p, later).Ok?
    requires !BooksFee(feeAccount, p) ==>
               NothingBooked(Run(Record(rows, EventsOfPayload(feeAccount, p, now).value).rows, commands), FeeLegs(newAccount, p, later))
    ensures var after := Run(Record(rows, EventsOfPayload(feeAccount, p, now).value).rows, commands);
            var out := Record(after, EventsOfPayload(newAccount, p, later).value);
            && out.rows == after
            && (out.result.Ok? <==> !BooksFee(newAccount, p) || (BooksFee(feeAccount, p) && Trim(feeAccount) == Trim(newAccount)))
  {
    hide EventsOfPayload, Stores.GoodStore, Ledger.Record, SameBatch, Legal, Step, Principal, FeeEntry, Legs, BooksLegs, BookedIn, UnbookedIn,
         Ledger.AccountsOf, Distinct, Paired, Opposite, EntryDelta, BatchDelta, LegID, Text.Trim, Text.Trimmed, WellBuilt, Unguarded,
         Guarded, BooksFee;
    var after := Run(Record(rows, EventsOfPayload(feeAccount, p, now).value).rows, commands);
    var again, events := EventsOfPayload(feeAccount, p, later), EventsOfPayload(newAccount, p, later).value;
    PayloadAtAnyTime(feeAccount, p, now, later);
    BatchStaysBooked(rows, EventsOfPayload(feeAccount, p, now).value, commands, again.value);
    PayloadIsEntries(feeAccount, p, later);
    PayloadIsEntries(newAccount, p, later);
    EntriesAreOpposite(feeAccount, p, later);
    EntriesAreOpposite(newAccount, p, later);
    OneEntry(Principal(p, later));
    var known := Legs(Principal(p, later)).value[0];
    assert known in Legs(Principal(p, later)).value;
    assert known in again.value && known in events;
    KnownBatchExactly(after, events, known);
    if BooksFee(newAccount, p) {
      var y := FeeEntry(newAccount, p, later);
      OneEntry(y);
      if !BooksFee(feeAccount, p) {
        UnbookedIsNotBooked(after, Legs(y).value[0]);
        assert Legs(y).value[0] in FeeLegs(newAccount, p, later);
        assert Legs(y).value[0] in events;
      } else {
        FeeEntriesCompared(feeAccount, newAccount, p, later);
        var x := FeeEntry(feeAccount, p, later);
        OneEntry(x);
        if Trim(feeAccount) != Trim(newAccount) {
          EntryFacts(x);
          OneCounterparty(after, x, y);
          assert Legs(x).value[0] in again.value && Legs(x).value[1] in again.value;
        }
      }
    }
  }

  lemma FeeEntriesCompared(f: string, g: string, p: Payload, now: Time)
    ensures var x, y := FeeEntry(f, p, now), FeeEntry(g, p, now);
            && x.paymentID == y.paymentID && x.leg == y.leg
            && (Trim(f) == Trim(g) ==> x == y)
            && (Trim(f) != Trim(g) ==>
                  (Trim(x.a) == Trim(y.a) && Trim(x.b) != Trim(y.b)) || (Trim(x.b) == Trim(y.b) && Trim(x.a) != Trim(y.a)))
  {
    hide Text.Trim, Text.Trimmed, ClearingAccount, HoldAccount, Resolve, Text.Currency;
  }

  // ---------------------------------------------------------------- refund and chargeback

  /** Two reversals of one payment, on the same terms. */
  predicate SameReversals(q: Payload, r: Payload) {
    && q.OnReversed? && r.OnReversed? && IDOf(q) == IDOf(r)
    && Trim(q.reversed.creditAccount) == Trim(r.reversed.creditAccount)
    && Lower(Trim(q.reversed.clearingKey)) == Lower(Trim(r.reversed.clearingKey))
    && Currency(q.reversed.currency) == Currency(r.reversed.currency)
    && q.reversed.amount == r.reversed.amount && q.reversed.feeAmount == r.reversed.feeAmount
  }

  lemma ReversalsCompared(feeAccount: string, q: Payload, now: Time, r: Payload, later: Time)
    requires SameReversals(q, r)
    ensures forall id, c :: PayloadMoves(feeAccount, q, id, c) == PayloadMoves(feeAccount, r, id, c)
    ensures BooksFee(feeAccount, q) <==> BooksFee(feeAccount, r)
    ensures q.reversed.reversal == r.reversed.reversal ==>
              && Principal(q, now).(at := ZERO_TIME) == Principal(r, later).(at := ZERO_TIME)
              && FeeEntry(feeAccount, q, now).(at := ZERO_TIME) == FeeEntry(feeAccount, r, later).(at := ZERO_TIME)
  {
    hide Text.Trim, Text.Trimmed, Text.Lower, Text.Currency, ClearingAccount, Resolve;
    ClearingByKey(q.reversed.clearingKey, r.reversed.clearingKey);
  }

  /** Two reversals of one kind build the same batch, up to booked times. */
  lemma SameKindSameBatch(feeAccount: string, q: Payload, now: Time, r: Payload, later: Time)
    requires SameReversals(q, r) && q.reversed.reversal == r.reversed.reversal
    requires EventsOfPayload(feeAccount, q, now).Ok? && EventsOfPayload(feeAccount, r, later).Ok?
    ensures SameBatch(EventsOfPayload(feeAccount, q, now).value, EventsOfPayload(feeAccount, r, later).value)
  {
    hide EventsOfPayload, Principal, FeeEntry, Legs, SameDelivery, BooksFee, PayloadMoves, SameReversals, BooksLegs;
    ReversalsCompared(feeAccount, q, now, r, later);
    PayloadIsEntries(feeAccount, q, now);
    PayloadIsEntries(feeAccount, r, later);
    AreReversals(q, r);
    EntryAtAnyTime(Principal(q, now), Principal(r, later));
    if BooksFee(feeAccount, q) {
      EntryAtAnyTime(FeeEntry(feeAccount, q, now), FeeEntry(feeAccount, r, later));
      SameBatchJoins(Legs(Principal(q, now)).value, Legs(FeeEntry(feeAccount, q, now)).value,
                     Legs(Principal(r, later)).value, Legs(FeeEntry(feeAccount, r, later)).value);
    }
  }

  /**
   A second reversal of a payment is absorbed if and only if it is of the same kind as the first. A chargeback after a
   refund (or a refund after a chargeback) of which nothing is booked yet takes the same money back again.
   */
  lemma ReversedOncePerKind(rows: Rows, feeAccount: string, q: Payload, now: Time, commands: seq<Command>, r: Payload, later: Time)
    requires GoodStore(rows) && AllLegal(commands) && SameReversals(q, r)
    requires EventsOfPayload(feeAccount, q, now).Ok? && Record(rows, EventsOfPayload(feeAccount, q, now).value).result.Ok?
    requires EventsOfPayload(feeAccount, r, later).Ok?
    requires q.reversed.reversal != r.reversed.reversal ==>
               NothingBooked(Run(Record(rows, EventsOfPayload(feeAccount, q, now).value).rows, commands),
                             EventsOfPayload(feeAccount, r, later).value)
    ensures var after := Run(Record(rows, EventsOfPayload(feeAccount, q, now).value).rows, commands);
            var out := Record(after, EventsOfPayload(feeAccount, r, later).value);
            && out.result == Ok(())
            && (out.rows == after <==> q.reversed.reversal == r.reversed.reversal)
            && (q.reversed.reversal != r.reversed.reversal ==> forall id, c ::
                  BalanceIn(out.rows, id, c) == BalanceIn(after, id, c) + PayloadMoves(feeAccount, q, id, c))
  {
    hide EventsOfPayload, Stores.GoodStore, Ledger.Record, SameBatch, Legal, Step, SameReversals, BalanceIn, PayloadMoves, NothingBooked,
         OnlyAdds, Keeps, BookedOn, Commits, Grows;
    var first, second := EventsOfPayload(feeAccount, q, now).value, EventsOfPayload(feeAccount, r, later).value;
    var after := Run(Record(rows, first).rows, commands);
    assert q.OnReversed? && r.OnReversed? by { AreReversals(q, r); }
    if q.reversed.reversal == r.reversed.reversal {
      SameKindSameBatch(feeAccount, q, now, r, later);
      BatchExactlyOnce(rows, first, commands, second);
    } else {
      RecordEffect(rows, first);
      RunGrows(Record(rows, first).rows, commands);
      ReversalsCompared(feeAccount, q, now, r, later);
      assert Delivered(Grpc, feeAccount, r, later) == EventsOfPayload(feeAccount, r, later);
      FreshDelivery(after, feeAccount, r, Grpc, later);
    }
  }

  lemma AreReversals(q: Payload, r: Payload)
    requires SameReversals(q, r)
    ensures q.OnReversed? && r.OnReversed? && BooksLegs(q) && BooksLegs(r)
  {
    hide Text.Trim, Text.Trimmed;
  }

  /** The store after a payment event and a further run. */
  function AfterPayload(rows: Rows, feeAccount: string, p: Payload, now: Time, commands: seq<Command>): Rows
    requires EventsOfPayload(feeAccount, p, now).Ok?
  {
    Run(Record(rows, EventsOfPayload(feeAccount, p, now).value).rows, commands)
  }

  /** By how much storing the batch of a payment event changes a balance. */
  function Change(rows: Rows, feeAccount: string, p: Payload, now: Time, id: string, c: string): int
    requires EventsOfPayload(feeAccount, p, now).Ok?
  {
    BalanceIn(Record(rows, EventsOfPayload(feeAccount, p, now).value).rows, id, c) - BalanceIn(rows, id, c)
  }

  /**
   A payment succeeds, and is later both refunded and charged back, in either order, with anything else happening in
   between: if nothing of each event was booked when it came, all three are booked, and together they change every
   account as if the payment had run backwards once.
   */
  lemma RefundAndChargeback(rows: Rows, feeAccount: string, p: Payload, t: Time, before: seq<Command>,
                            q: Payload, u: Time, between: seq<Command>, r: Payload, v: Time)
    requires GoodStore(rows) && AllLegal(before) && AllLegal(between)
    requires SameReversals(q, r) && q.reversed.reversal != r.reversed.reversal
    requires p.OnSucceeded? && SameTerms(p, q) && Undoable(p, q)
    requires EventsOfPayload(feeAccount, p, t).Ok? && EventsOfPayload(feeAccount, q, u).Ok? && EventsOfPayload(feeAccount, r, v).Ok?
    requires NothingBooked(rows, EventsOfPayload(feeAccount, p, t).value)
    requires NothingBooked(AfterPayload(rows, feeAccount, p, t, before), EventsOfPayload(feeAccount, q, u).value)
    requires NothingBooked(AfterPayload(AfterPayload(rows, feeAccount, p, t, before), feeAccount, q, u, between),
                           EventsOfPayload(feeAccount, r, v).value)
    ensures var one := AfterPayload(rows, feeAccount, p, t, before);
            var two := AfterPayload(one, feeAccount, q, u, between);
            && Record(rows, EventsOfPayload(feeAccount, p, t).value).result == Ok(())
            && Record(one, EventsOfPayload(feeAccount, q, u).value).result == Ok(())
            && Record(two, EventsOfPayload(feeAccount, r, v).value).result == Ok(())
            && forall id, c ::
                 Change(rows, feeAccount, p, t, id, c) + Change(one, feeAccount, q, u, id, c) + Change(two, feeAccount, r, v, id, c)
                 == -PayloadMoves(feeAccount, p, id, c)
  {
    hide EventsOfPayload, Stores.GoodStore, Ledger.Record, SameReversals, BalanceIn, PayloadMoves, NothingBooked, Undoable, SameTerms,
         BooksLegs, Run, Grows, Legal;
    AreReversals(q, r);
    BooksWhenUndoable(p, q);
    var one := AfterPayload(rows, feeAccount, p, t, before);
    FreshPayload(rows, feeAccount, p, t);
    RunGrows(Record(rows, EventsOfPayload(feeAccount, p, t).value).rows, before);
    FreshPayload(one, feeAccount, q, u);
    RunGrows(Record(one, EventsOfPayload(feeAccount, q, u).value).rows, between);
    FreshPayload(AfterPayload(one, feeAccount, q, u, between), feeAccount, r, v);
    ReversalsCompared(feeAccount, q, u, r, v);
    ReversalMovesBack(feeAccount, p, t, q, u);
  }

  /** The same in a store that knows none of the three, with nothing in between. */
  lemma RefundAndChargebackAtOnce(rows: Rows, feeAccount: string, p: Payload, q: Payload, r: Payload, now: Time)
    requires GoodStore(rows) && SameReversals(q, r) && q.reversed.reversal != r.reversed.reversal
    requires p.OnSucceeded? && SameTerms(p, q) && Undoable(p, q)
    requires EventsOfPayload(feeAccount, p, now).Ok? && NothingBooked(rows, EventsOfPayload(feeAccount, p, now).value)
    requires EventsOfPayload(feeAccount, q, now).Ok? && NothingBooked(rows, EventsOfPayload(feeAccount, q, now).value)
    requires EventsOfPayload(feeAccount, r, now).Ok? && NothingBooked(rows, EventsOfPayload(feeAccount, r, now).value)
    ensures var one := Record(rows, EventsOfPayload(feeAccount, p, now).value);
            var two := Record(one.rows, EventsOfPayload(feeAccount, q, now).value);
            var three := Record(two.rows, EventsOfPayload(feeAccount, r, now).value);
            && three.result == Ok(())
            && forall id, c :: BalanceIn(three.rows, id, c) == BalanceIn(rows, id, c) - PayloadMoves(feeAccount, p, id, c)
  {
    hide EventsOfPayload, Stores.GoodStore, Ledger.Record, SameReversals, BalanceIn, PayloadMoves, NothingBooked, Undoable, SameTerms,
         BooksLegs, Apart;
    AreReversals(q, r);
    ThreeApart(p, q, r);
    BooksWhenUndoable(p, q);
    var one := Record(rows, EventsOfPayload(feeAccount, p, now).value).rows;
    FreshPayload(rows, feeAccount, p, now);
    ApartStaysUnbooked(rows, feeAccount, p, now, q, now);
    ApartStaysUnbooked(rows, feeAccount, p, now, r, now);
    FreshPayload(one, feeAccount, q, now);
    ApartStaysUnbooked(one, feeAccount, q, now, r, now);
    RefundAndChargeback(rows, feeAccount, p, now, [], q, now, [], r, now);
    forall id, c
      ensures BalanceIn(Record(Record(one, EventsOfPayload(feeAccount, q, now).value).rows, EventsOfPayload(feeAccount, r, now).value).rows, id, c)
           == BalanceIn(rows, id, c) - PayloadMoves(feeAccount, p, id, c)
    {
      var two := AfterPayload(one, feeAccount, q, now, []);
      assert Change(rows, feeAccount, p, now, id, c) + Change(one, feeAccount, q, now, id, c) + Change(two, feeAccount, r, now, id, c)
          == -PayloadMoves(feeAccount, p, id, c);
    }
  }

  lemma FreshPayload(rows: Rows, feeAccount: string, p: Payload, now: Time)
    requires GoodStore(rows) && BooksLegs(p) && !p.OnWithdrawal? && EventsOfPayload(feeAccount, p, now).Ok?
    requires NothingBooked(rows, EventsOfPayload(feeAccount, p, now).value)
    ensures var out := Record(rows, EventsOfPayload(feeAccount, p, now).value);
            && out.result == Ok(()) && GoodStore(out.rows)
            && forall id, c :: BalanceIn(out.rows, id, c) == BalanceIn(rows, id, c) + PayloadMoves(feeAccount, p, id, c)
  {
    hide EventsOfPayload, Stores.GoodStore, Ledger.Record, BalanceIn, PayloadMoves, NothingBooked, BooksLegs, OnlyAdds, Keeps, BookedOn,
         Commits, Reserved;
    assert Delivered(Grpc, feeAccount, p, now) == EventsOfPayload(feeAccount, p, now);
    FreshDelivery(rows, feeAccount, p, Grpc, now);
    RecordEffect(rows, EventsOfPayload(feeAccount, p, now).value);
  }

  lemma ThreeApart(p: Payload, q: Payload, r: Payload)
    requires p.OnSucceeded? && SameReversals(q, r) && q.reversed.reversal != r.reversed.reversal
    ensures Apart(p, q) && Apart(p, r) && Apart(q, r)
  {
    hide Text.Trim, Text.Trimmed, ClearingAccount, IDOf, Text.Currency, Text.Lower, Resolve;
  }

  lemma BooksWhenUndoable(p: Payload, q: Payload)
    requires p.OnSucceeded? && Undoable(p, q)
    ensures BooksLegs(p)
  {
    hide IsWithdrawal, SpellsWithdrawal, Text.Trim, Text.Trimmed;
  }

  lemma ReversalMovesBack(feeAccount: string, p: Payload, now: Time, q: Payload, later: Time)
    requires SameTerms(p, q) && Undoable(p, q)
    requires EventsOfPayload(feeAccount, p, now).Ok? && EventsOfPayload(feeAccount, q, later).Ok?
    ensures forall id, c :: PayloadMoves(feeAccount, q, id, c) == -PayloadMoves(feeAccount, p, id, c)
  {
    hide EventsOfPayload, SameTerms, Undoable, PayloadMoves, PayloadDelta, BatchDelta, WellBuilt, Ledger.AccountsOf, PayloadAccounts, Guarded;
    ReversalNetsToZero(feeAccount, p, q, now, later);
    PayloadFacts(feeAccount, p, now);
    PayloadFacts(feeAccount, q, later);
    forall id, c ensures PayloadMoves(feeAccount, q, id, c) == -PayloadMoves(feeAccount, p, id, c) {
      PayloadMovesExactly(feeAccount, p, now, id, c);
      PayloadMovesExactly(feeAccount, q, later, id, c);
      assert PayloadDelta(feeAccount, p, id, c) + PayloadDelta(feeAccount, q, id, c) == 0;
    }
  }
}
