/** What a transfer, with or without a fee, does to the accounts it names. */
module Transfers {
  import opened Text
  import opened Postings
  import opened Accounts
  import opened Stores
  import opened Entities
  import opened Ledger
  import opened Batches

  /** A booking whose fields are normalised, as NewTransferBooking makes it. */
  predicate GoodBooking(b: TransferBooking) {
    && IsID(b.from) && IsID(b.to) && b.from != b.to
    && Trimmed(b.currency) && IsUpper(b.currency) && b.currency != ""
    && b.amount > 0
  }

  predicate GoodPlan(plan: Plan) {
    && IsID(plan.transactionID) && IsID(FeeID(plan.transactionID)) && GoodBooking(plan.booking)
    && (plan.fee.Fee? ==>
          && GoodBooking(plan.fee.booking)
          && plan.fee.booking.from == plan.booking.from
          && plan.fee.booking.currency == plan.booking.currency)
  }

  lemma BookingIsGood(from: string, to: string, currency: string, amount: int)
    requires NewTransferBooking(from, to, currency, amount).Ok?
    ensures GoodBooking(NewTransferBooking(from, to, currency, amount).value)
  {
    hide Text.Trim, Text.Trimmed, Text.Currency, Text.IsUpper;
  }

  lemma FeeIDIsID(tx: string)
    requires IsID(tx)
    ensures IsID(FeeID(tx)) && FeeID(tx) != tx
  {
    JoinTrimmed(tx, ":fee");
  }

  lemma FeeIDReads(tx: string)
    ensures FeeID(tx) == tx + ":fee"
  {
  }

  lemma PlanIsGood(cmd: TransferCommand)
    requires PlanTransfer(cmd).Ok?
    ensures GoodPlan(PlanTransfer(cmd).value)
  {
    hide Text.Trim, Text.Trimmed, Text.Currency, Text.IsUpper, FeeID, GoodBooking;
    FeeIDIsID(Trim(cmd.transactionID));
    BookingIsGood(cmd.from, cmd.to, cmd.currency, cmd.amount);
    if cmd.feeAmount > 0 {
      BookingIsGood(cmd.from, cmd.feeAccount, cmd.currency, cmd.feeAmount);
    }
  }

  /** The postings of the two sides of a booking: mirror images under one transaction id. */
  function OutPosting(tx: string, b: TransferBooking, now: Time): Posting {
    Posting(tx, InternalTransfer, tx, b.to, b.currency, -b.amount, now)
  }

  function InPosting(tx: string, b: TransferBooking, now: Time): Posting {
    Posting(tx, InternalTransfer, tx, b.from, b.currency, b.amount, now)
  }

  lemma BookingPreviews(tx: string, b: TransferBooking, now: Time)
    requires IsID(tx) && GoodBooking(b) && now != ZERO_TIME
    ensures var e := BookingEvents(tx, b, now);
            && AccountOf(e[0]) == b.from && AccountOf(e[1]) == b.to
            && AccountsOf(e) == {b.from, b.to}
            && Preview(b.from, e[0].data) == Ok(OutPosting(tx, b, now))
            && Preview(b.to, e[1].data) == Ok(InPosting(tx, b, now))
  {
    hide Text.Trim, Text.Trimmed, Text.Currency, Text.IsUpper;
    var e := BookingEvents(tx, b, now);
    assert AccountOf(e[0]) == b.from && AccountOf(e[1]) == b.to;
    assert e == [e[0], e[1]];
  }

  lemma PlanAccounts(plan: Plan, now: Time)
    requires GoodPlan(plan) && now != ZERO_TIME
    ensures AccountsOf(PlanEvents(plan, now)) ==
            {plan.booking.from, plan.booking.to} + if plan.fee.NoFee? then {} else {plan.fee.booking.to}
    ensures forall id | id in AccountsOf(PlanEvents(plan, now)) :: IsID(id)
  {
    hide Accounts.IsID, GoodBooking, Ledger.AccountOf, Ledger.AccountsOf, BookingEvents, FeeID, Postings.Preview, Postings.WellFormed;
    BookingPreviews(plan.transactionID, plan.booking, now);
    var a := BookingEvents(plan.transactionID, plan.booking, now);
    assert IsID(plan.booking.from) && IsID(plan.booking.to) by { GoodBookingIDs(plan.booking); }
    if plan.fee.Fee? {
      BookingPreviews(FeeID(plan.transactionID), plan.fee.booking, now);
      GoodBookingIDs(plan.fee.booking);
      AccountsOfJoin(a, BookingEvents(FeeID(plan.transactionID), plan.fee.booking, now));
    } else {
      assert a + [] == a;
    }
  }

  lemma GoodBookingIDs(b: TransferBooking)
    requires GoodBooking(b)
    ensures IsID(b.from) && IsID(b.to)
  {
    hide Accounts.IsID;
  }

  lemma AccountsOfJoin(a: seq<Event>, b: seq<Event>)
    ensures AccountsOf(a + b) == AccountsOf(a) + AccountsOf(b)
  {
    hide Ledger.AccountOf;
  }

  /** Booking one list of events and then another is booking their concatenation. */
  lemma {:induction false} BookAllJoins(live: Lives, a: seq<Event>, b: seq<Event>)
    requires AccountsOf(a) <= live.Keys && AccountsOf(b) <= live.Keys && AccountsOf(a + b) <= live.Keys
    ensures BookAll(live, a + b) ==
            match BookAll(live, a)
            case Err(e) => Err(e)
            case Ok((m, k)) =>
              match BookAll(m, b)
              case Err(e) => Err(e)
              case Ok((d, j)) => Ok((d, k + j))
  {
    hide Accounts.Book, Ledger.AccountOf, Ledger.AccountsOf;
    if b == [] {
      assert a + b == a;
    } else {
      var n := |b| - 1;
      AccountsOfStep(b);
      AccountsOfStep(a + b);
      assert (a + b)[..|a + b| - 1] == a + b[..n];
      assert (a + b)[|a + b| - 1] == b[n];
      BookAllJoins(live, a, b[..n]);
    }
  }

  lemma BookOne(live: Lives, e: Event)
    requires AccountOf(e) in live
    ensures AccountsOf([e]) <= live.Keys
    ensures BookAll(live, [e]) ==
            match Book(live[AccountOf(e)], e.data)
            case Err(x) => Err(x)
            case Ok((l, applied)) => Ok((live[AccountOf(e) := l], if applied then 1 else 0))
  {
    hide Accounts.Book, Ledger.AccountOf;
    assert [e][..0] == [];
    assert BookAll(live, [e][..0]) == Ok((live, 0));
  }

  /** By how much one booking moves account id in currency c. */
  function BookingMoves(b: TransferBooking, id: string, c: string): int {
    if c != b.currency then 0 else if id == b.from then -b.amount else if id == b.to then b.amount else 0
  }

  /** The transfer's two events, read by the accounts' own commands. */
  lemma BookingReads(tx: string, b: TransferBooking, now: Time)
    requires IsID(tx) && GoodBooking(b) && now != ZERO_TIME
    ensures var e := BookingEvents(tx, b, now);
            && AccountOf(e[0]) == b.from && AccountOf(e[1]) == b.to
            && TransferOutPosting(b.from, tx, b.to, b.currency, b.amount, now) == Ok(OutPosting(tx, b, now))
            && TransferInPosting(b.to, tx, b.from, b.currency, b.amount, now) == Ok(InPosting(tx, b, now))
  {
    hide Text.Trim, Text.Trimmed, Text.Currency, Text.IsUpper;
    BookingPreviews(tx, b, now);
  }

  /** Booking the two events of a booking, one side after the other. */
  lemma BookTwo(live: Lives, tx: string, b: TransferBooking, now: Time)
    requires IsID(tx) && GoodBooking(b) && now != ZERO_TIME && b.from in live && b.to in live
    requires AccountsOf(BookingEvents(tx, b, now)) <= live.Keys
    ensures b.from != b.to
    ensures var e := BookingEvents(tx, b, now);
            BookAll(live, e) ==
            match Book(live[b.from], e[0].data)
            case Err(x) => Err(x)
            case Ok((l, sent)) =>
              match Book(live[b.to], e[1].data)
              case Err(x) => Err(x)
              case Ok((m, received)) =>
                Ok((live[b.from := l][b.to := m], (if sent then 1 else 0) + (if received then 1 else 0)))
  {
    var e := BookingEvents(tx, b, now);
    BookingReads(tx, b, now);
    assert b.from != b.to;
    hide Accounts.IsID, GoodBooking, Accounts.Book, Ledger.BookAll, Ledger.AccountOf;
    assert e == [e[0]] + [e[1]];
    BookOne(live, e[0]);
    BookOne(live, e[1]);
    BookAllJoins(live, [e[0]], [e[1]]);
    if Book(live[b.from], e[0].data).Ok? {
      BookOne(BookAll(live, [e[0]]).value.0, e[1]);
    }
  }

  /** The two sides of a booking under an id the account does not have: sending needs the funds, receiving nothing. */
  lemma BookSides(l: Live, tx: string, b: TransferBooking, now: Time)
    requires IsID(tx) && GoodBooking(b) && now != ZERO_TIME && tx !in l.state.posted
    ensures var e := BookingEvents(tx, b, now);
            && (l.id == b.from ==>
                  Book(l, e[0].data) == if Bal(l.state, b.currency) < b.amount then Err(InsufficientFunds)
                                        else Ok((Grown(l, e[0].data, OutPosting(tx, b, now)), true)))
            && (l.id == b.to ==> Book(l, e[1].data) == Ok((Grown(l, e[1].data, InPosting(tx, b, now)), true)))
  {
    assert Currency(b.currency) == b.currency && b.amount > 0;
    hide Accounts.IsID, GoodBooking, Postings.Preview, Postings.WellFormed, Ledger.AccountOf, Text.Currency;
    BookingPreviews(tx, b, now);
  }

  /** The live account with one more pending event and its posting. */
  function Grown(l: Live, data: EventData, p: Posting): Live {
    Live(l.id, l.base, l.pending + [Event(l.id, l.base + |l.pending| + 1, data)], Post(l.state, l.id, p))
  }

  /** Booking both sides of a booking under an id neither account has: it needs the funds and nothing else. */
  lemma BookBooking(live: Lives, tx: string, b: TransferBooking, now: Time)
    requires IsID(tx) && GoodBooking(b) && now != ZERO_TIME
    requires b.from in live && b.to in live && live[b.from].id == b.from && live[b.to].id == b.to
    requires tx !in live[b.from].state.posted && tx !in live[b.to].state.posted
    ensures AccountsOf(BookingEvents(tx, b, now)) <= live.Keys
    ensures b.from != b.to
    ensures var e := BookingEvents(tx, b, now);
            BookAll(live, e) ==
            if Bal(live[b.from].state, b.currency) < b.amount then Err(InsufficientFunds)
            else Ok((live[b.from := Grown(live[b.from], e[0].data, OutPosting(tx, b, now))]
                         [b.to := Grown(live[b.to], e[1].data, InPosting(tx, b, now))], 2))
  {
    hide Accounts.IsID, GoodBooking, Postings.Preview, Postings.WellFormed, Ledger.AccountOf, Ledger.AccountsOf, Accounts.Book,
         Ledger.BookAll, Grown;
    BookingDiffers(b);
    BookingPreviews(tx, b, now);
    BookTwo(live, tx, b, now);
    BookSides(live[b.from], tx, b, now);
    BookSides(live[b.to], tx, b, now);
  }

  /** What a booking under the id `tx` did to one account. */
  ghost predicate MovedOne(l: Live, m: Live, b: TransferBooking, tx: string) {
    && m.id == l.id && m.base == l.base && |m.pending| <= |l.pending| + 1
    && m.state.posted.Keys <= l.state.posted.Keys + {tx}
    && forall c :: Bal(m.state, c) == Bal(l.state, c) + BookingMoves(b, l.id, c)
  }

  ghost predicate Moved(live: Lives, done: Lives, b: TransferBooking, tx: string) {
    done.Keys == live.Keys && forall id | id in live :: MovedOne(live[id], done[id], b, tx)
  }

  lemma BookBookingMoves(live: Lives, tx: string, b: TransferBooking, now: Time)
    requires IsID(tx) && GoodBooking(b) && now != ZERO_TIME
    requires b.from in live && b.to in live && forall id | id in live :: live[id].id == id
    requires tx !in live[b.from].state.posted && tx !in live[b.to].state.posted
    requires Bal(live[b.from].state, b.currency) >= b.amount
    ensures AccountsOf(BookingEvents(tx, b, now)) <= live.Keys
    ensures BookAll(live, BookingEvents(tx, b, now)).Ok? && BookAll(live, BookingEvents(tx, b, now)).value.1 == 2
    ensures Moved(live, BookAll(live, BookingEvents(tx, b, now)).value.0, b, tx)
  {
    hide Ledger.BookAll, Ledger.AccountsOf, BookingEvents, Accounts.IsID, GoodBooking;
    BookBooking(live, tx, b, now);
    BookingDiffers(b);
  }

  lemma BookingDiffers(b: TransferBooking)
    requires GoodBooking(b)
    ensures b.from != b.to && b.amount > 0 && IsID(b.from) && IsID(b.to)
  {
    hide Accounts.IsID;
  }

  // ---------------------------------------------------------------- duplicates

  predicate Unbooked(live: Lives, e: Event) {
    && AccountOf(e) in live && Preview(AccountOf(e), e.data).Ok?
    && PostingOf(e).transactionID !in live[AccountOf(e)].state.posted
  }

  predicate Booked(live: Lives, e: Event) { AccountOf(e) in live && BookedOn(live[AccountOf(e)].state, e) }

  /** None of the events is booked under its transaction id yet. */
  predicate NoneBooked(live: Lives, events: seq<Event>) { forall e | e in events :: Unbooked(live, e) }

  predicate AllBooked(live: Lives, events: seq<Event>) { forall e | e in events :: Booked(live, e) }

  /** The two clean answers of the duplicate check: no event is known, or every event is. */
  lemma {:induction false} MatchedMeans(live: Lives, events: seq<Event>)
    requires AccountsOf(events) <= live.Keys
    ensures Matched(live, events) == Ok(0) <==> NoneBooked(live, events)
    ensures Matched(live, events) == Ok(|events|) <==> AllBooked(live, events)
  {
    hide Ledger.AccountsOf, Unbooked, Booked, Ledger.AccountOf, Ledger.Matched;
    if events == [] {
      MatchedNone(live, events);
    } else {
      var n := |events| - 1;
      AccountsOfStep(events);
      MatchedMeans(live, events[..n]);
      MatchedStep(live, events);
      assert forall e :: e in events <==> e in events[..n] || e == events[n] by {
        assert events == events[..n] + [events[n]];
      }
    }
  }

  lemma MatchedNone(live: Lives, events: seq<Event>)
    requires events == []
    ensures AccountsOf(events) == {} && Matched(live, events) == Ok(0)
  {
  }

  lemma MatchedOneMeans(live: Lives, e: Event)
    requires AccountOf(e) in live
    ensures MatchedOne(live, e) == Ok(0) <==> Unbooked(live, e)
    ensures MatchedOne(live, e) == Ok(1) <==> Booked(live, e)
  {
    hide Ledger.AccountOf, Postings.Same, Postings.Preview, Postings.WellFormed;
  }

  lemma MatchedStep(live: Lives, events: seq<Event>)
    requires events != [] && AccountsOf(events) <= live.Keys && AccountsOf(events[..|events| - 1]) <= live.Keys
    ensures var n := |events| - 1;
            match Matched(live, events[..n])
            case Err(e) => Matched(live, events) == Err(e)
            case Ok(count) =>
              && (Unbooked(live, events[n]) <==> Matched(live, events) == Ok(count))
              && (Booked(live, events[n]) <==> Matched(live, events) == Ok(count + 1))
              && (Matched(live, events).Ok? ==> count <= Matched(live, events).value <= count + 1)
  {
    hide Ledger.AccountOf, Ledger.AccountsOf, Unbooked, Booked, MatchedOne;
    AccountsOfStep(events);
    MatchedOneMeans(live, events[|events| - 1]);
  }

  // ---------------------------------------------------------------- the effect of a fresh transfer

  function FeeOf(plan: Plan): int { if plan.fee.NoFee? then 0 else plan.fee.booking.amount }

  /** By how much the transfer moves account id in currency c. */
  function Moves(plan: Plan, id: string, c: string): int {
    if c != plan.booking.currency then 0 else
      (if id == plan.booking.from then -(plan.booking.amount + FeeOf(plan)) else 0)
      + (if id == plan.booking.to then plan.booking.amount else 0)
      + (if plan.fee.Fee? && id == plan.fee.booking.to then FeeOf(plan) else 0)
  }

  /**
   Booking a fresh transfer: it passes exactly when the sender can pay amount and fee together, every
   event is then new, and each account moves as `Moves` says. No account gets more than two events.
   */
  lemma BookPlan(live: Lives, plan: Plan, now: Time)
    requires GoodPlan(plan) && now != ZERO_TIME
    requires live.Keys == AccountsOf(PlanEvents(plan, now)) && forall id | id in live :: live[id].id == id && live[id].pending == []
    requires NoneBooked(live, PlanEvents(plan, now))
    ensures plan.booking.from in live
    ensures var r := BookAll(live, PlanEvents(plan, now));
            if Bal(live[plan.booking.from].state, plan.booking.currency) < plan.booking.amount + FeeOf(plan)
            then r == Err(InsufficientFunds)
            else
              && r.Ok? && r.value.1 == |PlanEvents(plan, now)|
              && (forall id | id in live :: r.value.0[id].id == id && r.value.0[id].base == live[id].base
                                            && |r.value.0[id].pending| <= 2)
              && forall id, c | id in live :: Bal(r.value.0[id].state, c) == Bal(live[id].state, c) + Moves(plan, id, c)
  {
    hide Accounts.IsID, GoodBooking, Ledger.BookAll, Ledger.AccountsOf, BookingEvents, FeeID, NoneBooked, Accounts.Bal, Grown;
    var tx, b := plan.transactionID, plan.booking;
    var a := BookingEvents(tx, b, now);
    PlanAccounts(plan, now);
    PlanIsFresh(live, plan, now);
    BookBooking(live, tx, b, now);
    if Bal(live[b.from].state, b.currency) >= b.amount {
      BookBookingMoves(live, tx, b, now);
    }
    if plan.fee.NoFee? {
      assert PlanEvents(plan, now) == a;
    } else {
      var f := plan.fee.booking;
      var g := BookingEvents(FeeID(tx), f, now);
      FeeIDIsID(tx);
      BookingDiffers(f);
      AccountsOfJoin(a, g);
      BookAllJoins(live, a, g);
      if Bal(live[b.from].state, b.currency) >= b.amount {
        BookFee(live, BookAll(live, a).value.0, plan, now);
      }
    }
  }

  /** The fee of a transfer, booked on accounts on which the transfer itself was just booked. */
  lemma BookFee(live: Lives, mid: Lives, plan: Plan, now: Time)
    requires GoodPlan(plan) && now != ZERO_TIME && plan.fee.Fee?
    requires Moved(live, mid, plan.booking, plan.transactionID)
    requires forall id | id in live :: live[id].id == id && live[id].pending == []
    requires plan.booking.from in live && plan.fee.booking.to in live
    requires FeeID(plan.transactionID) !in live[plan.booking.from].state.posted
    requires FeeID(plan.transactionID) !in live[plan.fee.booking.to].state.posted
    requires AccountsOf(BookingEvents(FeeID(plan.transactionID), plan.fee.booking, now)) <= live.Keys
    ensures var f := plan.fee.booking;
            var r := BookAll(mid, BookingEvents(FeeID(plan.transactionID), f, now));
            if Bal(live[f.from].state, f.currency) < plan.booking.amount + f.amount then r == Err(InsufficientFunds)
            else
              && r.Ok? && r.value.1 == 2
              && (forall id | id in live :: r.value.0[id].id == id && r.value.0[id].base == live[id].base
                                            && |r.value.0[id].pending| <= 2)
              && forall id, c | id in live :: Bal(r.value.0[id].state, c) == Bal(live[id].state, c) + Moves(plan, id, c)
  {
    hide Accounts.IsID, GoodBooking, Ledger.BookAll, Ledger.AccountsOf, BookingEvents, FeeID, Accounts.Bal, Grown;
    var f, b := plan.fee.booking, plan.booking;
    FeeIDIsID(plan.transactionID);
    BookingDiffers(b);
    BookingDiffers(f);
    assert MovedOne(live[b.from], mid[b.from], b, plan.transactionID);
    BookBooking(mid, FeeID(plan.transactionID), f, now);
    if Bal(mid[b.from].state, b.currency) >= f.amount {
      BookBookingMoves(mid, FeeID(plan.transactionID), f, now);
    }
  }

  lemma PlanIsFresh(live: Lives, plan: Plan, now: Time)
    requires GoodPlan(plan) && now != ZERO_TIME
    requires NoneBooked(live, PlanEvents(plan, now))
    ensures plan.booking.from in live && plan.booking.to in live
    ensures plan.transactionID !in live[plan.booking.from].state.posted
    ensures plan.transactionID !in live[plan.booking.to].state.posted
    ensures |PlanEvents(plan, now)| == if plan.fee.NoFee? then 2 else 4
    ensures plan.fee.Fee? ==>
              && plan.fee.booking.to in live
              && FeeID(plan.transactionID) !in live[plan.booking.from].state.posted
              && FeeID(plan.transactionID) !in live[plan.fee.booking.to].state.posted
  {
    hide Text.Trim, Text.Trimmed, Text.IsUpper, Postings.Preview, Ledger.AccountOf, FeeID;
    var events := PlanEvents(plan, now);
    BookingPreviews(plan.transactionID, plan.booking, now);
    assert events[0] in events && events[1] in events;
    if plan.fee.Fee? {
      BookingPreviews(FeeID(plan.transactionID), plan.fee.booking, now);
      assert events[2] in events && events[3] in events;
    }
  }

  lemma FewMilestones(live: Lives)
    requires forall id | id in live :: |live[id].pending| <= 2
    ensures !SnapshotClash(live)
  {
  }

  /** The balance of an account of the store. */
  function BalanceIn(rows: Rows, id: string, c: string): int { Bal(StateOf(RowOf(rows, id)), c) }

  /** The accounts a plan works on, as they were loaded. */
  function PlanLives(rows: Rows, plan: Plan, now: Time): Lives { LoadAll(rows, AccountsOf(PlanEvents(plan, now))) }

  /** What the transaction of a transfer of which nothing is booked yet does. */
  lemma FreshTransferMoves(rows: Rows, plan: Plan, now: Time)
    requires GoodStore(rows) && GoodPlan(plan) && now != ZERO_TIME
    requires NoneBooked(PlanLives(rows, plan, now), PlanEvents(plan, now))
    ensures var out := TransferPlan(rows, plan, now);
            if BalanceIn(rows, plan.booking.from, plan.booking.currency) < plan.booking.amount + FeeOf(plan)
            then out == Outcome(rows, Err(InsufficientFunds))
            else out.result == Ok(()) && GoodStore(out.rows)
                 && forall id, c :: BalanceIn(out.rows, id, c) == BalanceIn(rows, id, c) + Moves(plan, id, c)
  {
    hide Text.Trim, Text.Trimmed, Text.IsUpper, Postings.Preview, Ledger.BookAll, Ledger.AccountsOf, Ledger.AccountOf,
         Ledger.PlanEvents, GoodPlan, Stores.StateOf, NoneBooked, Ledger.Matched, Stores.GoodStore, Accounts.InStep,
         Ledger.Saved, Accounts.Bal, Started;
    var events, live := PlanEvents(plan, now), PlanLives(rows, plan, now);
    MatchedMeans(live, events);
    PlanAccounts(plan, now);
    PlanHasEvents(plan, now);
    LoadAllStarted(rows, AccountsOf(events));
    BookPlan(live, plan, now);
    if BookAll(live, events).Ok? {
      BookAllStarted(rows, live, events);
      var done := BookAll(live, events).value.0;
      SavedIsGood(rows, done, done.Keys);
      forall id, c
        ensures BalanceIn(Saved(rows, done, done.Keys), id, c) == BalanceIn(rows, id, c) + Moves(plan, id, c)
      {
        assert id !in done.Keys ==> Moves(plan, id, c) == 0;
      }
    }
  }

  /**
   A transfer with a fee either changes nothing or moves exactly what it says: the sender loses amount
   and fee, the receiver gains the amount, the fee account the fee, and nothing else changes. A fresh
   one succeeds if and only if the sender holds amount plus fee.
   */
  lemma PlanMovesExactly(rows: Rows, cmd: TransferCommand, now: Time)
    requires GoodStore(rows) && now != ZERO_TIME
    ensures var out := Transfer(rows, cmd, now);
            && GoodStore(out.rows)
            && (out.result.Err? ==> out.rows == rows)
            && match PlanTransfer(cmd)
               case Err(_) => out == Outcome(rows, Err(Validation))
               case Ok(plan) =>
                 if NoneBooked(PlanLives(rows, plan, now), PlanEvents(plan, now)) then
                   if BalanceIn(rows, plan.booking.from, plan.booking.currency) < plan.booking.amount + FeeOf(plan)
                   then out == Outcome(rows, Err(InsufficientFunds))
                   else out.result == Ok(())
                        && forall id, c :: BalanceIn(out.rows, id, c) == BalanceIn(rows, id, c) + Moves(plan, id, c)
                 else out.rows == rows
  {
    hide Text.Trim, Text.Trimmed, Text.IsUpper, Postings.Preview, Ledger.BookAll, Ledger.AccountsOf, Ledger.AccountOf,
         Ledger.PlanEvents, GoodPlan, NoneBooked, Ledger.Matched, Stores.GoodStore, Ledger.Saved, BalanceIn, Moves, Ledger.LoadAll;
    if PlanTransfer(cmd).Ok? {
      var plan := PlanTransfer(cmd).value;
      PlanIsGood(cmd);
      if NoneBooked(PlanLives(rows, plan, now), PlanEvents(plan, now)) {
        FreshTransferMoves(rows, plan, now);
      } else {
        PlanAccounts(plan, now);
        MatchedMeans(PlanLives(rows, plan, now), PlanEvents(plan, now));
      }
    }
  }

  lemma PlanHasEvents(plan: Plan, now: Time)
    ensures |PlanEvents(plan, now)| > 0
  {
  }
}
