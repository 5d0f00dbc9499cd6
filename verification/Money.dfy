/** Double entry over whole runs: every posting has its mirror, and money is neither made nor lost. */
module Money {
  import opened MapSum
  import opened Postings
  import opened Accounts
  import opened Stores
  import opened Ledger
  import opened Batches
  import opened Transfers
  import opened Runs
  import Entities

  // ---------------------------------------------------------------- batches of mirrored legs

  /** Two events that book opposite amounts on each other's account under one transaction id. */
  predicate MirrorPair(e: Event, f: Event) {
    && Preview(AccountOf(e), e.data).Ok? && Preview(AccountOf(f), f.data).Ok?
    && var p, q := PostingOf(e), PostingOf(f);
       && p.transactionID == q.transactionID && p.currency == q.currency && p.delta == -q.delta
       && p.counterparty == AccountOf(f) && q.counterparty == AccountOf(e)
  }

  /** A batch made of mirrored pairs, one after the other. */
  predicate Paired(events: seq<Event>) {
    events == [] ||
    (|events| >= 2 && MirrorPair(events[|events| - 2], events[|events| - 1]) && Paired(events[..|events| - 2]))
  }

  lemma {:induction false} PairedJoins(a: seq<Event>, b: seq<Event>)
    requires Paired(a) && Paired(b)
    ensures Paired(a + b)
  {
    hide MirrorPair;
    if b == [] {
      assert a + b == a;
    } else {
      PairedJoins(a, b[..|b| - 2]);
      assert (a + b)[..|a + b| - 2] == a + b[..|b| - 2];
    }
  }

  lemma PairIsPaired(e: Event, f: Event)
    requires MirrorPair(e, f)
    ensures Paired([e, f])
  {
    hide MirrorPair;
    assert [e, f][..0] == [];
    assert Paired([]);
  }

  /** Every event of a paired batch finds its mirror in the batch. */
  lemma {:induction false} PairedHasMirror(events: seq<Event>, e: Event)
    requires Paired(events) && e in events
    ensures exists f :: f in events && MirrorPair(e, f)
  {
    hide Ledger.AccountOf, Postings.Preview, Postings.WellFormed;
    var n := |events|;
    if e in events[..n - 2] {
      PairedHasMirror(events[..n - 2], e);
      var f :| f in events[..n - 2] && MirrorPair(e, f);
      assert f in events;
    } else {
      assert events == events[..n - 2] + [events[n - 2], events[n - 1]];
      assert MirrorPair(events[n - 2], events[n - 1]) && MirrorPair(events[n - 1], events[n - 2]);
    }
  }

  // ---------------------------------------------------------------- conservation

  function Balances(rows: Rows, c: string): map<string, int> { map id | id in rows :: BalanceIn(rows, id, c) }

  /** The sum of all accounts' balances in currency c. */
  ghost function TotalIn(rows: Rows, c: string): int { Sum(Balances(rows, c)) }

  /** The amount by which a batch moves all accounts together in currency c. */
  function BatchTotal(events: seq<Event>, c: string): int {
    if events == [] then 0 else
      var e := events[|events| - 1];
      BatchTotal(events[..|events| - 1], c) + Delta(e, AccountOf(e), c)
  }

  function Get(m: map<string, int>, k: string): int { if k in m then m[k] else 0 }

  /** Shifting every value by what the batch does to that account shifts the sum by the batch's total. */
  lemma {:induction false} SumShifts(m: map<string, int>, n: map<string, int>, events: seq<Event>, c: string)
    requires m.Keys <= n.Keys && AccountsOf(events) <= n.Keys
    requires forall id | id in n :: n[id] == Get(m, id) + BatchDelta(events, id, c)
    ensures Sum(n) == Sum(m) + BatchTotal(events, c)
    decreases |events|
  {
    hide Ledger.AccountsOf, Ledger.AccountOf, Postings.Preview, Postings.WellFormed;
    if events == [] {
      SumSame(m, n);
    } else {
      var k := |events| - 1;
      var e := events[k];
      AccountsOfStep(events);
      var id := AccountOf(e);
      var n' := n[id := n[id] - Delta(e, id, c)];
      forall j | j in n' ensures n'[j] == Get(m, j) + BatchDelta(events[..k], j, c) {
        assert BatchDelta(events, j, c) == BatchDelta(events[..k], j, c) + Delta(e, j, c);
        assert j != id ==> Delta(e, j, c) == 0;
      }
      SumShifts(m, n', events[..k], c);
      SumUpdate(n, id, n[id] - Delta(e, id, c));
    }
  }

  /** Keys that map to zero do not count. */
  lemma {:induction false} SumSame(m: map<string, int>, n: map<string, int>)
    requires m.Keys <= n.Keys && forall k | k in n :: n[k] == Get(m, k)
    ensures Sum(n) == Sum(m)
    decreases n.Keys - m.Keys
  {
    if n.Keys <= m.Keys {
      assert m == n;
    } else {
      var k :| k in n.Keys && k !in m.Keys;
      var n' := n - {k};
      assert n'.Keys == n.Keys - {k};
      assert n'.Keys - m.Keys < n.Keys - m.Keys by { assert k in n.Keys - m.Keys; }
      SumSame(m, n');
      SumRemove(n, k);
    }
  }

  lemma RecordKeys(rows: Rows, events: seq<Event>)
    ensures rows.Keys <= Record(rows, events).rows.Keys
  {
    hide Ledger.BookAll, Ledger.LoadAll, Ledger.AccountsOf, Stores.SavedRow;
  }

  /**
   A command moves the total of a currency by the total of the batch it commits and by nothing else. So it
   conserves money exactly when what it commits sums to zero.
   */
  lemma StepMovesTotal(rows: Rows, cmd: Command, c: string)
    requires GoodStore(rows) && Legal(cmd)
    ensures TotalIn(Step(rows, cmd).rows, c) == TotalIn(rows, c)
            + if Commits(rows, EventsOf(cmd)) then BatchTotal(EventsOf(cmd), c) else 0
  {
    hide Stores.GoodStore, Ledger.Record, Stores.StateOf, Ledger.AccountOf, Step, Legal, EventsOf, OnlyAdds, Keeps, Commits,
         BookedOn;
    var events := EventsOf(cmd);
    StepIsRecord(rows, cmd);
    RecordEffect(rows, events);
    if Commits(rows, events) {
      var out := Record(rows, events).rows;
      RecordKeys(rows, events);
      forall id | id in AccountsOf(events) ensures id in out {
        var e :| e in events && AccountOf(e) == id;
        BookedHasRow(out, e);
      }
      forall id | id in out
        ensures Balances(out, c)[id] == Get(Balances(rows, c), id) + BatchDelta(events, id, c)
      {
        NoRowNoBalance(rows, id, c);
      }
      SumShifts(Balances(rows, c), Balances(out, c), events, c);
    }
  }

  lemma BookedHasRow(rows: Rows, e: Event)
    requires BookedOn(StateOf(RowOf(rows, AccountOf(e))), e)
    ensures AccountOf(e) in rows
  {
    hide Ledger.AccountOf, Postings.Preview, Postings.WellFormed;
  }

  lemma NoRowNoBalance(rows: Rows, id: string, c: string)
    ensures id !in rows ==> BalanceIn(rows, id, c) == 0
  {
  }

  /** Paired batches sum to zero in every currency. */
  lemma {:induction false} PairedSumsToZero(events: seq<Event>, c: string)
    requires Paired(events)
    ensures BatchTotal(events, c) == 0
  {
    hide Ledger.AccountOf, Postings.Preview, Postings.WellFormed;
    if events != [] {
      var n := |events|;
      PairedSumsToZero(events[..n - 2], c);
      assert events[..n - 1][..n - 2] == events[..n - 2];
      assert BatchTotal(events[..n - 1], c)
          == BatchTotal(events[..n - 2], c) + Delta(events[n - 2], AccountOf(events[n - 2]), c);
    }
  }

  /** A command of double entry: what it books comes in mirrored pairs. */
  predicate DoubleEntry(c: Command) { Legal(c) && Paired(EventsOf(c)) }

  /** Transfers are double entry by construction. */
  lemma TransferIsPaired(cmd: TransferCommand, now: Time)
    requires now != ZERO_TIME
    ensures DoubleEntry(TransferTo(cmd, now))
  {
    hide Accounts.IsID, GoodBooking, Ledger.FeeID, Ledger.AccountOf, Ledger.BookingEvents, Paired, Postings.Preview, MirrorPair,
         Ledger.PlanTransfer;
    if PlanTransfer(cmd).Ok? {
      PlanIsGood(cmd);
      var plan := PlanTransfer(cmd).value;
      BookingIsPaired(plan.transactionID, plan.booking, now);
      if plan.fee.Fee? {
        BookingIsPaired(FeeID(plan.transactionID), plan.fee.booking, now);
        PairedJoins(BookingEvents(plan.transactionID, plan.booking, now),
                    BookingEvents(FeeID(plan.transactionID), plan.fee.booking, now));
      } else {
        assert PlanEvents(plan, now) == BookingEvents(plan.transactionID, plan.booking, now);
      }
    } else {
      assert Paired([]) by { NothingIsPaired(); }
    }
  }

  lemma NothingIsPaired()
    ensures Paired([])
  {
  }

  lemma BookingIsPaired(tx: string, b: Entities.TransferBooking, now: Time)
    requires IsID(tx) && GoodBooking(b) && now != ZERO_TIME
    ensures Paired(BookingEvents(tx, b, now))
  {
    hide Accounts.IsID, GoodBooking, Postings.Preview, Ledger.AccountOf, Paired;
    var e := BookingEvents(tx, b, now);
    BookingPreviews(tx, b, now);
    PairIsPaired(e[0], e[1]);
    assert e == [e[0], e[1]];
  }

  /** Conservation over every run: from the empty store, each currency's balances always sum to zero. */
  lemma {:induction false} RunConserves(rows: Rows, commands: seq<Command>, c: string)
    requires GoodStore(rows) && forall k | k in commands :: DoubleEntry(k)
    ensures TotalIn(Run(rows, commands), c) == TotalIn(rows, c)
    ensures rows == map[] ==> TotalIn(Run(rows, commands), c) == 0
    decreases |commands|
  {
    hide Stores.GoodStore, Step, Stores.StateOf, EventsOf, Paired, Keeps, Commits;
    if rows == map[] {
      assert Balances(rows, c) == map[];
    }
    if commands != [] {
      assert DoubleEntry(commands[0]);
      StepMovesTotal(rows, commands[0], c);
      PairedSumsToZero(EventsOf(commands[0]), c);
      StepGrows(rows, commands[0]);
      RunConserves(Step(rows, commands[0]).rows, commands[1..], c);
    }
  }

  // ---------------------------------------------------------------- mirrors

  /** The other account carries the opposite posting, back to this account, under the same transaction id. */
  ghost predicate HasMirror(rows: Rows, id: string, p: Posting) {
    var other := StateOf(RowOf(rows, p.counterparty));
    && p.transactionID in other.posted
    && var q := other.posted[p.transactionID];
       q.counterparty == id && q.currency == p.currency && q.delta == -p.delta
  }

  ghost predicate AllMirrored(rows: Rows) {
    forall id, tx | tx in StateOf(RowOf(rows, id)).posted ::
      StateOf(RowOf(rows, id)).posted[tx].transactionID == tx && HasMirror(rows, id, StateOf(RowOf(rows, id)).posted[tx])
  }

  lemma MirrorStays(rows: Rows, later: Rows, id: string, p: Posting)
    requires Grows(rows, later) && HasMirror(rows, id, p)
    ensures HasMirror(later, id, p)
  {
    hide Stores.StateOf, Stores.RowOf;
  }

  lemma MirrorFromBatch(rows: Rows, events: seq<Event>, id: string, p: Posting)
    requires Paired(events) && FromBatch(events, id, p)
    requires forall e | e in events :: BookedOn(StateOf(RowOf(rows, AccountOf(e))), e)
    ensures HasMirror(rows, id, p)
  {
    hide Stores.StateOf, Stores.RowOf, Ledger.AccountOf, Postings.Preview, Postings.WellFormed, Paired;
    var e :| e in events && AccountOf(e) == id && Preview(id, e.data) == Ok(p);
    PairedHasMirror(events, e);
    var f :| f in events && MirrorPair(e, f);
    assert BookedOn(StateOf(RowOf(rows, AccountOf(f))), f);
  }

  /** Every command of double entry keeps every posting mirrored. */
  lemma StepKeepsMirrors(rows: Rows, cmd: Command)
    requires GoodStore(rows) && AllMirrored(rows) && DoubleEntry(cmd)
    ensures AllMirrored(Step(rows, cmd).rows)
  {
    hide Stores.GoodStore, Ledger.Record, Stores.StateOf, Stores.RowOf, Ledger.AccountOf, Step, EventsOf, Keeps, Commits, BookedOn,
         Paired, HasMirror, FromBatch, Grows;
    var events := EventsOf(cmd);
    StepIsRecord(rows, cmd);
    StepGrows(rows, cmd);
    RecordEffect(rows, events);
    var out := Step(rows, cmd).rows;
    if Commits(rows, events) {
      forall id, tx | tx in StateOf(RowOf(out, id)).posted
        ensures StateOf(RowOf(out, id)).posted[tx].transactionID == tx
        ensures HasMirror(out, id, StateOf(RowOf(out, id)).posted[tx])
      {
        var p := StateOf(RowOf(out, id)).posted[tx];
        PostedUnderOwnID(out, id, tx);
        assert OnlyAdds(events, id, StateOf(RowOf(rows, id)), StateOf(RowOf(out, id)));
        if FromBatch(events, id, p) {
          MirrorFromBatch(out, events, id, p);
        } else {
          MirrorStays(rows, out, id, p);
        }
      }
    }
  }

  lemma PostedUnderOwnID(rows: Rows, id: string, tx: string)
    requires GoodStore(rows) && tx in StateOf(RowOf(rows, id)).posted
    ensures StateOf(RowOf(rows, id)).posted[tx].transactionID == tx
  {
    hide Accounts.Produced, Accounts.Transition, Postings.WellFormed, Accounts.IsID;
    GoodRowMeans(id, rows[id]);
  }

  /** In every run of double-entry commands, each posting has its mirror on the counterparty's account. */
  lemma {:induction false} RunKeepsMirrors(rows: Rows, commands: seq<Command>)
    requires GoodStore(rows) && AllMirrored(rows) && forall k | k in commands :: DoubleEntry(k)
    ensures AllMirrored(Run(rows, commands))
    decreases |commands|
  {
    hide Stores.GoodStore, Step, Stores.StateOf, EventsOf, Paired, AllMirrored, Keeps;
    if commands != [] {
      assert DoubleEntry(commands[0]);
      StepKeepsMirrors(rows, commands[0]);
      StepGrows(rows, commands[0]);
      RunKeepsMirrors(Step(rows, commands[0]).rows, commands[1..]);
    }
  }

  lemma EmptyIsMirrored()
    ensures GoodStore(map[]) && AllMirrored(map[])
  {
    assert forall id :: StateOf(RowOf(map[], id)) == FRESH;
  }
}
