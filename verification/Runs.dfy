/**
 Whole runs of the ledger: any sequence of transfers and event batches from the empty store. What every
 run keeps, what a redelivery does, and when money is conserved.
 */
module Runs {
  import opened Text
  import opened Postings
  import opened Accounts
  import opened Stores
  import opened Ledger
  import opened Batches
  import opened Transfers

  datatype Command = TransferTo(cmd: TransferCommand, now: Time) | Batch(events: seq<Event>)

  /** The clock never shows the zero time. */
  predicate Legal(c: Command) { c.TransferTo? ==> c.now != ZERO_TIME }

  function Step(rows: Rows, c: Command): Outcome {
    match c
    case TransferTo(cmd, now) => Transfer(rows, cmd, now)
    case Batch(events) => Record(rows, events)
  }

  function Run(rows: Rows, commands: seq<Command>): Rows
    decreases |commands|
  {
    if commands == [] then rows else Run(Step(rows, commands[0]).rows, commands[1..])
  }

  ghost predicate AllLegal(commands: seq<Command>) { forall c | c in commands :: Legal(c) }

  /** The events a command books when it books anything. */
  function EventsOf(c: Command): seq<Event> {
    match c
    case TransferTo(cmd, now) =>
      (match PlanTransfer(cmd) case Ok(plan) => PlanEvents(plan, now) case Err(_) => [])
    case Batch(events) => events
  }

  // ---------------------------------------------------------------- all new, all known, or refused

  /** A batch is absorbed as a duplicate exactly when every event of it is booked already. */
  lemma {:induction false} AbsorbedIffBooked(live: Lives, events: seq<Event>)
    requires AccountsOf(events) <= live.Keys && forall id | id in live :: live[id].id == id
    ensures AllBooked(live, events) <==> BookAll(live, events) == Ok((live, 0))
    ensures BookAll(live, events).Ok? && BookAll(live, events).value.1 == 0 ==> BookAll(live, events).value.0 == live
  {
    hide Ledger.AccountsOf, Ledger.AccountOf, Booked, Accounts.Book;
    if events != [] {
      var n := |events| - 1;
      AccountsOfStep(events);
      AbsorbedIffBooked(live, events[..n]);
      assert forall e :: e in events <==> e in events[..n] || e == events[n] by {
        assert events == events[..n] + [events[n]];
      }
      BookAbsorbs(live, events[n]);
      assert live[AccountOf(events[n]) := live[AccountOf(events[n])]] == live;
    }
  }

  lemma BookAbsorbs(live: Lives, e: Event)
    requires AccountOf(e) in live && live[AccountOf(e)].id == AccountOf(e)
    ensures Booked(live, e) <==> Book(live[AccountOf(e)], e.data) == Ok((live[AccountOf(e)], false))
    ensures Book(live[AccountOf(e)], e.data).Ok? && !Book(live[AccountOf(e)], e.data).value.1 ==>
              Book(live[AccountOf(e)], e.data).value.0 == live[AccountOf(e)]
  {
    hide Ledger.AccountOf, Postings.Preview, Postings.WellFormed, Postings.Same, Accounts.Allowed;
  }

  /** A batch that was new throughout had none of its events booked before. */
  lemma {:induction false} AllNewWasUnbooked(live: Lives, events: seq<Event>)
    requires AccountsOf(events) <= live.Keys && forall id | id in live :: live[id].id == id
    requires BookAll(live, events).Ok? && BookAll(live, events).value.1 == |events|
    ensures NoneBooked(live, events)
  {
    hide Ledger.AccountsOf, Ledger.AccountOf, Unbooked, Accounts.Book, Keeps, BookedOn, Postings.Preview, Postings.WellFormed;
    if events != [] {
      var n := |events| - 1;
      AccountsOfStep(events);
      AllNewWasUnbooked(live, events[..n]);
      BookAllBooks(live, events[..n]);
      var before := BookAll(live, events[..n]).value.0;
      NewIsUnbooked(before, events[n]);
      UnbookedBefore(live, before, events[n]);
      forall e | e in events ensures Unbooked(live, e) {
        var i :| 0 <= i < |events| && events[i] == e;
        if i < n { assert events[..n][i] == e; }
      }
    }
  }

  lemma NewIsUnbooked(live: Lives, e: Event)
    requires AccountOf(e) in live && live[AccountOf(e)].id == AccountOf(e)
    requires Book(live[AccountOf(e)], e.data).Ok? && Book(live[AccountOf(e)], e.data).value.1
    ensures Unbooked(live, e)
  {
    hide Ledger.AccountOf, Postings.Preview, Postings.WellFormed, Postings.Same, Accounts.Allowed;
  }

  lemma UnbookedBefore(live: Lives, later: Lives, e: Event)
    requires Unbooked(later, e) && AccountOf(e) in live && Keeps(live[AccountOf(e)].state, later[AccountOf(e)].state)
    ensures Unbooked(live, e)
  {
    hide Ledger.AccountOf, Postings.Preview, Postings.WellFormed;
  }

  /** A transfer of which nothing is booked yet. */
  lemma FreshTransferIsBatch(rows: Rows, plan: Plan, now: Time)
    requires GoodPlan(plan) && now != ZERO_TIME && NoneBooked(PlanLives(rows, plan, now), PlanEvents(plan, now))
    ensures TransferPlan(rows, plan, now) == Record(rows, PlanEvents(plan, now))
  {
    hide Ledger.AccountsOf, Ledger.AccountOf, Ledger.BookAll, Ledger.Matched, GoodPlan, NoneBooked, Moves, Accounts.Bal,
         Ledger.LoadAll, Ledger.PlanEvents, Ledger.SnapshotClash, Accounts.IsID, Stores.StateOf, Ledger.Saved;
    var events, live := PlanEvents(plan, now), PlanLives(rows, plan, now);
    PlanAccounts(plan, now);
    PlanHasEvents(plan, now);
    LoadedLives(rows, AccountsOf(events));
    MatchedMeans(live, events);
    BlankIsNoID();
    BookPlan(live, plan, now);
    if BookAll(live, events).Ok? { FewMilestones(BookAll(live, events).value.0); }
  }

  /** A transfer of which something is booked already. */
  lemma KnownTransferIsBatch(rows: Rows, plan: Plan, now: Time)
    requires GoodPlan(plan) && now != ZERO_TIME && !NoneBooked(PlanLives(rows, plan, now), PlanEvents(plan, now))
    ensures TransferPlan(rows, plan, now).rows == rows == Record(rows, PlanEvents(plan, now)).rows
    ensures TransferPlan(rows, plan, now).result.Ok? <==> Record(rows, PlanEvents(plan, now)).result.Ok?
  {
    hide Ledger.AccountsOf, Ledger.AccountOf, Ledger.BookAll, Ledger.Matched, GoodPlan, NoneBooked, AllBooked,
         Ledger.LoadAll, Ledger.PlanEvents, Ledger.SnapshotClash, Accounts.IsID, Stores.StateOf, Ledger.Saved;
    var events, live := PlanEvents(plan, now), PlanLives(rows, plan, now);
    PlanAccounts(plan, now);
    PlanHasEvents(plan, now);
    LoadedLives(rows, AccountsOf(events));
    MatchedMeans(live, events);
    AbsorbedIffBooked(live, events);
    BlankIsNoID();
    if BookAll(live, events).Ok? && BookAll(live, events).value.1 == |events| { AllNewWasUnbooked(live, events); }
  }

  /**
   A transfer changes the store exactly as the batch of its two or four events would: the duplicate check
   in front of it only replaces one refusal by another.
   */
  lemma TransferIsBatch(rows: Rows, cmd: TransferCommand, now: Time)
    requires GoodStore(rows) && now != ZERO_TIME && PlanTransfer(cmd).Ok?
    ensures var events := PlanEvents(PlanTransfer(cmd).value, now);
            && Transfer(rows, cmd, now).rows == Record(rows, events).rows
            && (Transfer(rows, cmd, now).result.Ok? <==> Record(rows, events).result.Ok?)
  {
    hide Ledger.AccountsOf, GoodPlan, Stores.GoodStore, NoneBooked, Ledger.LoadAll, Ledger.PlanEvents, Ledger.PlanTransfer,
         Ledger.TransferPlan, Ledger.Record, PlanLives;
    var plan := PlanTransfer(cmd).value;
    PlanIsGood(cmd);
    if NoneBooked(PlanLives(rows, plan, now), PlanEvents(plan, now)) {
      FreshTransferIsBatch(rows, plan, now);
    } else {
      KnownTransferIsBatch(rows, plan, now);
    }
  }

  lemma BlankIsNoID()
    ensures !IsID("")
  {
  }

  lemma LoadedLives(rows: Rows, ids: set<string>)
    ensures forall id | id in ids :: LoadAll(rows, ids)[id].id == id && LoadAll(rows, ids)[id].pending == []
                                     && LoadAll(rows, ids)[id].state == StateOf(RowOf(rows, id))
  {
    hide Stores.StateOf;
  }

  lemma StepIsRecord(rows: Rows, c: Command)
    requires GoodStore(rows) && Legal(c)
    ensures Step(rows, c).rows == Record(rows, EventsOf(c)).rows
    ensures c.Batch? || PlanTransfer(c.cmd).Ok? ==> (Step(rows, c).result.Ok? <==> Record(rows, EventsOf(c)).result.Ok?)
  {
    hide Ledger.Record, Ledger.TransferPlan, Stores.GoodStore, Ledger.PlanTransfer, Ledger.PlanEvents;
    match c
    case TransferTo(cmd, now) =>
      if PlanTransfer(cmd).Ok? {
        TransferIsBatch(rows, cmd, now);
      } else {
        RecordNothing(rows);
      }
    case Batch(_) =>
  }

  lemma RecordNothing(rows: Rows)
    ensures Record(rows, []) == Outcome(rows, Ok(()))
  {
  }

  // ---------------------------------------------------------------- what a committed batch does

  /** The batch is stored: every event was new, and no account needs two snapshots at once. */
  ghost predicate Commits(rows: Rows, events: seq<Event>) {
    && events != [] && "" !in AccountsOf(events)
    && var r := BookAll(LoadAll(rows, AccountsOf(events)), events);
       r.Ok? && r.value.1 == |events| && !SnapshotClash(r.value.0)
  }

  /** A posting on account id that comes from one of the events. */
  ghost predicate FromBatch(events: seq<Event>, id: string, p: Posting) {
    exists e | e in events :: AccountOf(e) == id && Preview(id, e.data) == Ok(p)
  }

  /** Every posting of the second state is one of the first or comes from the batch. */
  ghost predicate OnlyAdds(events: seq<Event>, id: string, s: State, t: State) {
    forall tx | tx in t.posted :: (tx in s.posted && t.posted[tx] == s.posted[tx]) || FromBatch(events, id, t.posted[tx])
  }

  lemma {:induction false} BookAllOnlyAdds(live: Lives, events: seq<Event>, id: string)
    requires AccountsOf(events) <= live.Keys && BookAll(live, events).Ok? && id in live
    requires forall k | k in live :: live[k].id == k
    ensures OnlyAdds(events, id, live[id].state, BookAll(live, events).value.0[id].state)
  {
    hide Ledger.AccountsOf, Ledger.AccountOf, Accounts.Book, Keeps, Postings.Preview;
    if events != [] {
      var n := |events| - 1;
      AccountsOfStep(events);
      BookAllOnlyAdds(live, events[..n], id);
      BookAllBooks(live, events[..n]);
      var before := BookAll(live, events[..n]).value.0;
      BookOnlyAdds(before[AccountOf(events[n])], events[n]);
      assert forall e | e in events[..n] :: e in events;
      assert events[n] in events;
    }
  }

  lemma BookOnlyAdds(l: Live, e: Event)
    requires l.id == AccountOf(e) && Book(l, e.data).Ok?
    ensures var m := Book(l, e.data).value.0;
            forall tx | tx in m.state.posted ::
              (tx in l.state.posted && m.state.posted[tx] == l.state.posted[tx]) || Preview(l.id, e.data) == Ok(m.state.posted[tx])
  {
    hide Ledger.AccountOf, Postings.Preview, Postings.WellFormed, Accounts.Allowed, Postings.Same;
  }

  /**
   All or nothing: a batch either leaves the store alone or stores every event of it. In the second case
   every event is booked, every balance has moved by what the batch says, logs and postings have only
   grown, and only the accounts of the batch have changed.
   */
  lemma RecordEffect(rows: Rows, events: seq<Event>)
    requires GoodStore(rows)
    ensures var out := Record(rows, events);
            && GoodStore(out.rows)
            && (!Commits(rows, events) ==> out.rows == rows)
            && (Commits(rows, events) ==>
                  && out.result == Ok(())
                  && (forall e | e in events :: BookedOn(StateOf(RowOf(out.rows, AccountOf(e))), e))
                  && (forall id, c :: BalanceIn(out.rows, id, c) == BalanceIn(rows, id, c) + BatchDelta(events, id, c))
                  && (forall id :: OnlyAdds(events, id, StateOf(RowOf(rows, id)), StateOf(RowOf(out.rows, id))))
                  && (forall id | id !in AccountsOf(events) :: RowOf(out.rows, id) == RowOf(rows, id)))
            && (forall id :: Keeps(StateOf(RowOf(rows, id)), StateOf(RowOf(out.rows, id)))
                             && RowOf(rows, id).log <= RowOf(out.rows, id).log)
  {
    hide Ledger.AccountsOf, Ledger.AccountOf, Ledger.BookAll, Stores.GoodStore, Ledger.LoadAll, Ledger.SnapshotClash,
         Accounts.IsID, Stores.StateOf, Ledger.Saved, Postings.Preview, Started, OnlyAdds, Accounts.InStep, BookedOn;
    if Commits(rows, events) {
      var ids := AccountsOf(events);
      AccountIDsAreIDs(events);
      LoadAllStarted(rows, ids);
      LoadedLives(rows, ids);
      var live := LoadAll(rows, ids);
      BookAllStarted(rows, live, events);
      BookAllBooks(live, events);
      var done := BookAll(live, events).value.0;
      SavedIsGood(rows, done, done.Keys);
      var out := Saved(rows, done, done.Keys);
      forall id, c ensures BalanceIn(out, id, c) == BalanceIn(rows, id, c) + BatchDelta(events, id, c) {
        if id in ids { FreshBatchMoves(live, events, id, c); } else { NoDelta(events, id, c); }
      }
      forall id ensures OnlyAdds(events, id, StateOf(RowOf(rows, id)), StateOf(RowOf(out, id))) {
        if id in ids { BookAllOnlyAdds(live, events, id); } else { OnlyAddsReflexive(events, id, StateOf(RowOf(rows, id))); }
      }
    }
  }

  lemma OnlyAddsReflexive(events: seq<Event>, id: string, s: State)
    ensures OnlyAdds(events, id, s, s)
  {
    hide FromBatch;
  }

  lemma {:induction false} NoDelta(events: seq<Event>, id: string, c: string)
    requires id !in AccountsOf(events)
    ensures BatchDelta(events, id, c) == 0
  {
    hide Ledger.AccountsOf, Ledger.AccountOf, Postings.Preview, Postings.WellFormed;
    if events != [] {
      AccountsOfStep(events);
      NoDelta(events[..|events| - 1], id, c);
    }
  }

  // ---------------------------------------------------------------- what is stored

  /** The events of the batch for one account, in order, under its id and with the versions that follow `base`. */
  function Stamped(events: seq<Event>, id: string, base: nat): (stored: seq<Event>)
    ensures |stored| <= |events|
  {
    if events == [] then [] else
      var n := |events| - 1;
      var stored := Stamped(events[..n], id, base);
      if AccountOf(events[n]) == id then stored + [Event(id, base + |stored| + 1, events[n].data)] else stored
  }

  lemma {:induction false} BookAllStamps(live: Lives, events: seq<Event>, id: string)
    requires AccountsOf(events) <= live.Keys && forall k | k in live :: live[k].id == k && live[k].pending == []
    requires BookAll(live, events).Ok? && BookAll(live, events).value.1 == |events| && id in live
    ensures var done := BookAll(live, events).value.0[id];
            done.id == id && done.base == live[id].base && done.pending == Stamped(events, id, live[id].base)
  {
    hide Ledger.AccountsOf, Ledger.AccountOf, Accounts.Book, Keeps, BookedOn, Postings.Preview, Postings.WellFormed;
    if events != [] {
      var n := |events| - 1;
      AccountsOfStep(events);
      BookAllStamps(live, events[..n], id);
      if AccountOf(events[n]) == id {
        BookStamps(BookAll(live, events[..n]).value.0[id], events[n].data);
      }
    }
  }

  lemma BookStamps(l: Live, data: EventData)
    requires Book(l, data).Ok? && Book(l, data).value.1
    ensures var m := Book(l, data).value.0;
            m.id == l.id && m.base == l.base && m.pending == l.pending + [Event(l.id, l.base + |l.pending| + 1, data)]
  {
    hide Postings.Preview, Accounts.Allowed, Postings.Same;
  }

  /** A committed batch is appended to the logs as it came: for each account its own events, in order, numbered on. */
  lemma CommitAppends(rows: Rows, events: seq<Event>, id: string)
    requires GoodStore(rows) && Commits(rows, events)
    ensures RowOf(Record(rows, events).rows, id).log == RowOf(rows, id).log + Stamped(events, id, |RowOf(rows, id).log|)
  {
    hide Ledger.AccountsOf, Ledger.AccountOf, Ledger.BookAll, Stores.GoodStore, Ledger.LoadAll, Ledger.SnapshotClash,
         Accounts.IsID, Stores.StateOf, Ledger.Saved, Postings.Preview, Started, Accounts.InStep, Stamped;
    var ids := AccountsOf(events);
    AccountIDsAreIDs(events);
    LoadAllStarted(rows, ids);
    LoadedLives(rows, ids);
    var live := LoadAll(rows, ids);
    BookAllStarted(rows, live, events);
    var done := BookAll(live, events).value.0;
    SavedIsGood(rows, done, done.Keys);
    if id in ids {
      BookAllStamps(live, events, id);
      LoadedBase(rows, ids, id);
    } else {
      NothingStamped(events, id, |RowOf(rows, id).log|);
    }
  }

  lemma LoadedBase(rows: Rows, ids: set<string>, id: string)
    requires id in ids
    ensures LoadAll(rows, ids)[id].base == |RowOf(rows, id).log|
  {
    hide Stores.StateOf, Stores.RowOf;
  }

  lemma {:induction false} NothingStamped(events: seq<Event>, id: string, base: nat)
    requires id !in AccountsOf(events)
    ensures Stamped(events, id, base) == []
  {
    hide Ledger.AccountOf;
    if events != [] {
      AccountsOfStep(events);
      NothingStamped(events[..|events| - 1], id, base);
    }
  }

  // ---------------------------------------------------------------- every run

  /** Account by account, the second store has every posting and every event of the first. */
  ghost predicate Grows(rows: Rows, later: Rows) {
    forall id :: Keeps(StateOf(RowOf(rows, id)), StateOf(RowOf(later, id))) && RowOf(rows, id).log <= RowOf(later, id).log
  }

  lemma StepGrows(rows: Rows, c: Command)
    requires GoodStore(rows) && Legal(c)
    ensures GoodStore(Step(rows, c).rows) && Grows(rows, Step(rows, c).rows)
  {
    hide Stores.GoodStore, Ledger.Record, Step, Keeps, Stores.StateOf, Legal, EventsOf;
    StepIsRecord(rows, c);
    RecordEffect(rows, EventsOf(c));
  }

  /**
   Every run keeps the store good (so every log replays, every version counts up from one and every
   account is sound) and only ever adds postings and events.
   */
  lemma {:induction false} RunGrows(rows: Rows, commands: seq<Command>)
    requires GoodStore(rows) && AllLegal(commands)
    ensures GoodStore(Run(rows, commands)) && Grows(rows, Run(rows, commands))
    decreases |commands|
  {
    hide Stores.GoodStore, Step, Stores.StateOf, Legal;
    if commands != [] {
      StepGrows(rows, commands[0]);
      RunGrows(Step(rows, commands[0]).rows, commands[1..]);
    }
  }

  /** Every account of every reachable store is the sound replay of its log, whose versions are 1, 2, 3, ... */
  lemma ReachableAccounts(commands: seq<Command>, id: string)
    requires AllLegal(commands) && id in Run(map[], commands)
    ensures var row := Run(map[], commands)[id];
            && Replay(FRESH, row.log) == Ok(StateOf(row)) && Sound(id, StateOf(row))
            && row.version == |row.log|
            && forall i | 0 <= i < |row.log| :: row.log[i].version == i + 1 && row.log[i].aggregateID == id
  {
    hide Step, Stores.StateOf, Legal, Accounts.Sound, Accounts.Produced, Accounts.Replay, Accounts.TransactionIDs;
    RunGrows(map[], commands);
    var row := Run(map[], commands)[id];
    GoodRowMeans(id, row);
    forall i | 0 <= i < |row.log| ensures row.log[i].version == i + 1 && row.log[i].aggregateID == id {
      ProducedVersions(id, FRESH, 0, row.log, i);
    }
  }

  // ---------------------------------------------------------------- exactly once

  /** The same event for the same account, booked at some (non-zero) time. */
  predicate SameDelivery(a: Event, b: Event) {
    AccountOf(a) == AccountOf(b) && SameEvent(a.data, b.data) && (b.data.Unsupported? || b.data.bookedAt != ZERO_TIME)
  }

  predicate SameBatch(a: seq<Event>, b: seq<Event>) {
    |a| == |b| && forall i | 0 <= i < |a| :: SameDelivery(a[i], b[i])
  }

  predicate BookedIn(rows: Rows, e: Event) { BookedOn(StateOf(RowOf(rows, AccountOf(e))), e) }

  /** A batch that succeeded is booked, whether it was stored or absorbed. */
  lemma SuccessBooks(rows: Rows, events: seq<Event>)
    requires GoodStore(rows) && Record(rows, events).result.Ok?
    ensures forall e | e in events :: AccountOf(e) != "" && BookedIn(Record(rows, events).rows, e)
  {
    hide Ledger.AccountOf, Ledger.BookAll, Stores.GoodStore, Ledger.LoadAll, Ledger.SnapshotClash, Stores.StateOf,
         Ledger.Saved, Postings.Preview, BookedOn, OnlyAdds;
    RecordEffect(rows, events);
    if events != [] && !Commits(rows, events) {
      var live := LoadAll(rows, AccountsOf(events));
      LoadedLives(rows, AccountsOf(events));
      AbsorbedIffBooked(live, events);
    }
    forall e | e in events ensures AccountOf(e) != "" && BookedIn(Record(rows, events).rows, e) {
      assert AccountOf(e) in AccountsOf(events);
      if !Commits(rows, events) { assert Booked(LoadAll(rows, AccountsOf(events)), e); }
    }
  }

  /** Delivering events that are all booked already changes nothing and succeeds. */
  lemma RedeliveryIsAbsorbed(rows: Rows, events: seq<Event>)
    requires forall e | e in events :: AccountOf(e) != "" && BookedIn(rows, e)
    ensures Record(rows, events) == Outcome(rows, Ok(()))
  {
    hide Ledger.AccountOf, Ledger.BookAll, Ledger.LoadAll, Stores.StateOf, Postings.Preview, BookedOn;
    if events != [] {
      var live := LoadAll(rows, AccountsOf(events));
      LoadedLives(rows, AccountsOf(events));
      forall e | e in events ensures Booked(live, e) {
        assert AccountOf(e) in AccountsOf(events);
        assert BookedIn(rows, e);
      }
      AbsorbedIffBooked(live, events);
    }
  }

  /**
   A batch of which some event is booked already changes nothing, whichever of its events are new and whatever
   they are. It succeeds if and only if all of its events are booked.
   */
  lemma KnownBatchExactly(rows: Rows, events: seq<Event>, known: Event)
    requires known in events && BookedIn(rows, known)
    ensures Record(rows, events).rows == rows
    ensures Record(rows, events).result.Ok? <==> forall e | e in events :: BookedIn(rows, e)
  {
    hide Ledger.AccountOf, Ledger.BookAll, Ledger.LoadAll, Stores.StateOf, Postings.Preview, BookedOn, Ledger.Saved, Ledger.SnapshotClash;
    var live := LoadAll(rows, AccountsOf(events));
    LoadedLives(rows, AccountsOf(events));
    forall e | e in events ensures Booked(live, e) <==> BookedIn(rows, e) { assert AccountOf(e) in AccountsOf(events); }
    AbsorbedIffBooked(live, events);
    if "" in AccountsOf(events) {
      var e :| e in events && AccountOf(e) == "";
      BlankIsNotBooked(rows, e);
    } else if BookAll(live, events).Ok? && BookAll(live, events).value.1 == |events| {
      AllNewWasUnbooked(live, events);
      BookedOrUnbooked(live, known);
    }
  }

  lemma BookedOrUnbooked(live: Lives, e: Event)
    ensures !(Booked(live, e) && Unbooked(live, e))
  {
    hide Ledger.AccountOf, Postings.Preview, Postings.WellFormed;
  }

  lemma BlankIsNotBooked(rows: Rows, e: Event)
    requires AccountOf(e) == ""
    ensures !BookedIn(rows, e)
  {
    hide Ledger.AccountOf, Postings.Preview;
    assert Trim("") == "";
  }

  lemma BookedStays(rows: Rows, later: Rows, e: Event)
    requires Grows(rows, later) && BookedIn(rows, e)
    ensures BookedIn(later, e)
  {
    hide Stores.StateOf, Ledger.AccountOf, Keeps, BookedOn;
    KeepsBooked(StateOf(RowOf(rows, AccountOf(e))), StateOf(RowOf(later, AccountOf(e))), e);
  }

  lemma BookedAtAnyTime(rows: Rows, a: Event, b: Event)
    requires BookedIn(rows, a) && SameDelivery(a, b)
    ensures BookedIn(rows, b)
  {
    hide Stores.StateOf, Ledger.AccountOf, Postings.Preview, Postings.WellFormed;
    PreviewUnsupported(AccountOf(a), a.data);
    PreviewIgnoresTime(AccountOf(a), a.data, b.data);
  }

  lemma PreviewUnsupported(id: string, data: EventData)
    ensures Preview(id, data).Ok? ==> !data.Unsupported?
  {
    hide Postings.NewPaymentPosting;
  }

  /** Once a batch has succeeded, its events stay booked in every further run, whatever time they are dated. */
  lemma BatchStaysBooked(rows: Rows, events: seq<Event>, commands: seq<Command>, again: seq<Event>)
    requires GoodStore(rows) && AllLegal(commands) && SameBatch(events, again)
    requires Record(rows, events).result.Ok?
    ensures var later := Run(Record(rows, events).rows, commands);
            forall e | e in again :: AccountOf(e) != "" && BookedIn(later, e)
  {
    hide Stores.GoodStore, Ledger.Record, Grows, BookedIn, Stores.StateOf, Legal, Step, Ledger.AccountOf, OnlyAdds, Keeps;
    var after := Record(rows, events).rows;
    RecordEffect(rows, events);
    RunGrows(after, commands);
    var later := Run(after, commands);
    SuccessBooks(rows, events);
    forall e | e in again ensures AccountOf(e) != "" && BookedIn(later, e) {
      var i :| 0 <= i < |again| && again[i] == e;
      assert events[i] in events && SameDelivery(events[i], e);
      BookedStays(after, later, events[i]);
      BookedAtAnyTime(later, events[i], e);
      SameAccount(events[i], e);
    }
  }

  /**
   Exactly-once effect of a batch: once it has succeeded, delivering it again after any further run, even
   with other booked times, succeeds and changes no balance, posting or log.
   */
  lemma BatchExactlyOnce(rows: Rows, events: seq<Event>, commands: seq<Command>, again: seq<Event>)
    requires GoodStore(rows) && AllLegal(commands) && SameBatch(events, again)
    requires Record(rows, events).result.Ok?
    ensures var later := Run(Record(rows, events).rows, commands);
            Record(later, again) == Outcome(later, Ok(()))
  {
    hide Stores.GoodStore, Ledger.Record, BookedIn, Legal, Step, Ledger.AccountOf, SameBatch;
    BatchStaysBooked(rows, events, commands, again);
    RedeliveryIsAbsorbed(Run(Record(rows, events).rows, commands), again);
  }

  lemma SameAccount(a: Event, b: Event)
    requires SameDelivery(a, b)
    ensures AccountOf(a) == AccountOf(b)
  {
    hide Ledger.AccountOf;
  }

  /** Exactly-once effect of a transfer, whenever it is sent again. */
  lemma TransferExactlyOnce(rows: Rows, cmd: TransferCommand, now: Time, commands: seq<Command>, later: Time)
    requires GoodStore(rows) && AllLegal(commands) && now != ZERO_TIME && later != ZERO_TIME
    requires Transfer(rows, cmd, now).result.Ok?
    ensures var after := Run(Transfer(rows, cmd, now).rows, commands);
            Transfer(after, cmd, later) == Outcome(after, Ok(()))
  {
    hide Stores.GoodStore, Ledger.Record, Ledger.TransferPlan, Legal, Step, Ledger.PlanEvents, SameBatch, OnlyAdds, Keeps, Stores.StateOf;
    var plan := PlanTransfer(cmd).value;
    TransferIsBatch(rows, cmd, now);
    RecordEffect(rows, PlanEvents(plan, now));
    RunGrows(Transfer(rows, cmd, now).rows, commands);
    PlanAtAnyTime(plan, now, later);
    BatchExactlyOnce(rows, PlanEvents(plan, now), commands, PlanEvents(plan, later));
    TransferIsBatch(Run(Transfer(rows, cmd, now).rows, commands), cmd, later);
    OkIsUnit(Transfer(Run(Transfer(rows, cmd, now).rows, commands), cmd, later).result);
  }

  lemma OkIsUnit(r: Result<()>)
    requires r.Ok?
    ensures r == Ok(())
  {
    match r.value case () =>
  }

  lemma PlanAtAnyTime(plan: Plan, now: Time, later: Time)
    requires later != ZERO_TIME
    ensures SameBatch(PlanEvents(plan, now), PlanEvents(plan, later))
  {
    hide Text.Trim, Text.Trimmed, Ledger.FeeID;
  }
}
