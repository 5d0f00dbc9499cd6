/**
 Ledger commands running concurrently, with no lock assumed: each transaction reads the rows of its
 accounts one at a time, computes on what it read, and commits only if no row it read has a new version
 (the check of CheckAndUpdateVersion). Every interleaving turns out to be a serial run.
 */
module Concurrent {
  import opened Postings
  import opened Accounts
  import opened Stores
  import opened Ledger
  import opened Batches
  import opened Runs
  import opened Funds

  /** A transaction in flight: its command and the rows it has read so far. */
  datatype InFlight = InFlight(command: Command, seen: map<string, Row>)

  /** The store, the transactions in flight, and the commands that have committed a change, in order. */
  datatype System = System(rows: Rows, inFlight: map<nat, InFlight>, committed: seq<Command>)

  const INIT := System(map[], map[], [])

  datatype Action =
    | Begin(t: nat, command: Command)
    | Read(t: nat, id: string)
    | Finish(t: nat)

  function Touched(c: Command): set<string> { AccountsOf(EventsOf(c)) }

  function Drop(s: System, t: nat): System { s.(inFlight := s.inFlight - {t}) }

  /** The versions it read are still the versions stored. */
  predicate Current(s: System, x: InFlight) {
    forall id | id in Touched(x.command) && id in x.seen :: RowOf(s.rows, id).version == x.seen[id].version
  }

  /** What the transaction has written, on top of the store. */
  function Written(rows: Rows, c: Command, view: Rows): Rows {
    rows + map id | id in Touched(c) :: RowOf(Step(view, c).rows, id)
  }

  /** The action can happen in s. */
  predicate Enabled(s: System, a: Action) {
    match a
    case Begin(t, command) => t !in s.inFlight && Legal(command) && "" !in Touched(command)
    case Read(t, id) => t in s.inFlight && id in Touched(s.inFlight[t].command) && id !in s.inFlight[t].seen
    case Finish(t) => t in s.inFlight && s.inFlight[t].seen.Keys == Touched(s.inFlight[t].command)
  }

  function Next(s: System, a: Action): System
    requires Enabled(s, a)
  {
    match a
    case Begin(t, command) => s.(inFlight := s.inFlight[t := InFlight(command, map[])])
    case Read(t, id) =>
      var x := s.inFlight[t];
      s.(inFlight := s.inFlight[t := x.(seen := x.seen[id := RowOf(s.rows, id)])])
    case Finish(t) =>
      var x := s.inFlight[t];
      if Step(x.seen, x.command).rows == x.seen || !Current(s, x) then Drop(s, t)
      else Drop(s.(rows := Written(s.rows, x.command, x.seen), committed := s.committed + [x.command]), t)
  }

  /** What a finishing transaction tells its caller. */
  function Answer(s: System, t: nat): Result<()>
    requires Enabled(s, Finish(t))
  {
    var x := s.inFlight[t];
    var out := Step(x.seen, x.command);
    if out.rows == x.seen then out.result
    else if !Current(s, x) then Err(VersionConflict)
    else out.result
  }

  // ---------------------------------------------------------------- a command depends on its own rows only

  ghost predicate Agree(a: Rows, b: Rows, ids: set<string>) { forall id | id in ids :: RowOf(a, id) == RowOf(b, id) }

  lemma LoadAllAgrees(a: Rows, b: Rows, ids: set<string>)
    requires Agree(a, b, ids)
    ensures LoadAll(a, ids) == LoadAll(b, ids)
  {
    hide Stores.StateOf, Stores.RowOf;
  }

  lemma RecordIsLocal(a: Rows, b: Rows, events: seq<Event>)
    requires Agree(a, b, AccountsOf(events))
    ensures Commits(a, events) <==> Commits(b, events)
    ensures Agree(Record(a, events).rows, Record(b, events).rows, AccountsOf(events))
  {
    hide Stores.StateOf, Ledger.BookAll, Ledger.AccountsOf, Stores.SavedRow, Ledger.LoadAll, Ledger.SnapshotClash;
    LoadAllAgrees(a, b, AccountsOf(events));
  }

  /** A committed batch gives every account it touches a longer log; any other batch changes no row. */
  lemma {:induction false} BookAllLengthens(live: Lives, events: seq<Event>, id: string)
    requires AccountsOf(events) <= live.Keys && BookAll(live, events).Ok? && BookAll(live, events).value.1 == |events|
    requires id in AccountsOf(events) && forall k | k in live :: live[k].id == k
    ensures BookAll(live, events).value.0[id].pending != []
  {
    assert events != [];
    hide Ledger.AccountsOf, Ledger.AccountOf, Postings.Preview, Postings.WellFormed, Accounts.Allowed, Postings.Same;
    var n := |events| - 1;
    AccountsOfStep(events);
    if id in AccountsOf(events[..n]) {
      BookAllLengthens(live, events[..n], id);
    }
  }

  lemma CommitWrites(rows: Rows, events: seq<Event>)
    requires GoodStore(rows) && Commits(rows, events)
    ensures Record(rows, events).rows == rows + map id | id in AccountsOf(events) :: RowOf(Record(rows, events).rows, id)
    ensures forall id | id in AccountsOf(events) :: |RowOf(Record(rows, events).rows, id).log| > |RowOf(rows, id).log|
  {
    hide Stores.StateOf, Ledger.BookAll, Ledger.AccountsOf, Stores.SavedRow, Ledger.LoadAll, Stores.GoodStore, Ledger.SnapshotClash,
         Started, Accounts.IsID, Ledger.Saved, Stores.RowOf;
    var ids := AccountsOf(events);
    var live := LoadAll(rows, ids);
    AccountIDsAreIDs(events);
    LoadAllStarted(rows, ids);
    LoadedLives(rows, ids);
    BookAllStarted(rows, live, events);
    var done := BookAll(live, events).value.0;
    SavedIsGood(rows, done, done.Keys);
    forall id | id in ids ensures done[id].pending != [] { BookAllLengthens(live, events, id); }
    SavedAll(rows, done);
  }

  /** When every account has something pending, saving all of them sets all of their rows. */
  lemma SavedAll(rows: Rows, live: Lives)
    requires forall id | id in live :: live[id].pending != []
    ensures Saved(rows, live, live.Keys) == rows + map id | id in live.Keys :: RowOf(Saved(rows, live, live.Keys), id)
  {
    hide Stores.SavedRow;
  }

  // ---------------------------------------------------------------- the invariant

  /** A row that was read is still the stored row, or the stored log has grown since. */
  predicate Past(read: Row, now: Row) { read == now || |read.log| < |now.log| }

  ghost predicate GoodRead(rows: Rows, x: InFlight) {
    && Legal(x.command) && "" !in Touched(x.command) && x.seen.Keys <= Touched(x.command)
    && forall id | id in x.seen ::
         GoodRow(id, x.seen[id]) && Past(x.seen[id], RowOf(rows, id)) && Keeps(StateOf(x.seen[id]), StateOf(RowOf(rows, id)))
  }

  /** The store is what the committed commands make of the empty store, run one after the other. */
  ghost predicate Serial(s: System) {
    && AllLegal(s.committed) && s.rows == Run(map[], s.committed) && GoodStore(s.rows)
    && forall t | t in s.inFlight :: GoodRead(s.rows, s.inFlight[t])
  }

  lemma {:induction false} RunSnoc(rows: Rows, commands: seq<Command>, c: Command)
    ensures Run(rows, commands + [c]) == Step(Run(rows, commands), c).rows
    decreases |commands|
  {
    hide Step;
    if commands == [] {
      assert Run(Step(rows, c).rows, []) == Step(rows, c).rows;
      assert ([] + [c])[1..] == [];
    } else {
      assert (commands + [c])[0] == commands[0] && (commands + [c])[1..] == commands[1..] + [c];
      RunSnoc(Step(rows, commands[0]).rows, commands[1..], c);
    }
  }

  lemma TouchedAreIDs(c: Command)
    requires "" !in Touched(c)
    ensures forall id | id in Touched(c) :: IsID(id)
  {
    hide Accounts.IsID, EventsOf;
    AccountIDsAreIDs(EventsOf(c));
  }

  /** A row read at its current version is the stored row. */
  lemma CurrentReadsAreExact(s: System, x: InFlight)
    requires Serial(s) && GoodRead(s.rows, x) && Current(s, x) && x.seen.Keys == Touched(x.command)
    ensures Agree(x.seen, s.rows, Touched(x.command)) && GoodStore(x.seen)
  {
    hide Accounts.Produced, Accounts.TransactionIDs, Accounts.Replay, Touched, Run, Legal, Accounts.IsID;
    TouchedAreIDs(x.command);
    forall id | id in Touched(x.command) ensures x.seen[id] == RowOf(s.rows, id) {
      RowIsGood(s.rows, id);
    }
  }

  /** A transaction that commits has exactly the effect of its command on the store as it is at that moment. */
  lemma CommitIsSerial(s: System, x: InFlight)
    requires Serial(s) && GoodRead(s.rows, x) && Current(s, x) && x.seen.Keys == Touched(x.command)
    requires Step(x.seen, x.command).rows != x.seen
    ensures Written(s.rows, x.command, x.seen) == Step(s.rows, x.command).rows
    ensures forall id | id in Touched(x.command) :: |RowOf(Step(s.rows, x.command).rows, id).log| > |RowOf(s.rows, id).log|
    ensures forall id | id !in Touched(x.command) :: RowOf(Step(s.rows, x.command).rows, id) == RowOf(s.rows, id)
  {
    hide Ledger.Record, Ledger.Transfer, Stores.GoodStore, Stores.RowOf, Ledger.AccountsOf, EventsOf, Run, Legal, Commits, Step, Past,
         Stores.GoodRow, Current, Stores.StateOf, OnlyAdds, Keeps;
    var events := EventsOf(x.command);
    CurrentReadsAreExact(s, x);
    StepIsRecord(x.seen, x.command);
    StepIsRecord(s.rows, x.command);
    ChangesAreCommits(x.seen, events);
    ChangesAreCommits(s.rows, events);
    RecordIsLocal(x.seen, s.rows, events);
    CommitWrites(s.rows, events);
  }

  /** Rows change by a commit only, and then only those of the batch. */
  lemma ChangesAreCommits(rows: Rows, events: seq<Event>)
    requires GoodStore(rows)
    ensures Record(rows, events).rows != rows ==> Commits(rows, events)
    ensures forall id | id !in AccountsOf(events) :: RowOf(Record(rows, events).rows, id) == RowOf(rows, id)
  {
    hide Ledger.Record, Stores.GoodStore, Stores.RowOf, Ledger.AccountsOf, Commits, Stores.StateOf, OnlyAdds, Keeps, BookedOn;
    RecordEffect(rows, events);
  }

  /** Reads stay good while the store grows. */
  lemma ReadAges(rows: Rows, later: Rows, x: InFlight)
    requires GoodRead(rows, x) && Grows(rows, later)
    requires forall id :: RowOf(later, id) == RowOf(rows, id) || |RowOf(later, id).log| > |RowOf(rows, id).log|
    ensures GoodRead(later, x)
  {
    hide Stores.GoodRow, Legal, Touched, Stores.RowOf, Stores.StateOf;
  }

  lemma NothingRead(rows: Rows, c: Command)
    requires Legal(c) && "" !in Touched(c)
    ensures GoodRead(rows, InFlight(c, map[]))
  {
    hide Legal, Touched;
  }

  lemma ReadIsLegal(rows: Rows, x: InFlight)
    requires GoodRead(rows, x)
    ensures Legal(x.command) && "" !in Touched(x.command)
  {
    hide Legal, Touched, Stores.GoodRow, Past, Keeps;
  }

  lemma OneMoreRead(rows: Rows, x: InFlight, id: string)
    requires GoodStore(rows) && GoodRead(rows, x) && id in Touched(x.command) && IsID(id)
    ensures GoodRead(rows, x.(seen := x.seen[id := RowOf(rows, id)]))
  {
    hide Legal, Touched, Stores.GoodRow, Stores.RowOf, Stores.StateOf, Accounts.IsID, Stores.GoodStore;
    RowIsGood(rows, id);
  }

  lemma NextKeepsSerial(s: System, a: Action)
    requires Serial(s) && Enabled(s, a)
    ensures Serial(Next(s, a))
  {
    hide Stores.GoodStore, Run, Legal, Step, Accounts.Produced, Accounts.TransactionIDs, Accounts.Replay, Touched, Stores.GoodRow,
         Written, Current, Grows, GoodRead;
    match a {
      case Begin(t, command) => NothingRead(s.rows, command);
      case Read(t, id) =>
        ReadIsLegal(s.rows, s.inFlight[t]);
        TouchedAreIDs(s.inFlight[t].command);
        OneMoreRead(s.rows, s.inFlight[t], id);
      case Finish(t) =>
        var x := s.inFlight[t];
        if Step(x.seen, x.command).rows != x.seen && Current(s, x) {
          ReadIsLegal(s.rows, x);
          CommitIsSerial(s, x);
          StepGrows(s.rows, x.command);
          RunSnoc(map[], s.committed, x.command);
          var rows := Step(s.rows, x.command).rows;
          forall u | u in s.inFlight && u != t ensures GoodRead(rows, s.inFlight[u]) { ReadAges(s.rows, rows, s.inFlight[u]); }
        }
    }
  }

  function Reach(actions: seq<Action>): System
    requires AllEnabled(actions)
    decreases |actions|, 1
  {
    if actions == [] then INIT else Next(Reach(actions[..|actions| - 1]), actions[|actions| - 1])
  }

  predicate AllEnabled(actions: seq<Action>)
    decreases |actions|, 0
  {
    actions == [] ||
    (AllEnabled(actions[..|actions| - 1]) && Enabled(Reach(actions[..|actions| - 1]), actions[|actions| - 1]))
  }

  /**
   Serialisability without locks: after any interleaving of begins, reads and finishes, the store is the one
   the committed commands produce when run one at a time in commit order.
   */
  lemma {:induction false} EveryInterleavingIsSerial(actions: seq<Action>)
    requires AllEnabled(actions)
    ensures Serial(Reach(actions))
  {
    hide Stores.GoodStore, Enabled, Next, GoodRead;
    if actions == [] {
      InitIsSerial();
    } else {
      EveryInterleavingIsSerial(actions[..|actions| - 1]);
      NextKeepsSerial(Reach(actions[..|actions| - 1]), actions[|actions| - 1]);
    }
  }

  lemma InitIsSerial()
    ensures Serial(INIT)
  {
  }

  // ---------------------------------------------------------------- answers

  /** What a command answers depends on the rows of its own accounts only. */
  lemma StepIsLocal(a: Rows, b: Rows, c: Command)
    requires Agree(a, b, Touched(c))
    ensures Step(a, c).result == Step(b, c).result
  {
    hide Stores.StateOf, Ledger.BookAll, Ledger.AccountsOf, Ledger.LoadAll, Ledger.SnapshotClash, Ledger.PlanTransfer, Ledger.PlanEvents,
         Ledger.Matched, Ledger.Saved;
    LoadAllAgrees(a, b, Touched(c));
  }

  /**
   A transaction whose reads are all current answers what its command answers when run alone on the store of that
   moment. So an answer without a serial counterpart (a version conflict, or a refusal computed from rows of
   different moments) comes only from a read that is out of date.
   */
  lemma CurrentAnswerIsSerial(s: System, t: nat)
    requires Serial(s) && Enabled(s, Finish(t)) && Current(s, s.inFlight[t])
    ensures Answer(s, t) == Step(s.rows, s.inFlight[t].command).result
  {
    hide Stores.GoodStore, Step, Run, Legal, Touched, Stores.GoodRow, Past, Keeps;
    var x := s.inFlight[t];
    assert GoodRead(s.rows, x);
    CurrentReadsAreExact(s, x);
    StepIsLocal(x.seen, s.rows, x.command);
  }

  /** A transaction that answers Ok, with a commit or without, has all of its events booked in the store of that moment. */
  lemma OkMeansBooked(s: System, t: nat)
    requires Serial(s) && Enabled(s, Finish(t)) && Answer(s, t).Ok?
    ensures forall e | e in EventsOf(s.inFlight[t].command) :: BookedIn(Next(s, Finish(t)).rows, e)
  {
    hide Stores.GoodStore, Step, Run, Legal, Stores.GoodRow, Past, EventsOf, Ledger.Record, BookedIn, Written, Current, Keeps, OnlyAdds,
         Commits, Touched;
    var x := s.inFlight[t];
    assert GoodRead(s.rows, x);
    OkOnReads(s, x);
    if Step(x.seen, x.command).rows == x.seen {
      forall e | e in EventsOf(x.command) ensures BookedIn(s.rows, e) {
        StillBooked(s, x, e);
      }
    } else {
      CurrentReadsAreExact(s, x);
      CommitIsSerial(s, x);
      StepIsLocal(x.seen, s.rows, x.command);
      OkStepBooks(s.rows, x.command);
    }
  }

  /** What a command reports as done, on rows it leaves alone, is booked in those rows. */
  lemma OkOnReads(s: System, x: InFlight)
    requires GoodRead(s.rows, x) && x.seen.Keys == Touched(x.command)
    ensures Step(x.seen, x.command).result.Ok? && Step(x.seen, x.command).rows == x.seen ==>
              forall e | e in EventsOf(x.command) :: BookedIn(x.seen, e)
  {
    hide Step, Legal, EventsOf, Stores.GoodRow, Past, Keeps, BookedIn, Touched;
    assert GoodStore(x.seen);
    if Step(x.seen, x.command).result.Ok? { OkStepBooks(x.seen, x.command); }
  }

  lemma OkStepBooks(rows: Rows, c: Command)
    requires GoodStore(rows) && Legal(c) && Step(rows, c).result.Ok?
    ensures forall e | e in EventsOf(c) :: BookedIn(Step(rows, c).rows, e)
  {
    hide Stores.GoodStore, Ledger.Record, BookedIn, Ledger.TransferPlan, Ledger.PlanTransfer, Ledger.PlanEvents;
    StepIsRecord(rows, c);
    SuccessBooks(rows, EventsOf(c));
  }

  lemma StillBooked(s: System, x: InFlight, e: Event)
    requires GoodRead(s.rows, x) && x.seen.Keys == Touched(x.command) && e in EventsOf(x.command) && BookedIn(x.seen, e)
    ensures BookedIn(s.rows, e)
  {
    hide Stores.GoodRow, Past, Keeps, EventsOf, BookedOn, Ledger.AccountOf, Stores.StateOf;
    assert AccountOf(e) in Touched(x.command);
    KeepsBooked(StateOf(x.seen[AccountOf(e)]), StateOf(RowOf(s.rows, AccountOf(e))), e);
  }

  /**
   Such a refusal exists: a batch that reads one account before another delivery of it commits and another account
   afterwards is refused, although before the commit it would have been stored and after it absorbed.
   */
  lemma MixedReadsAreRefused(rows: Rows, events: seq<Event>, e: Event, f: Event, seen: Rows)
    requires GoodStore(rows) && Commits(rows, events) && e in events && f in events
    requires RowOf(seen, AccountOf(e)) == RowOf(rows, AccountOf(e))
    requires RowOf(seen, AccountOf(f)) == RowOf(Record(rows, events).rows, AccountOf(f))
    ensures Record(seen, events).result.Err? && Record(seen, events).rows == seen
    ensures Record(rows, events).result == Ok(()) && Record(Record(rows, events).rows, events).result == Ok(())
  {
    hide Stores.GoodStore, Ledger.Record, Commits, Stores.StateOf, Ledger.AccountOf, BookedOn, Ledger.AccountsOf, Keeps, OnlyAdds,
         Distinct, Postings.Preview, Postings.WellFormed, Stores.RowOf;
    RecordEffect(rows, events);
    CommitsIsBookable(rows, events);
    assert BookedIn(seen, f);
    assert !BookedIn(seen, e) by { NotYetBooked(rows, seen, e); }
    KnownBatchExactly(seen, events, f);
    forall g | g in events ensures BookedIn(Record(rows, events).rows, g) {}
    KnownBatchExactly(Record(rows, events).rows, events, f);
    OkIsUnit(Record(Record(rows, events).rows, events).result);
  }

  lemma NotYetBooked(rows: Rows, seen: Rows, e: Event)
    requires UnbookedIn(rows, e) && RowOf(seen, AccountOf(e)) == RowOf(rows, AccountOf(e))
    ensures !BookedIn(seen, e)
  {
    hide Stores.StateOf, Stores.RowOf, Ledger.AccountOf, Postings.Preview, Postings.WellFormed;
  }

  lemma Extend(actions: seq<Action>, a: Action)
    requires AllEnabled(actions) && Enabled(Reach(actions), a)
    ensures AllEnabled(actions + [a]) && Reach(actions + [a]) == Next(Reach(actions), a)
  {
    hide Enabled, Next;
    assert (actions + [a])[..|actions|] == actions;
  }

  /** Two transactions on the same command; the first has read account a, the second both a and b. */
  function HalfRead(c: Command, a: string, b: string): System {
    System(map[], map[0 := InFlight(c, map[a := NO_ROW]), 1 := InFlight(c, map[a := NO_ROW, b := NO_ROW])], [])
  }

  lemma HalfReadIsReached(c: Command, a: string, b: string) returns (actions: seq<Action>)
    requires Legal(c) && Touched(c) == {a, b} && a != b && a != "" && b != ""
    ensures AllEnabled(actions) && Reach(actions) == HalfRead(c, a, b)
  {
    hide Legal, Touched, Step;
    actions := [];
    Extend(actions, Begin(0, c));
    actions := actions + [Begin(0, c)];
    Extend(actions, Begin(1, c));
    actions := actions + [Begin(1, c)];
    assert Reach(actions) == System(map[], map[0 := InFlight(c, map[]), 1 := InFlight(c, map[])], []);
    Extend(actions, Read(0, a));
    actions := actions + [Read(0, a)];
    Extend(actions, Read(1, a));
    actions := actions + [Read(1, a)];
    assert Reach(actions) == System(map[], map[0 := InFlight(c, map[a := NO_ROW]), 1 := InFlight(c, map[a := NO_ROW])], []);
    Extend(actions, Read(1, b));
    actions := actions + [Read(1, b)];
  }

  /** The second transaction commits, as it would alone. */
  lemma SecondCommits(events: seq<Event>, a: string, b: string)
    requires Commits(map[], events) && AccountsOf(events) == {a, b} && a != b
    requires Serial(HalfRead(Batch(events), a, b))
    ensures var s := HalfRead(Batch(events), a, b);
            && Enabled(s, Finish(1))
            && Next(s, Finish(1))
               == System(Record(map[], events).rows, map[0 := InFlight(Batch(events), map[a := NO_ROW])], [Batch(events)])
  {
    hide Ledger.Record, Stores.GoodStore, Commits, Run, Stores.GoodRow, Past, Keeps, Ledger.AccountsOf, Written, OnlyAdds, BookedOn;
    var s, c := HalfRead(Batch(events), a, b), Batch(events);
    var x := s.inFlight[1];
    assert Touched(c) == {a, b};
    assert GoodRead(s.rows, x);
    CurrentReadsAreExact(s, x);
    RecordIsLocal(x.seen, s.rows, events);
    CommitWrites(x.seen, events);
    assert |RowOf(Record(x.seen, events).rows, a).log| > |RowOf(x.seen, a).log|;
    CommitIsSerial(s, x);
    assert s.inFlight - {1} == map[0 := InFlight(c, map[a := NO_ROW])];
  }

  /** And it is reached: two deliveries of any batch on two accounts that the empty store accepts. */
  lemma ConcurrentRedeliveryRefused(events: seq<Event>, a: string, b: string)
    requires Commits(map[], events) && AccountsOf(events) == {a, b} && a != b
    ensures exists actions ::
              && AllEnabled(actions) && Enabled(Reach(actions), Finish(0)) && Reach(actions).inFlight[0].command == Batch(events)
              && Answer(Reach(actions), 0).Err? && Step(Reach(actions).rows, Batch(events)).result.Ok?
  {
    hide Ledger.Record, Stores.GoodStore, Commits, Serial, Ledger.AccountsOf, Step, Current, Reach, AllEnabled, HalfRead, Enabled, Next,
         Answer, Bookable;
    var c := Batch(events);
    BothNamed(events, a, b);
    var actions := HalfReadIsReached(c, a, b);
    EveryInterleavingIsSerial(actions);
    SecondCommits(events, a, b);
    Extend(actions, Finish(1));
    actions := actions + [Finish(1)];
    var rows := Record(map[], events).rows;
    FirstIsRefused(events, a, b);
    Extend(actions, Read(0, b));
    actions := actions + [Read(0, b)];
  }

  lemma BothNamed(events: seq<Event>, a: string, b: string)
    requires Commits(map[], events) && AccountsOf(events) == {a, b}
    ensures Touched(Batch(events)) == {a, b} && a != "" && b != ""
  {
    hide Ledger.Record, Stores.GoodStore, Ledger.AccountsOf, Ledger.BookAll, Ledger.LoadAll, Ledger.SnapshotClash;
  }

  /** The first transaction reads its second account after the commit, and is refused. */
  lemma FirstIsRefused(events: seq<Event>, a: string, b: string)
    requires Commits(map[], events) && AccountsOf(events) == {a, b} && a != b
    ensures var s := System(Record(map[], events).rows, map[0 := InFlight(Batch(events), map[a := NO_ROW])], [Batch(events)]);
            && Enabled(s, Read(0, b))
            && var t := Next(s, Read(0, b));
               && Enabled(t, Finish(0)) && t.inFlight[0].command == Batch(events) && Answer(t, 0).Err?
               && Step(t.rows, Batch(events)).result.Ok?
  {
    hide Ledger.Record, Stores.GoodStore, Commits, Ledger.AccountsOf, Ledger.AccountOf, Current;
    var rows := Record(map[], events).rows;
    var seen := map[a := NO_ROW, b := RowOf(rows, b)];
    EventOn(events, a);
    EventOn(events, b);
    var e :| e in events && AccountOf(e) == a;
    var f :| f in events && AccountOf(f) == b;
    EmptyIsGood();
    MixedReadsAreRefused(map[], events, e, f, seen);
    assert map[a := NO_ROW][b := RowOf(rows, b)] == seen;
    assert seen.Keys == {a, b};
  }

  lemma EmptyIsGood()
    ensures GoodStore(map[])
  {
  }

  lemma EventOn(events: seq<Event>, id: string)
    requires id in AccountsOf(events)
    ensures exists e :: e in events && AccountOf(e) == id
  {
    hide Ledger.AccountOf;
  }
}
