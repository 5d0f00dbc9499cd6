/**
 The event store behind the ledger repository: one row per account with its version, its event
 log, the reserved transaction ids and the snapshots
 (core/modules/ledger/infra/persistent/repository).
 */
module Stores {
  import opened Text
  import opened Postings
  import opened Accounts

  /** ledger_aggregates, ledger_events, ledger_posted_transactions and ledger_snapshots, for one account */
  datatype Row = Row(version: nat, log: seq<Event>, reserved: set<string>, snapshots: map<nat, State>)

  const NO_ROW := Row(0, [], {}, map[])
  const SNAPSHOT_EVERY := 100

  type Rows = map<string, Row>

  function RowOf(rows: Rows, id: string): Row { if id in rows then rows[id] else NO_ROW }

  /** The simple meaning of a row: its whole log, replayed on a fresh aggregate. */
  function StateOf(row: Row): State {
    match Replay(FRESH, row.log) case Ok(s) => s case Err(_) => FRESH
  }

  /**
   A row in good order: its log was made by commands, its version is the log's length, the reserved
   ids are those posted, and each snapshot is the replay of the log up to its version.
   */
  ghost predicate GoodRow(id: string, row: Row) {
    && Produced(id, FRESH, 0, row.log)
    && row.version == |row.log|
    && row.reserved == TransactionIDs(row.log)
    && forall v | v in row.snapshots :: 0 < v <= |row.log| && Replay(FRESH, row.log[..v]) == Ok(row.snapshots[v])
  }

  ghost predicate GoodStore(rows: Rows) {
    forall id | id in rows :: GoodRow(id, rows[id])
  }

  lemma NoRowIsGood(id: string)
    requires IsID(id)
    ensures GoodRow(id, NO_ROW)
  {
    hide Text.Trimmed;
    assert TransactionIDs([]) == {};
  }

  /** In a good store every row is good, the absent ones included. */
  lemma RowIsGood(rows: Rows, id: string)
    requires GoodStore(rows) && IsID(id)
    ensures GoodRow(id, RowOf(rows, id))
  {
    hide GoodRow, Text.Trimmed;
    NoRowIsGood(id);
  }

  /** What a good row means for its account. */
  lemma GoodRowMeans(id: string, row: Row)
    requires GoodRow(id, row)
    ensures Replay(FRESH, row.log) == Ok(StateOf(row)) && Sound(id, StateOf(row)) && IsID(id)
    ensures row.reserved == StateOf(row).posted.Keys
  {
    hide Accounts.IsNew, Accounts.Transition, Text.Trimmed, Accounts.Sound;
    FreshIsSound(id);
    ReplayIsSound(id, FRESH, 0, row.log);
    ReplayGrows(id, FRESH, 0, row.log);
  }

  // ---------------------------------------------------------------- loading

  /** The live account a load ends with: the row's version and its replayed state. */
  function LoadLive(rows: Rows, id: string): Live {
    Loaded(id, |RowOf(rows, id).log|, StateOf(RowOf(rows, id)))
  }

  /** The events of a log that come after a version (the query `version > ?`). */
  function After(log: seq<Event>, v: nat): seq<Event> {
    if log == [] then []
    else if log[0].version > v then [log[0]] + After(log[1..], v)
    else After(log[1..], v)
  }

  lemma {:induction false} AfterIsSuffix(log: seq<Event>, first: nat, v: nat)
    requires forall i | 0 <= i < |log| :: log[i].version == first + i + 1
    requires first <= v <= first + |log|
    ensures After(log, v) == log[v - first..]
    decreases log
  {
    if log != [] {
      if first < v {
        AfterIsSuffix(log[1..], first + 1, v);
      } else {
        AfterAll(log, first);
      }
    }
  }

  lemma {:induction false} AfterAll(log: seq<Event>, v: nat)
    requires forall i | 0 <= i < |log| :: log[i].version > v
    ensures After(log, v) == log
  {
    if log != [] { AfterAll(log[1..], v); }
  }

  ghost predicate IsNewest(snapshots: map<nat, State>, v: nat) {
    v in snapshots && forall u | u in snapshots :: u <= v
  }

  lemma {:induction false} NewestExists(snapshots: map<nat, State>)
    requires snapshots != map[]
    ensures exists v :: IsNewest(snapshots, v)
    decreases |snapshots|
  {
    var k :| k in snapshots;
    var rest := snapshots - {k};
    assert rest.Keys == snapshots.Keys - {k};
    if rest == map[] {
      assert IsNewest(snapshots, k) by { assert forall u | u in snapshots :: u == k || u in rest; }
    } else {
      NewestExists(rest);
      var v :| IsNewest(rest, v);
      assert forall u | u in snapshots :: u == k || u in rest;
      assert IsNewest(snapshots, if k > v then k else v);
    }
  }

  lemma GoodRowVersions(id: string, row: Row)
    requires GoodRow(id, row)
    ensures forall i | 0 <= i < |row.log| :: row.log[i].version == 0 + i + 1
  {
    hide Accounts.Produced, Accounts.Replay, Accounts.TransactionIDs, Postings.Preview;
    forall i | 0 <= i < |row.log| ensures row.log[i].version == 0 + i + 1 {
      ProducedVersions(id, FRESH, 0, row.log, i);
    }
  }

  /** A snapshot with the events after it replays to what the whole log replays to. */
  lemma SnapshotRefinesReplay(id: string, row: Row, v: nat)
    requires GoodRow(id, row) && v in row.snapshots
    ensures v <= |row.log| && After(row.log, v) == row.log[v..]
    ensures Replay(row.snapshots[v], After(row.log, v)) == Ok(StateOf(row))
  {
    hide Accounts.Produced, Accounts.Replay, Accounts.Sound, Accounts.TransactionIDs, After, StateOf, Accounts.IsID;
    GoodRowVersions(id, row);
    AfterIsSuffix(row.log, 0, v);
    assert row.log == row.log[..v] + row.log[v..];
    ReplaySplits(FRESH, row.log[..v], row.log[v..]);
    GoodRowMeans(id, row);
  }

  // ---------------------------------------------------------------- saving

  /** How many of the versions base+1 .. base+n are snapshot versions. */
  function Milestones(base: nat, n: nat): (k: nat) {
    (base + n) / SNAPSHOT_EVERY - base / SNAPSHOT_EVERY
  }

  /** The row once the pending events of a live account were stored on it. */
  function SavedRow(row: Row, l: Live): Row {
    if l.pending == [] then row else
      Row(l.base + |l.pending|, row.log + l.pending, row.reserved + TransactionIDs(l.pending),
          if Milestones(l.base, |l.pending|) == 0 then row.snapshots
          else row.snapshots[l.base + |l.pending| := l.state])
  }

  /** Saving an account that was loaded from a good row and then worked on by commands leaves a good row. */
  lemma SavedRowIsGood(id: string, row: Row, l: Live)
    requires GoodRow(id, row) && l.id == id && l.base == |row.log| && InStep(StateOf(row), l)
    ensures GoodRow(id, SavedRow(row, l)) && StateOf(SavedRow(row, l)) == l.state
    ensures SavedRow(row, l).log == row.log + l.pending
    ensures row.reserved !! TransactionIDs(l.pending)
  {
    hide Accounts.IsNew, Accounts.Transition, Accounts.Sound, Text.Trimmed, Postings.Preview;
    GoodRowMeans(id, row);
    ProducedJoins(id, FRESH, 0, row.log, l.pending);
    ReplaySplits(FRESH, row.log, l.pending);
    ReplayGrows(id, StateOf(row), l.base, l.pending);
    var saved := SavedRow(row, l);
    if l.pending == [] {
      assert row.log + l.pending == row.log;
    } else {
      assert TransactionIDs(row.log + l.pending) == TransactionIDs(row.log) + TransactionIDs(l.pending);
      forall v | v in saved.snapshots
        ensures 0 < v <= |saved.log| && Replay(FRESH, saved.log[..v]) == Ok(saved.snapshots[v])
      {
        if v == |saved.log| {
          assert saved.log[..v] == saved.log;
        } else {
          assert v in row.snapshots;
          assert saved.log[..v] == row.log[..v];
        }
      }
    }
  }
}
