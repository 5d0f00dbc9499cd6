/**
 The ledger account repository over the store: Load reads the newest snapshot and the events after
 it, Save reserves the transaction ids, checks the version and appends
 (ledger_account_aggregate_repo_impl.go, ledger_aggregate_store.go, ledger_aggregate_event_store.go).
 */
module Repositories {
  import opened Text
  import opened Postings
  import opened Accounts
  import opened Aggregates
  import opened Stores

  class LedgerRepository {
    var rows: Rows

    constructor ()
      ensures rows == map[] && Valid()
    {
      rows := map[];
    }

    ghost predicate Valid()
      reads this
    {
      GoodStore(rows)
    }

    /**
     Load, and the fresh aggregate its caller makes when nothing is stored. Whatever snapshot it
     starts from, the account it returns is the replay of the whole log.
     */
    method Load(accountID: string) returns (r: Result<LedgerAccountAggregate>)
      requires Valid()
      ensures r == Err(AccountIDRequired) <==> Trim(accountID) == ""
      ensures Trim(accountID) != "" ==>
                && r.Ok? && fresh(r.value) && r.value.Valid()
                && r.value.View() == LoadLive(rows, Trim(accountID))
                && r.value.start == StateOf(RowOf(rows, Trim(accountID)))
    {
      hide Accounts.Replay, Accounts.Produced, Accounts.Sound, Text.Trim, Text.Trimmed, Stores.GoodRow, Stores.GoodStore,
           Stores.StateOf, Accounts.IsID, Stores.After;
      var id := Trim(accountID);
      if id == "" {
        return Err(AccountIDRequired);
      }
      TrimIsID(accountID);
      var agg := new LedgerAccountAggregate(id);
      var row := RowOf(rows, id);
      RowIsGood(rows, id);
      GoodRowMeans(id, row);
      if row.snapshots == map[] {
        LoadTail(agg, row.log, row);
      } else {
        NewestExists(row.snapshots);
        var v :| v in row.snapshots && forall u | u in row.snapshots :: u <= v;  // ORDER BY version DESC LIMIT 1
        var snapshot := row.snapshots[v];
        agg.accountID, agg.balances, agg.posted := snapshot.accountID, snapshot.balances, snapshot.posted;
        agg.version, agg.baseVersion, agg.events := v, v, [];
        SnapshotRefinesReplay(id, row, v);
        LoadTail(agg, After(row.log, v), row);
      }
      r := Ok(agg);
    }

    /** Get: replays the events read from the store on what the aggregate already holds */
    static method LoadTail(agg: LedgerAccountAggregate, log: seq<Event>, ghost row: Row)
      requires GoodRow(agg.aggregateID, row) && agg.events == [] && agg.version == agg.baseVersion
      requires agg.baseVersion + |log| == |row.log| && log == row.log[agg.baseVersion..]
      requires Replay(agg.Fields(), log) == Ok(StateOf(row))
      modifies agg
      ensures agg.Valid() && agg.start == StateOf(row)
      ensures agg.View() == Loaded(old(agg.aggregateID), |row.log|, StateOf(row))
    {
      hide Accounts.IsNew, Accounts.Transition, Accounts.Sound, Text.Trimmed, Stores.StateOf;
      ghost var s := agg.Fields();
      GoodRowMeans(agg.aggregateID, row);
      if |log| > 0 {
        ProducedVersions(agg.aggregateID, FRESH, 0, row.log, |row.log| - 1);
        assert log[|log| - 1] == row.log[|row.log| - 1];
      }
      var r := agg.LoadFromHistory(log);
      assert agg.Fields() == StateOf(row) && r.Ok? by {
        ghost var k :| 0 <= k <= |log| && Replay(s, log[..k]) == Ok(agg.Fields()) && (k == |log| <==> r.Ok?)
                       && (k < |log| ==> Accounts.Transition(agg.Fields(), log[k]) == Err(r.error));
        if k < |log| {
          ReplayStops(s, log, k);
        }
        assert log[..|log|] == log;
      }
      SoundOwned(agg.aggregateID, StateOf(row));
    }

    /**
     ReservePostedTransaction. An event that is no posting is passed over. The duplicate branch tests the wrong `err`,
     so a clash is silent.
     */
    method ReservePostedTransaction(evt: Event) returns (r: Result<()>)
      modifies this
      ensures evt.data.Unsupported? ==> r == Ok(()) && rows == old(rows)
      ensures !evt.data.Unsupported? && Preview(evt.aggregateID, evt.data).Err? ==>
                r == Err(Preview(evt.aggregateID, evt.data).error) && rows == old(rows)
      ensures Preview(evt.aggregateID, evt.data).Ok? ==>
                && r == Ok(())
                && rows == old(rows)[evt.aggregateID :=
                     RowOf(old(rows), evt.aggregateID).(reserved := RowOf(old(rows), evt.aggregateID).reserved
                       + {Preview(evt.aggregateID, evt.data).value.transactionID})]
    {
      hide Postings.NewPaymentPosting, Postings.WellFormed, Text.Trim;
      if evt.data.Unsupported? {
        return Ok(());
      }
      match Preview(evt.aggregateID, evt.data) {
        case Err(e) => r := Err(e);
        case Ok(p) =>
          var row := RowOf(rows, evt.aggregateID);
          rows := rows[evt.aggregateID := row.(reserved := row.reserved + {p.transactionID})];
          r := Ok(());
      }
    }

    /** Append: (aggregate, version) is unique in the event table */
    method Append(evt: Event) returns (r: Result<()>)
      modifies this
      ensures var row := RowOf(old(rows), evt.aggregateID);
              if exists i | 0 <= i < |row.log| :: row.log[i].version == evt.version
              then r == Err(DuplicateVersion) && rows == old(rows)
              else r == Ok(()) && rows == old(rows)[evt.aggregateID := row.(log := row.log + [evt])]
    {
      var row := RowOf(rows, evt.aggregateID);
      if exists i | 0 <= i < |row.log| :: row.log[i].version == evt.version {
        return Err(DuplicateVersion);
      }
      rows := rows[evt.aggregateID := row.(log := row.log + [evt])];
      r := Ok(());
    }

    /** CreateSnapshot: the snapshot id is (aggregate, current version) and is unique */
    method CreateSnapshot(id: string, version: nat, s: State) returns (r: Result<()>)
      modifies this
      ensures var row := RowOf(old(rows), id);
              if version in row.snapshots then r == Err(DuplicateSnapshot) && rows == old(rows)
              else r == Ok(()) && rows == old(rows)[id := row.(snapshots := row.snapshots[version := s])]
    {
      var row := RowOf(rows, id);
      if version in row.snapshots {
        return Err(DuplicateSnapshot);
      }
      rows := rows[id := row.(snapshots := row.snapshots[version := s])];
      r := Ok(());
    }

    /**
     Save. With nothing pending it does nothing. Otherwise it is refused when the stored version has
     moved since the load, or when two snapshot versions fall into this one save (both would be
     stored under the final version); else the row becomes SavedRow. After a refusal only the row of
     this account may have been touched, and the caller rolls the transaction back.
     */
    method Save(agg: LedgerAccountAggregate) returns (r: Result<()>)
      requires Valid() && agg.Valid()
      modifies this, agg
      ensures agg.aggregateID == old(agg.aggregateID)
      ensures old(agg.events) == [] ==> r == Ok(()) && rows == old(rows) && agg.View() == old(agg.View()) && agg.Valid()
      ensures old(agg.events) != [] ==>
                var row := RowOf(old(rows), agg.aggregateID);
                var l := old(agg.View());
                if row.version != l.base then r == Err(VersionConflict)
                else if Milestones(l.base, |l.pending|) > 1 then r == Err(DuplicateSnapshot)
                else && r == Ok(()) && rows == old(rows)[agg.aggregateID := SavedRow(row, l)]
                     && agg.Valid() && agg.View() == Loaded(l.id, l.base + |l.pending|, l.state)
      ensures rows - {agg.aggregateID} == old(rows) - {agg.aggregateID}
    {
      hide Accounts.IsNew, Accounts.Transition, Text.Trimmed, Accounts.Replay, Stores.GoodRow,
           Accounts.TransactionIDs, Accounts.Produced, Stores.SavedRow, Stores.Milestones;
      if |agg.events| == 0 {
        return Ok(());
      }
      var id := agg.aggregateID;
      ghost var row := RowOf(rows, id);
      InStepHasID(agg.start, agg.View());
      RowIsGood(rows, id);
      r := ReserveAll(agg);
      if r.Err? {
        return r;
      }
      if rows[id].version != agg.baseVersion {
        return Err(VersionConflict);
      }
      rows := rows[id := rows[id].(version := agg.Version())];
      r := AppendAll(agg, row);
      if r.Err? {
        return r;
      }
      PatchRow(rows, old(rows), id);
      agg.MarkPersisted();
    }

    /** The first part of Save: create the row if there is none, and reserve the id of every pending event. */
    method ReserveAll(agg: LedgerAccountAggregate) returns (r: Result<()>)
      requires agg.Valid()
      modifies this
      ensures r == Ok(())
      ensures rows - {agg.aggregateID} == old(rows) - {agg.aggregateID} && agg.aggregateID in rows
      ensures var row := RowOf(old(rows), agg.aggregateID);
              rows[agg.aggregateID] == row.(reserved := row.reserved + TransactionIDs(agg.events))
    {
      hide Accounts.Produced, Postings.Preview, Accounts.Replay, Accounts.TransactionIDs, Stores.GoodStore, Text.Trimmed;
      var id, events := agg.aggregateID, agg.events;
      ghost var row := RowOf(rows, id);
      if id !in rows {
        rows := rows[id := NO_ROW];
      }
      r := Ok(());
      assert TransactionIDs(events[..0]) == {} by { NoTransactionIDs(); }
      for i := 0 to |events|
        invariant r == Ok(()) && id in rows && rows - {id} == old(rows) - {id}
        invariant rows[id] == row.(reserved := row.reserved + TransactionIDs(events[..i]))
      {
        ReservedStep(agg.start, agg.View(), i);
        r := ReservePostedTransaction(events[i]);
        if r.Err? {
          return r;
        }
      }
      assert events[..|events|] == events;
    }

    /** The second loop of Save: append each event, and snapshot the aggregate at every hundredth version. */
    method AppendAll(agg: LedgerAccountAggregate, ghost row: Row) returns (r: Result<()>)
      requires agg.Valid() && agg.events != [] && agg.aggregateID in rows
      requires GoodRow(agg.aggregateID, row) && row.version == agg.baseVersion
      requires rows[agg.aggregateID] == row.(reserved := row.reserved + TransactionIDs(agg.events),
                                             version := agg.baseVersion + |agg.events|)
      modifies this
      ensures rows - {agg.aggregateID} == old(rows) - {agg.aggregateID}
      ensures if Milestones(agg.baseVersion, |agg.events|) > 1 then r == Err(DuplicateSnapshot)
              else r == Ok(()) && rows == old(rows)[agg.aggregateID := SavedRow(row, agg.View())]
    {
      hide Accounts.IsNew, Accounts.Transition, Accounts.Sound, Text.Trimmed, Postings.Preview, Accounts.Replay,
           Stores.GoodRow, Accounts.TransactionIDs, Accounts.Produced;
      var id, events, base := agg.aggregateID, agg.events, agg.baseVersion;
      ghost var start := rows;
      forall i | 0 <= i < |events| ensures events[i].aggregateID == id && events[i].version == base + i + 1 {
        PendingVersions(agg.start, agg.View(), i);
      }
      LogVersions(id, row);
      for i := 0 to |events|
        invariant id in rows && rows - {id} == start - {id}
        invariant Milestones(base, i) <= 1
        invariant rows[id] == start[id].(log := row.log + events[..i],
                                         snapshots := if Milestones(base, i) == 0 then row.snapshots
                                                      else row.snapshots[base + |events| := agg.Fields()])
      {
        assert events[..i + 1] == events[..i] + [events[i]];
        var appended := Append(events[i]);
        assert appended == Ok(()) by {
          var log := row.log + events[..i];
          forall j | 0 <= j < |log| ensures log[j].version == j + 1 {}
        }
        assert rows[id].log == row.log + events[..i + 1];
        MilestoneStep(base, i);
        if events[i].version % SNAPSHOT_EVERY == 0 {
          var snapped := CreateSnapshot(id, agg.Version(), agg.Fields());
          if snapped.Err? {
            MilestonesGrow(base, i + 1, |events|);
            return snapped;
          }
        }
      }
      assert events[..|events|] == events;
      PatchRow(rows, start, id);
      assert rows[id] == SavedRow(row, agg.View());
      r := Ok(());
    }
  }

  /** The next pending event is a posting on its account, and adds its transaction id. */
  lemma ReservedStep(start: State, l: Live, i: nat)
    requires InStep(start, l) && i < |l.pending|
    ensures var e := l.pending[i];
            && e.aggregateID == l.id && Preview(l.id, e.data).Ok? && !e.data.Unsupported?
            && TransactionIDs(l.pending[..i + 1])
               == TransactionIDs(l.pending[..i]) + {Preview(l.id, e.data).value.transactionID}
  {
    hide Accounts.Produced, Accounts.Replay, Accounts.TransactionIDs, Postings.NewPaymentPosting, Postings.WellFormed;
    ProducedVersions(l.id, start, l.base, l.pending, i);
    assert l.pending[..i + 1][..i] == l.pending[..i];
    TransactionIDsStep(l.pending[..i + 1]);
  }

  /** Stores that agree off one account differ only in that account's row. */
  lemma PatchRow(a: Rows, b: Rows, id: string)
    requires id in a && a - {id} == b - {id}
    ensures a == b[id := a[id]]
  {
    forall k | k in a ensures k in b[id := a[id]] && a[k] == b[id := a[id]][k] {
      assert k != id ==> k in a - {id};
    }
    forall k | k in b ensures k in a { assert k != id ==> k in b - {id}; }
  }

  lemma TrimIsID(accountID: string)
    requires Trim(accountID) != ""
    ensures IsID(Trim(accountID))
  {
    hide Text.Trimmed;
  }

  lemma PendingVersions(start: State, l: Live, i: nat)
    requires InStep(start, l) && i < |l.pending|
    ensures l.pending[i].aggregateID == l.id && l.pending[i].version == l.base + i + 1
  {
    hide Accounts.IsNew, Accounts.Replay, Text.Trimmed, Accounts.Produced;
    ProducedVersions(l.id, start, l.base, l.pending, i);
  }

  lemma LogVersions(id: string, row: Row)
    requires GoodRow(id, row)
    ensures row.version == |row.log| && forall i | 0 <= i < |row.log| :: row.log[i].version == i + 1
    ensures forall v | v in row.snapshots :: v <= |row.log|
  {
    hide Accounts.IsNew, Accounts.Replay, Text.Trimmed;
    forall i | 0 <= i < |row.log| ensures row.log[i].version == i + 1 {
      ProducedVersions(id, FRESH, 0, row.log, i);
    }
  }

  /** Replay stops for good at the first event that fails. */
  lemma {:induction false} ReplayStops(s: State, log: seq<Event>, k: nat)
    requires k < |log| && Replay(s, log[..k]).Ok? && Accounts.Transition(Replay(s, log[..k]).value, log[k]).Err?
    ensures Replay(s, log).Err?
  {
    hide Accounts.Transition;
    var n := |log| - 1;
    if k < n {
      assert log[..n][..k] == log[..k];
      ReplayStops(s, log[..n], k);
    }
  }

  lemma MilestoneStep(base: nat, i: nat)
    ensures Milestones(base, i + 1) == Milestones(base, i) + (if (base + i + 1) % SNAPSHOT_EVERY == 0 then 1 else 0)
  {
  }

  lemma MilestonesGrow(base: nat, i: nat, n: nat)
    requires i <= n
    ensures Milestones(base, i) <= Milestones(base, n)
  {
  }
}
