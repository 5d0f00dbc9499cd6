/**
 The ledger service over mutable aggregates and a repository
 (core/modules/ledger/application/service/ledger_service.go). Each command is proved to have exactly
 the outcome Ledger.Record or Ledger.Transfer gives it.
 */
module Services {
  import opened Text
  import opened Postings
  import opened Accounts
  import opened Aggregates
  import opened Stores
  import opened Repositories
  import opened Entities
  import opened Ledger
  import opened Batches
  import opened Transfers

  type Loaded = map<string, LedgerAccountAggregate>

  /** The loaded aggregates are the live accounts `live`, loaded from `rows`. */
  ghost predicate Tracks(aggs: Loaded, live: Lives, rows: Rows)
    reads aggs.Values
  {
    && aggs.Keys == live.Keys
    && forall id | id in aggs :: TracksOne(aggs[id], id, live[id], rows)
  }

  ghost predicate TracksOne(agg: LedgerAccountAggregate, id: string, l: Live, rows: Rows)
    reads agg
  {
    agg.Valid() && agg.View() == l && l.id == id && agg.start == StateOf(RowOf(rows, id))
  }

  /** An aggregate during the saves: still what it was, or saved with nothing pending. */
  ghost predicate Settled(agg: LedgerAccountAggregate, id: string, l: Live, rows: Rows, saved: bool)
    reads agg
  {
    && agg.Valid() && agg.aggregateID == id
    && if saved then agg.events == [] else TracksOne(agg, id, l, rows)
  }

  lemma DistinctAccounts(aggs: Loaded, live: Lives, rows: Rows, ids: set<string>)
    requires aggs.Keys == live.Keys && forall id | id in aggs :: Settled(aggs[id], id, live[id], rows, id in ids)
    ensures forall j, k | j in aggs && k in aggs && j != k :: aggs[j] != aggs[k]
  {
    hide Accounts.InStep, Stores.StateOf;
  }

  /** The applied flags of the four calls of a transfer. */
  datatype Applied = Applied(from: bool, to: bool, fee: bool, feeReceived: bool)

  /** The trimmed, non-blank ones among account ids. */
  function Named(ids: seq<string>): set<string> { set id | id in ids && Trim(id) != "" :: Trim(id) }

  function Elements(ids: seq<string>): set<string> { set id | id in ids }

  class LedgerService {
    const repo: LedgerRepository

    constructor (repo: LedgerRepository)
      ensures this.repo == repo
    {
      this.repo := repo;
    }

    /** loadLedgerAccounts: blank ids are skipped and each account is loaded once */
    method LoadLedgerAccounts(ids: seq<string>) returns (aggs: Loaded)
      requires repo.Valid()
      ensures forall id | id in aggs :: fresh(aggs[id])
      ensures Tracks(aggs, LoadAll(repo.rows, Named(ids)), repo.rows)
    {
      hide Text.Trim, Text.Trimmed, Stores.StateOf, Stores.GoodStore, Accounts.InStep, Stores.RowOf;
      aggs := map[];
      for i := 0 to |ids|
        invariant forall id | id in aggs :: fresh(aggs[id])
        invariant aggs.Keys == Named(ids[..i])
        invariant forall id | id in aggs :: TracksOne(aggs[id], id, LoadLive(repo.rows, id), repo.rows)
      {
        var id := Trim(ids[i]);
        NamedStep(ids, i);
        if id != "" && id !in aggs {
          var loaded := repo.Load(id);
          assert Trim(id) == id;
          aggs := aggs[id := loaded.value];
        }
      }
      assert ids[..|ids|] == ids;
    }

    /** Books one event on one of the loaded accounts; the others are different objects and stay as they are. */
    method ApplyOne(aggs: Loaded, id: string, data: EventData, ghost live: Lives) returns (r: Result<bool>)
      requires Tracks(aggs, live, repo.rows) && id in aggs
      modifies aggs[id]
      ensures match Book(live[id], data)
              case Err(e) => r == Err(e) && Tracks(aggs, live, repo.rows)
              case Ok((l, applied)) => r == Ok(applied) && Tracks(aggs, live[id := l], repo.rows)
    {
      hide Stores.StateOf, Accounts.InStep, Stores.RowOf, Postings.Preview;
      assert forall k | k in aggs && k != id :: aggs[k] != aggs[id] && aggs[k].aggregateID == k;
      r := aggs[id].ApplyPostingEvent(data);
    }

    /**
     The booking loop of RecordLedgerEvents. `seen` starts with every account and is drained at the
     first event of each, so the save order is that of first occurrence.
     */
    method ApplyEvents(aggs: Loaded, events: seq<Event>, accounts: set<string>, ghost live: Lives)
      returns (r: Result<nat>, saveOrder: seq<string>)
      requires Tracks(aggs, live, repo.rows) && accounts == AccountsOf(events) && accounts <= aggs.Keys
      requires "" !in accounts
      modifies aggs.Values
      ensures match BookAll(live, events)
              case Err(e) => r == Err(e)
              case Ok((done, count)) => r == Ok(count) && Tracks(aggs, done, repo.rows)
      ensures r.Ok? ==> saveOrder == FirstOccurrences(events)
    {
      hide Text.Trim, Text.Trimmed, Accounts.Book, TracksOne, Ledger.AccountOf;
      var seen, appliedCount := accounts, 0;
      saveOrder := [];
      ghost var done := live;
      for i := 0 to |events|
        invariant AccountsOf(events[..i]) <= live.Keys
        invariant BookAll(live, events[..i]) == Ok((done, appliedCount))
        invariant Tracks(aggs, done, repo.rows)
        invariant saveOrder == FirstOccurrences(events[..i]) && seen == accounts - AccountsOf(events[..i])
      {
        var evt := events[i];
        var id := AccountOf(evt);
        assert id in accounts;
        assert events[..i + 1][..i] == events[..i];
        AccountsOfStep(events[..i + 1]);
        if id in seen {
          seen := seen - {id};
          saveOrder := saveOrder + [id];
        }
        var applied := ApplyOne(aggs, id, evt.data, done);
        if applied.Err? {
          BookAllFails(live, events, i);
          return Err(applied.error), saveOrder;
        }
        done := done[id := Book(done[id], evt.data).value.0];
        if applied.value {
          appliedCount := appliedCount + 1;
        }
      }
      assert events[..|events|] == events;
      r := Ok(appliedCount);
    }

    /** The accounts `ids` have been saved, the others not yet. */
    ghost predicate SavedSoFar(aggs: Loaded, live: Lives, rows: Rows, ids: set<string>)
      reads repo, aggs.Values
    {
      && repo.rows == Saved(rows, live, ids) && GoodStore(repo.rows)
      && aggs.Keys == live.Keys
      && forall id | id in aggs :: Settled(aggs[id], id, live[id], rows, id in ids)
    }

    /** One save. An account that comes up a second time has nothing pending any more, so nothing happens. */
    method SaveOne(aggs: Loaded, id: string, ghost live: Lives, ghost rows: Rows, ghost ids: set<string>)
      returns (r: Result<()>)
      requires GoodStore(rows) && Started(rows, live) && SavedSoFar(aggs, live, rows, ids) && id in aggs
      modifies repo, aggs[id]
      ensures if id !in ids && Milestones(live[id].base, |live[id].pending|) > 1 then r == Err(DuplicateSnapshot)
              else r == Ok(()) && SavedSoFar(aggs, live, rows, ids + {id})
    {
      hide Stores.GoodStore, Stores.SavedRow, Stores.Milestones, Ledger.Saved, Started, Stores.RowOf, Stores.StateOf, Settled;
      SaveStep(rows, live, ids, id);
      DistinctAccounts(aggs, live, rows, ids);
      r := SaveSettled(aggs[id], id, live[id], rows, id in ids);
    }

    /** Saves one aggregate, given whether it was saved before. */
    method SaveSettled(agg: LedgerAccountAggregate, id: string, ghost l: Live, ghost rows: Rows, ghost saved: bool)
      returns (r: Result<()>)
      requires GoodStore(repo.rows) && Settled(agg, id, l, rows, saved) && l.id == id
      requires !saved ==> RowOf(repo.rows, id) == RowOf(rows, id) && RowOf(rows, id).version == l.base
      modifies repo, agg
      ensures if !saved && Milestones(l.base, |l.pending|) > 1 then r == Err(DuplicateSnapshot)
              else
                && r == Ok(()) && Settled(agg, id, l, rows, true)
                && repo.rows == if saved || l.pending == [] then old(repo.rows)
                                else old(repo.rows)[id := SavedRow(RowOf(rows, id), l)]
    {
      hide Stores.GoodStore, Stores.SavedRow, Stores.Milestones, Accounts.InStep, Stores.StateOf;
      NoMilestones(l.base);
      r := repo.Save(agg);
    }

    /** Saves the accounts in the given order, stopping at the first save that is refused. */
    method SaveAll(aggs: Loaded, order: seq<string>, ghost live: Lives)
      returns (r: Result<()>)
      requires repo.Valid() && Tracks(aggs, live, repo.rows) && Started(repo.rows, live)
      requires forall id | id in order :: id in aggs
      modifies repo, aggs.Values
      ensures r == Ok(()) || r == Err(DuplicateSnapshot)
      ensures r == Err(DuplicateSnapshot) <==>
                exists id | id in order :: Milestones(live[id].base, |live[id].pending|) > 1
      ensures r == Ok(()) ==> repo.rows == Saved(old(repo.rows), live, Elements(order)) && repo.Valid()
    {
      hide Stores.GoodStore, Stores.Milestones, Started, Accounts.InStep, Elements, Stores.SavedRow, Stores.StateOf;
      ghost var rows := repo.rows;
      assert Saved(rows, live, {}) == rows;
      assert Elements(order[..0]) == {} by { ElementsOfNone(order); }
      for i := 0 to |order|
        invariant SavedSoFar(aggs, live, rows, Elements(order[..i]))
        invariant forall id | id in order[..i] :: Milestones(live[id].base, |live[id].pending|) <= 1
      {
        ElementsStep(order, i);
        r := SaveOne(aggs, order[i], live, rows, Elements(order[..i]));
        if r.Err? {
          assert order[i] in order;
          return r;
        }
      }
      assert order[..|order|] == order;
      r := Ok(());
    }

    /** RecordLedgerEvents: the whole batch or nothing */
    method RecordLedgerEvents(events: seq<Event>) returns (r: Result<()>)
      requires repo.Valid()
      modifies repo
      ensures Outcome(repo.rows, r) == Record(old(repo.rows), events)
      ensures repo.Valid()
    {
      hide Ledger.BookAll, Ledger.LoadAll, Ledger.Saved, Stores.GoodStore, Ledger.SnapshotClash, Ledger.AccountsOf;
      if |events| == 0 {
        return Ok(());
      }
      var begin := repo.rows;
      r := RecordInTransaction(events);
      if r.Err? {
        repo.rows := begin;
      }
    }

    /** The first loop of RecordLedgerEvents: the accounts of the batch, refusing an event without one */
    method CollectAccounts(events: seq<Event>) returns (r: Result<(seq<string>, set<string>)>)
      ensures r == if "" in AccountsOf(events) then Err(EventAggregateIDRequired)
                   else Ok((FirstOccurrences(events), AccountsOf(events)))
    {
      hide Ledger.AccountOf;
      var accountIDs: seq<string>, seen: set<string> := [], {};
      for i := 0 to |events|
        invariant seen == AccountsOf(events[..i]) && "" !in seen
        invariant accountIDs == FirstOccurrences(events[..i])
      {
        var id := AccountOf(events[i]);
        assert events[..i + 1][..i] == events[..i];
        AccountsOfStep(events[..i + 1]);
        if id == "" {
          assert id in AccountsOf(events);
          return Err(EventAggregateIDRequired);
        }
        if id !in seen {
          seen := seen + {id};
          accountIDs := accountIDs + [id];
        }
      }
      assert events[..|events|] == events;
      r := Ok((accountIDs, seen));
    }

    /** The body of RecordLedgerEvents' transaction; on an error the caller rolls back. */
    method RecordInTransaction(events: seq<Event>) returns (r: Result<()>)
      requires repo.Valid() && events != []
      modifies repo
      ensures r == Record(old(repo.rows), events).result
      ensures r.Ok? ==> repo.rows == Record(old(repo.rows), events).rows && repo.Valid()
    {
      hide Accounts.InStep, Stores.StateOf, Stores.GoodStore, Text.Trim, Text.Trimmed, Ledger.BookAll, Ledger.LoadAll,
           Ledger.Saved, Stores.Milestones, TracksOne, Ledger.AccountOf, Ledger.AccountsOf, Started;
      var collected := CollectAccounts(events);
      if collected.Err? {
        return Err(collected.error);
      }
      var (accountIDs, seen) := collected.value;
      NamedAccounts(accountIDs, events);
      ghost var rows := repo.rows;
      var aggs := LoadLedgerAccounts(accountIDs);
      ghost var live := LoadAll(rows, AccountsOf(events));
      var applied, saveOrder := ApplyEvents(aggs, events, seen, live);
      if applied.Err? {
        return Err(applied.error);
      }
      if applied.value == 0 {
        return Ok(());
      }
      if applied.value != |events| {
        return Err(BatchInconsistent);
      }
      ghost var done := BookAll(live, events).value.0;
      AccountIDsAreIDs(events);
      LoadAllStarted(rows, AccountsOf(events));
      BookAllStarted(rows, live, events);
      r := SaveAll(aggs, saveOrder, done);
      assert Elements(saveOrder) == done.Keys;
    }

    /** The posting an account has under the transaction id of an expected one. */
    method LookUp(agg: LedgerAccountAggregate, id: string, posting: Posting, ghost live: Lives, ghost e: Event)
      returns (existing: Option<Posting>)
      requires id == AccountOf(e) && id in live && TracksOne(agg, id, live[id], repo.rows)
      requires Preview(id, e.data) == Ok(posting) && IsID(posting.transactionID)
      ensures MatchedOne(live, e) ==
              match existing
              case None => Ok(0)
              case Some(p) => if Same(p, posting) then Ok(1) else Err(PostingMismatch)
    {
      hide Text.Trim, Text.Trimmed, Postings.Preview, Postings.WellFormed, Postings.Same, Ledger.AccountOf, Accounts.InStep,
           Stores.StateOf, Accounts.IsID;
      TrimOfID(posting.transactionID);
      existing := agg.PostedTransaction(posting.transactionID);
    }

    /** ensureLedgerPostingsState: are the expected postings all there, all absent, or (an error) neither? */
    method EnsureLedgerPostingsState(aggs: Loaded, expected: seq<(string, Posting)>, ghost live: Lives, ghost events: seq<Event>)
      returns (r: Result<bool>)
      requires Tracks(aggs, live, repo.rows) && AccountsOf(events) <= live.Keys
      requires |expected| == |events| > 0
      requires forall i | 0 <= i < |events| ::
                 && expected[i].0 == AccountOf(events[i]) && expected[i].0 != ""
                 && Preview(AccountOf(events[i]), events[i].data) == Ok(expected[i].1)
                 && IsID(expected[i].1.transactionID)
      ensures r == match Matched(live, events)
                   case Err(e) => Err(e)
                   case Ok(count) =>
                     if count == 0 then Ok(false)
                     else if count != |events| then Err(StateInconsistent)
                     else Ok(true)
    {
      hide Postings.Preview, Postings.Same, Ledger.AccountOf, Ledger.AccountsOf, Ledger.Matched, Ledger.MatchedOne, TracksOne,
           Accounts.IsID;
      var matchedCount := 0;
      AccountsOfPrefix(events, 0);
      MatchedNone(live, events[..0]);
      for i := 0 to |expected|
        invariant AccountsOf(events[..i]) <= live.Keys
        invariant Matched(live, events[..i]) == Ok(matchedCount)
      {
        AccountsOfPrefix(events, i + 1);
        MatchedUnfolds(live, events, i);
        var (id, posting) := expected[i];
        var existing := LookUp(aggs[id], id, posting, live, events[i]);
        if existing.Some? {
          if !Same(existing.value, posting) {
            MatchedFails(live, events, i);
            return Err(PostingMismatch);
          }
          matchedCount := matchedCount + 1;
        }
      }
      assert events[..|events|] == events;
      if matchedCount == 0 {
        return Ok(false);
      }
      if matchedCount != |expected| {
        return Err(StateInconsistent);
      }
      r := Ok(true);
    }

    /** The sending side of a booking: an outgoing transfer on the loaded sender. */
    method Send(aggs: Loaded, tx: string, b: TransferBooking, now: Time, ghost live: Lives) returns (r: Result<bool>)
      requires Tracks(aggs, live, repo.rows) && b.from in aggs
      requires IsID(tx) && GoodBooking(b) && now != ZERO_TIME
      modifies aggs[b.from]
      ensures match Book(live[b.from], BookingEvents(tx, b, now)[0].data)
              case Err(e) => r == Err(e)
              case Ok((l, applied)) => r == Ok(applied) && Tracks(aggs, live[b.from := l], repo.rows)
    {
      hide Accounts.IsID, GoodBooking, Accounts.InStep, Stores.StateOf, Accounts.Book, Stores.RowOf, Text.Trim, Text.Trimmed,
           Postings.TransferOutPosting, Postings.TransferInPosting, Ledger.AccountOf, Postings.WellFormed;
      BookingReads(tx, b, now);
      assert forall k | k in aggs && k != b.from :: aggs[k] != aggs[b.from] && aggs[k].aggregateID == k;
      r := aggs[b.from].TransferToAccount(tx, b.to, b.currency, b.amount, now);
    }

    /** The receiving side of a booking. */
    method Receive(aggs: Loaded, tx: string, b: TransferBooking, now: Time, ghost live: Lives) returns (r: Result<bool>)
      requires Tracks(aggs, live, repo.rows) && b.to in aggs
      requires IsID(tx) && GoodBooking(b) && now != ZERO_TIME
      modifies aggs[b.to]
      ensures match Book(live[b.to], BookingEvents(tx, b, now)[1].data)
              case Err(e) => r == Err(e)
              case Ok((l, applied)) => r == Ok(applied) && Tracks(aggs, live[b.to := l], repo.rows)
    {
      hide Accounts.IsID, GoodBooking, Accounts.InStep, Stores.StateOf, Accounts.Book, Stores.RowOf, Text.Trim, Text.Trimmed,
           Postings.TransferOutPosting, Postings.TransferInPosting, Ledger.AccountOf, Postings.WellFormed;
      BookingReads(tx, b, now);
      assert forall k | k in aggs && k != b.to :: aggs[k] != aggs[b.to] && aggs[k].aggregateID == k;
      r := aggs[b.to].ReceiveTransfer(tx, b.from, b.currency, b.amount, now);
    }

    /** Both sides of one booking, in the order in which TransferToAccount works on them, with their applied flags. */
    method MoveBooking(aggs: Loaded, tx: string, b: TransferBooking, now: Time, ghost live: Lives)
      returns (r: Result<(bool, bool)>)
      requires Tracks(aggs, live, repo.rows) && b.from in aggs && b.to in aggs
      requires IsID(tx) && GoodBooking(b) && now != ZERO_TIME
      requires AccountsOf(BookingEvents(tx, b, now)) <= live.Keys
      modifies aggs[b.from], aggs[b.to]
      ensures match BookAll(live, BookingEvents(tx, b, now))
              case Err(e) => r == Err(e)
              case Ok((done, count)) =>
                && r.Ok? && Tracks(aggs, done, repo.rows)
                && count == (if r.value.0 then 1 else 0) + (if r.value.1 then 1 else 0)
    {
      BookTwo(live, tx, b, now);
      hide Accounts.IsID, GoodBooking, Accounts.Book, Ledger.BookAll, Ledger.BookingEvents, TracksOne, Ledger.AccountOf,
           Ledger.AccountsOf;
      var sent := Send(aggs, tx, b, now, live);
      if sent.Err? {
        return Err(sent.error);
      }
      var received := Receive(aggs, tx, b, now, live[b.from := Book(live[b.from], BookingEvents(tx, b, now)[0].data).value.0]);
      if received.Err? {
        return Err(received.error);
      }
      r := Ok((sent.value, received.value));
    }

    /** TransferToAccount */
    method TransferToAccount(cmd: TransferCommand, now: Time) returns (r: Result<LedgerTransaction>)
      requires repo.Valid() && now != ZERO_TIME
      modifies repo
      ensures repo.rows == Transfer(old(repo.rows), cmd, now).rows && repo.Valid()
      ensures match Transfer(old(repo.rows), cmd, now).result
              case Err(e) => r == Err(e)
              case Ok(_) => r.Ok? && Records(r.value, cmd, now)
    {
      hide Text.Trim, Text.Trimmed, Text.IsUpper, Text.Currency, Stores.GoodStore, Ledger.FeeID, Ledger.BookAll, Ledger.Matched, Ledger.AccountsOf,
           Ledger.PlanEvents, Ledger.LoadAll, GoodPlan, Ledger.Saved;
      PlanMovesExactly(repo.rows, cmd, now);
      var booking := NewTransferBooking(cmd.from, cmd.to, cmd.currency, cmd.amount);
      if booking.Err? {
        return Err(Validation);
      }
      var feeAccountID := Trim(cmd.feeAccount);
      if cmd.feeAmount < 0 || (cmd.feeAmount > 0 && feeAccountID == "") {
        return Err(Validation);
      }
      var transaction := NewLedgerTransaction(Trim(cmd.transactionID), booking.value.LedgerEntries(), now);
      if transaction.Err? {
        return Err(Validation);
      }
      var tx := transaction.value.transactionID;
      var plan, entries := Plan(tx, booking.value, NoFee), transaction.value.entries;
      if cmd.feeAmount > 0 {
        var feeBooking := NewTransferBooking(cmd.from, cmd.feeAccount, cmd.currency, cmd.feeAmount);
        if feeBooking.Err? {
          return Err(Validation);
        }
        FeeIDIsID(tx);
        assert FeeID(tx) == tx + ":fee" by { FeeIDReads(tx); }
        var feeTransaction := NewLedgerTransaction(FeeID(tx), feeBooking.value.LedgerEntries(), now);
        plan := Plan(tx, booking.value, Fee(feeBooking.value));
        entries := entries + feeTransaction.value.entries;
      }
      assert PlanTransfer(cmd) == Ok(plan);
      PlanIsGood(cmd);
      var begin := repo.rows;
      var moved := TransferInTransaction(plan, now);
      if moved.Err? {
        repo.rows := begin;
        return Err(moved.error);
      }
      r := Ok(LedgerTransaction(tx, booking.value.currency, now, entries));
    }

    /** The postings a plan is expected to leave, looked up on its accounts. */
    method AlreadyApplied(aggs: Loaded, plan: Plan, now: Time, ghost live: Lives) returns (r: Result<bool>)
      requires GoodPlan(plan) && now != ZERO_TIME
      requires Tracks(aggs, live, repo.rows) && live.Keys == AccountsOf(PlanEvents(plan, now))
      ensures r == match Matched(live, PlanEvents(plan, now))
                   case Err(e) => Err(e)
                   case Ok(count) =>
                     if count == 0 then Ok(false)
                     else if count != |PlanEvents(plan, now)| then Err(StateInconsistent)
                     else Ok(true)
    {
      hide Accounts.IsID, GoodBooking, Ledger.FeeID, Ledger.Matched, Ledger.AccountsOf, Ledger.AccountOf, Ledger.BookingEvents,
           TracksOne, Postings.Preview, GoodPlan, Postings.WellFormed, Ledger.PlanEvents;
      var tx, b := plan.transactionID, plan.booking;
      var expected := [(b.from, OutPosting(tx, b, now)), (b.to, InPosting(tx, b, now))]
                      + if plan.fee.NoFee? then []
                        else [(b.from, OutPosting(FeeID(tx), plan.fee.booking, now)),
                              (plan.fee.booking.to, InPosting(FeeID(tx), plan.fee.booking, now))];
      ExpectedOfPlan(plan, now);
      r := EnsureLedgerPostingsState(aggs, expected, live, PlanEvents(plan, now));
    }

    /**
     Moves the amount and then the fee. When none of the postings exists yet, every call books something new: the
     applied flags of the two sides agree, so the branches that report a mismatch cannot be reached.
     */
    method MoveAll(aggs: Loaded, plan: Plan, now: Time, ghost live: Lives) returns (r: Result<Applied>)
      requires GoodPlan(plan) && now != ZERO_TIME
      requires Tracks(aggs, live, repo.rows) && live.Keys == AccountsOf(PlanEvents(plan, now))
      requires NoneBooked(live, PlanEvents(plan, now)) && forall id | id in live :: live[id].id == id && live[id].pending == []
      modifies aggs.Values
      ensures match BookAll(live, PlanEvents(plan, now))
              case Err(e) => r == Err(e)
              case Ok((done, _)) => r.Ok? && Tracks(aggs, done, repo.rows)
      ensures r.Ok? ==> r.value == Applied(true, true, plan.fee.Fee?, plan.fee.Fee?)
    {
      hide Accounts.IsID, GoodBooking, Ledger.FeeID, Ledger.BookAll, Ledger.AccountsOf, Ledger.BookingEvents, TracksOne, NoneBooked,
           Moves, Accounts.Bal;
      var tx, b := plan.transactionID, plan.booking;
      PlanAccounts(plan, now);
      PlanSplits(live, plan, now);
      ExpectedOfPlan(plan, now);
      BookPlan(live, plan, now);
      var moved := MoveBooking(aggs, tx, b, now, live);
      if moved.Err? {
        return Err(moved.error);
      }
      var feeApplied, feeReceived := false, false;
      if plan.fee.Fee? {
        ghost var mid := BookAll(live, BookingEvents(tx, b, now)).value.0;
        var feeMoved := MoveBooking(aggs, FeeID(tx), plan.fee.booking, now, mid);
        if feeMoved.Err? {
          return Err(feeMoved.error);
        }
        feeApplied, feeReceived := feeMoved.value.0, feeMoved.value.1;
      }
      r := Ok(Applied(moved.value.0, moved.value.1, feeApplied, feeReceived));
    }

    /** The body of TransferToAccount's transaction; on an error the caller rolls back. */
    method TransferInTransaction(plan: Plan, now: Time) returns (r: Result<()>)
      requires repo.Valid() && now != ZERO_TIME && GoodPlan(plan)
      modifies repo
      ensures r == TransferPlan(old(repo.rows), plan, now).result
      ensures r.Ok? ==> repo.rows == TransferPlan(old(repo.rows), plan, now).rows
    {
      hide Accounts.IsID, GoodBooking, Stores.GoodStore, Ledger.FeeID, Ledger.BookAll, Ledger.Matched, Ledger.AccountsOf,
           Ledger.AccountOf, Ledger.LoadAll, Ledger.Saved, Ledger.BookingEvents, NoneBooked, TracksOne, Stores.Milestones,
           Postings.Preview, Started;
      var tx, b := plan.transactionID, plan.booking;
      var accountIDs := [b.from, b.to] + if plan.fee.NoFee? then [] else [plan.fee.booking.to];
      ghost var rows, events, live := repo.rows, PlanEvents(plan, now), PlanLives(repo.rows, plan, now);
      PlanAccounts(plan, now);
      NamedIDs(accountIDs);
      PlanHasEvents(plan, now);
      LoadAllStarted(rows, AccountsOf(events));
      var aggs := LoadLedgerAccounts(accountIDs);
      assert Elements(accountIDs) == AccountsOf(events) by {
        assert Elements([b.from, b.to]) == {b.from, b.to};
        if plan.fee.Fee? { assert accountIDs == [b.from, b.to, plan.fee.booking.to]; }
      }

      var alreadyApplied := AlreadyApplied(aggs, plan, now, live);
      if alreadyApplied.Err? {
        return Err(alreadyApplied.error);
      }
      if alreadyApplied.value {
        return Ok(());
      }
      MatchedMeans(live, events);
      LoadAllIdle(rows, AccountsOf(events));
      BookPlan(live, plan, now);
      var moved := MoveAll(aggs, plan, now, live);
      if moved.Err? {
        return Err(moved.error);
      }
      ghost var done := BookAll(live, events).value.0;
      BookAllStarted(rows, live, events);
      FewMilestones(done);
      r := SaveAll(aggs, accountIDs, done);
      assert Elements(accountIDs) == done.Keys;
    }
  }

  // ---------------------------------------------------------------- steps of the loops above

  lemma ElementsOfNone(ids: seq<string>)
    ensures Elements(ids[..0]) == {}
  {
  }

  lemma ElementsStep(ids: seq<string>, i: nat)
    requires i < |ids|
    ensures Elements(ids[..i + 1]) == Elements(ids[..i]) + {ids[i]}
    ensures forall id | id in ids[..i + 1] :: id in ids[..i] || id == ids[i]
    ensures forall id :: id in ids[..i] <==> id in Elements(ids[..i])
  {
    assert ids[..i + 1] == ids[..i] + [ids[i]];
  }

  lemma NamedStep(ids: seq<string>, i: nat)
    requires i < |ids|
    ensures Named(ids[..i + 1]) == Named(ids[..i]) + if Trim(ids[i]) == "" then {} else {Trim(ids[i])}
  {
    hide Text.Trim;
    assert ids[..i + 1] == ids[..i] + [ids[i]];
  }

  /** Ids taken from events are trimmed already. */
  lemma NamedAccounts(ids: seq<string>, events: seq<Event>)
    requires (set id | id in ids) == AccountsOf(events) && "" !in AccountsOf(events)
    ensures Named(ids) == AccountsOf(events)
  {
    hide Text.Trim, Text.Trimmed;
    assert forall id | id in ids :: id in AccountsOf(events);
    assert forall id | id in ids :: Trim(id) == id;
  }

  lemma AccountsOfPrefix(events: seq<Event>, i: nat)
    requires i <= |events|
    ensures AccountsOf(events[..i]) <= AccountsOf(events)
  {
    hide Ledger.AccountOf;
  }

  /** Booking a plan is booking the transfer and then its fee. */
  lemma PlanSplits(live: Lives, plan: Plan, now: Time)
    requires GoodPlan(plan) && now != ZERO_TIME && live.Keys == AccountsOf(PlanEvents(plan, now))
    ensures var a := BookingEvents(plan.transactionID, plan.booking, now);
            && AccountsOf(a) <= live.Keys
            && (plan.fee.NoFee? ==> PlanEvents(plan, now) == a)
            && (plan.fee.Fee? ==>
                  var g := BookingEvents(FeeID(plan.transactionID), plan.fee.booking, now);
                  && AccountsOf(g) <= live.Keys
                  && BookAll(live, PlanEvents(plan, now)) ==
                     match BookAll(live, a)
                     case Err(e) => Err(e)
                     case Ok((m, k)) =>
                       match BookAll(m, g)
                       case Err(e) => Err(e)
                       case Ok((d, j)) => Ok((d, k + j)))
  {
    hide Accounts.IsID, GoodBooking, Ledger.BookAll, Ledger.AccountsOf, Ledger.BookingEvents, FeeID;
    var a := BookingEvents(plan.transactionID, plan.booking, now);
    if plan.fee.NoFee? {
      assert PlanEvents(plan, now) == a;
    } else {
      var g := BookingEvents(FeeID(plan.transactionID), plan.fee.booking, now);
      AccountsOfJoin(a, g);
      BookAllJoins(live, a, g);
    }
  }

  lemma ExpectedOfPlan(plan: Plan, now: Time)
    requires GoodPlan(plan) && now != ZERO_TIME
    ensures var e, tx, b := PlanEvents(plan, now), plan.transactionID, plan.booking;
            && |e| == (if plan.fee.NoFee? then 2 else 4)
            && AccountOf(e[0]) == b.from && AccountOf(e[1]) == b.to && b.from != "" && b.to != "" && IsID(tx)
            && Preview(b.from, e[0].data) == Ok(OutPosting(tx, b, now))
            && Preview(b.to, e[1].data) == Ok(InPosting(tx, b, now))
            && (plan.fee.Fee? ==>
                  var f := plan.fee.booking;
                  && AccountOf(e[2]) == b.from && AccountOf(e[3]) == f.to && f.to != "" && IsID(FeeID(tx))
                  && Preview(b.from, e[2].data) == Ok(OutPosting(FeeID(tx), f, now))
                  && Preview(f.to, e[3].data) == Ok(InPosting(FeeID(tx), f, now)))
  {
    hide Text.Trimmed, Text.IsUpper, Postings.Preview, Ledger.AccountOf, FeeID;
    BookingPreviews(plan.transactionID, plan.booking, now);
    if plan.fee.Fee? {
      BookingPreviews(FeeID(plan.transactionID), plan.fee.booking, now);
    }
  }

  lemma LoadAllIdle(rows: Rows, ids: set<string>)
    ensures forall id | id in ids :: LoadAll(rows, ids)[id].id == id && LoadAll(rows, ids)[id].pending == []
  {
    hide Stores.StateOf, Stores.RowOf;
  }

  lemma NamedIDs(ids: seq<string>)
    requires forall id | id in ids :: IsID(id)
    ensures Named(ids) == Elements(ids)
  {
    hide Text.Trim, Text.Trimmed;
    assert forall id | id in ids :: Trim(id) == id && id != "";
  }

  lemma MatchedUnfolds(live: Lives, events: seq<Event>, i: nat)
    requires i < |events| && AccountsOf(events[..i]) <= live.Keys && AccountsOf(events[..i + 1]) <= live.Keys
    ensures AccountOf(events[i]) in live
    ensures Matched(live, events[..i + 1]) ==
            match Matched(live, events[..i])
            case Err(e) => Err(e)
            case Ok(count) => match MatchedOne(live, events[i]) case Err(e) => Err(e) case Ok(k) => Ok(count + k)
  {
    hide Ledger.AccountOf, Ledger.AccountsOf, Ledger.MatchedOne;
    assert events[..i + 1][..i] == events[..i];
    AccountsOfStep(events[..i + 1]);
  }

  /** The duplicate check fails at the first posting that clashes. */
  lemma {:induction false} MatchedFails(live: Lives, events: seq<Event>, i: nat)
    requires AccountsOf(events) <= live.Keys && i < |events| && AccountsOf(events[..i + 1]) <= live.Keys
    requires Matched(live, events[..i + 1]) == Err(PostingMismatch)
    ensures Matched(live, events) == Err(PostingMismatch)
  {
    hide Ledger.AccountOf, Ledger.AccountsOf, Postings.Preview, Postings.WellFormed;
    var n := |events| - 1;
    if i < n {
      AccountsOfStep(events);
      assert events[..n][..i + 1] == events[..i + 1];
      MatchedFails(live, events[..n], i);
    } else {
      assert events[..i + 1] == events;
    }
  }

  /** The transaction handed back lists the two entries of the transfer and then, if there is a fee, those of the fee. */
  predicate Records(t: LedgerTransaction, cmd: TransferCommand, now: Time) {
    var tx, from, c := Trim(cmd.transactionID), Trim(cmd.from), Currency(cmd.currency);
    && t.transactionID == tx && t.currency == c && t.createdAt == now
    && t.entries == [Entry(tx, from, c, -cmd.amount, now), Entry(tx, Trim(cmd.to), c, cmd.amount, now)]
                    + if cmd.feeAmount == 0 then []
                      else [Entry(tx + ":fee", from, c, -cmd.feeAmount, now), Entry(tx + ":fee", Trim(cmd.feeAccount), c, cmd.feeAmount, now)]
  }

  /** A batch fails with the error of its first event that fails. */
  lemma {:induction false} BookAllFails(live: Lives, events: seq<Event>, i: nat)
    requires AccountsOf(events) <= live.Keys && i < |events| && AccountsOf(events[..i]) <= live.Keys
    requires BookAll(live, events[..i]).Ok?
    requires AccountOf(events[i]) in live
    requires Book(BookAll(live, events[..i]).value.0[AccountOf(events[i])], events[i].data).Err?
    ensures BookAll(live, events)
         == Err(Book(BookAll(live, events[..i]).value.0[AccountOf(events[i])], events[i].data).error)
  {
    hide Accounts.Book, Ledger.AccountOf, Ledger.AccountsOf;
    var n := |events| - 1;
    if i < n {
      AccountsOfStep(events);
      assert events[..n][..i] == events[..i];
      BookAllFails(live, events[..n], i);
      assert BookAll(live, events[..n]).Err?;
    }
  }

  lemma SavedStep(rows: Rows, live: Lives, ids: set<string>, id: string)
    requires id in live
    ensures Saved(rows, live, ids + {id}) ==
            if id in ids || live[id].pending == [] then Saved(rows, live, ids)
            else Saved(rows, live, ids)[id := SavedRow(RowOf(rows, id), live[id])]
  {
    hide Stores.SavedRow;
    if id in ids { assert ids + {id} == ids; }
  }

  /** An account loaded from a good store carries its row's version. */
  lemma RowVersion(rows: Rows, live: Lives, id: string)
    requires GoodStore(rows) && Started(rows, live) && id in live
    ensures RowOf(rows, id).version == live[id].base && live[id].id == id
  {
    hide Accounts.Replay, Accounts.IsNew, Text.Trimmed;
    InStepHasID(StateOf(RowOf(rows, id)), live[id]);
    RowIsGood(rows, id);
  }

  /** What one more save means for the store. */
  lemma SaveStep(rows: Rows, live: Lives, ids: set<string>, id: string)
    requires GoodStore(rows) && Started(rows, live) && id in live
    ensures GoodStore(Saved(rows, live, ids + {id}))
    ensures id !in ids ==> RowOf(Saved(rows, live, ids), id) == RowOf(rows, id)
    ensures RowOf(rows, id).version == live[id].base && live[id].id == id
    ensures Saved(rows, live, ids + {id}) ==
            if id in ids || live[id].pending == [] then Saved(rows, live, ids)
            else Saved(rows, live, ids)[id := SavedRow(RowOf(rows, id), live[id])]
  {
    hide Stores.GoodStore, Stores.SavedRow, Ledger.Saved, Started, Stores.StateOf;
    SavedIsGood(rows, live, ids);
    SavedIsGood(rows, live, ids + {id});
    SavedStep(rows, live, ids, id);
    RowVersion(rows, live, id);
  }

  lemma NoMilestones(base: nat)
    ensures Milestones(base, 0) == 0
  {
  }
}
