/**
 What the two write commands of the ledger service do to the store, stated on values: a batch of
 events is booked on the loaded accounts one after the other and then stored all at once or not at all.
 The methods that compute this are in Service.dfy.
 */
module Ledger {
  import opened Text
  import opened Postings
  import opened Accounts
  import opened Stores
  import opened Entities

  type Lives = map<string, Live>

  /** The account an event of a batch is for. */
  function AccountOf(e: Event): (id: string)
    ensures id != "" ==> IsID(id)
  {
    Trim(e.aggregateID)
  }

  function AccountsOf(events: seq<Event>): set<string> { set e | e in events :: AccountOf(e) }

  /** The accounts of a batch in the order in which they first occur. */
  function FirstOccurrences(events: seq<Event>): (ids: seq<string>)
    ensures (set id | id in ids) == AccountsOf(events)
    ensures forall i, j | 0 <= i < j < |ids| :: ids[i] != ids[j]
  {
    if events == [] then [] else
      var n := |events| - 1;
      var ids := FirstOccurrences(events[..n]);
      var id := AccountOf(events[n]);
      assert AccountsOf(events) == AccountsOf(events[..n]) + {id} by { assert events == events[..n] + [events[n]]; }
      if id in ids then ids else ids + [id]
  }

  /** The account of the event at n is new there. */
  predicate FirstAt(events: seq<Event>, n: nat) { n < |events| && AccountOf(events[n]) !in AccountsOf(events[..n]) }

  lemma FirstOccurrencesGrow(events: seq<Event>)
    requires events != []
    ensures var n := |events| - 1;
            FirstOccurrences(events) == FirstOccurrences(events[..n]) + if FirstAt(events, n) then [AccountOf(events[n])] else []
  {
    hide AccountOf;
    var ids := FirstOccurrences(events[..|events| - 1]);
    assert forall id :: id in ids <==> id in (set x | x in ids);
  }

  /** An account that occurs for the first time before another comes before it. */
  lemma {:induction false} EarlierComesFirst(events: seq<Event>, m: nat, n: nat)
    requires m < n < |events| && FirstAt(events, m) && FirstAt(events, n)
    ensures exists i, j | 0 <= i < j < |FirstOccurrences(events)| ::
              FirstOccurrences(events)[i] == AccountOf(events[m]) && FirstOccurrences(events)[j] == AccountOf(events[n])
  {
    hide AccountOf, FirstOccurrences;
    var k := |events| - 1;
    var ids := FirstOccurrences(events[..k]);
    FirstOccurrencesGrow(events);
    if n < k {
      assert events[..k][..m] == events[..m] && events[..k][..n] == events[..n];
      EarlierComesFirst(events[..k], m, n);
      var i, j :| 0 <= i < j < |ids| && ids[i] == AccountOf(events[m]) && ids[j] == AccountOf(events[n]);
      assert FirstOccurrences(events)[i] == ids[i] && FirstOccurrences(events)[j] == ids[j];
    } else {
      assert events[..k][m] == events[m];
      assert AccountOf(events[m]) in AccountsOf(events[..k]);
      assert AccountOf(events[m]) in (set id | id in ids);
      var i :| 0 <= i < |ids| && ids[i] == AccountOf(events[m]);
      assert FirstOccurrences(events)[i] == ids[i] && FirstOccurrences(events)[|ids|] == AccountOf(events[n]);
    }
  }

  function LoadAll(rows: Rows, ids: set<string>): (live: Lives)
    ensures live.Keys == ids
  {
    map id | id in ids :: LoadLive(rows, id)
  }

  /** Books the events in turn; the count is the number that were new. */
  function BookAll(live: Lives, events: seq<Event>): (r: Result<(Lives, nat)>)
    ensures r.Ok? ==> r.value.0.Keys == live.Keys && r.value.1 <= |events|
  {
    if events == [] then Ok((live, 0)) else
      var n := |events| - 1;
      match BookAll(live, events[..n])
      case Err(e) => Err(e)
      case Ok((done, count)) =>
        var id := AccountOf(events[n]);
        if id !in done then Err(NotLoaded) else
        match Book(done[id], events[n].data)
        case Err(e) => Err(e)
        case Ok((l, applied)) => Ok((done[id := l], if applied then count + 1 else count))
  }

  /** The store once the pending events of those of the accounts were saved. */
  function Saved(rows: Rows, live: Lives, ids: set<string>): Rows {
    rows + map id | id in ids && id in live && live[id].pending != [] :: SavedRow(RowOf(rows, id), live[id])
  }

  predicate SnapshotClash(live: Lives) {
    exists id | id in live :: Milestones(live[id].base, |live[id].pending|) > 1
  }

  datatype Outcome = Outcome(rows: Rows, result: Result<()>)

  /** RecordLedgerEvents */
  function Record(rows: Rows, events: seq<Event>): Outcome {
    if events == [] then Outcome(rows, Ok(()))
    else if "" in AccountsOf(events) then Outcome(rows, Err(EventAggregateIDRequired))
    else
      match BookAll(LoadAll(rows, AccountsOf(events)), events)
      case Err(e) => Outcome(rows, Err(e))
      case Ok((live, count)) =>
        if count == 0 then Outcome(rows, Ok(()))
        else if count != |events| then Outcome(rows, Err(BatchInconsistent))
        else if SnapshotClash(live) then Outcome(rows, Err(DuplicateSnapshot))
        else Outcome(Saved(rows, live, live.Keys), Ok(()))
  }

  // ---------------------------------------------------------------- transfers

  datatype TransferCommand = TransferCommand(
    transactionID: string, from: string, to: string, currency: string, amount: int,
    feeAmount: int, feeAccount: string)

  datatype Fee = NoFee | Fee(booking: TransferBooking)

  /** A validated transfer: its transaction id, its booking and that of its fee. */
  datatype Plan = Plan(transactionID: string, booking: TransferBooking, fee: Fee)

  /** The validation at the head of TransferToAccount */
  function PlanTransfer(cmd: TransferCommand): Result<Plan> {
    match NewTransferBooking(cmd.from, cmd.to, cmd.currency, cmd.amount)
    case Err(e) => Err(e)
    case Ok(booking) =>
      if cmd.feeAmount < 0 then Err(Validation)
      else if cmd.feeAmount > 0 && Trim(cmd.feeAccount) == "" then Err(Validation)
      else if Trim(cmd.transactionID) == "" then Err(Validation)
      else if cmd.feeAmount == 0 then Ok(Plan(Trim(cmd.transactionID), booking, NoFee))
      else
        match NewTransferBooking(cmd.from, cmd.feeAccount, cmd.currency, cmd.feeAmount)
        case Err(e) => Err(e)
        case Ok(fee) => Ok(Plan(Trim(cmd.transactionID), booking, Fee(fee)))
  }

  /** The two events of one booking: out of `from`, into `to`. */
  function BookingEvents(tx: string, b: TransferBooking, now: Time): seq<Event> {
    [Event(b.from, 0, TransferredToAccount(tx, b.to, b.currency, b.amount, now)),
     Event(b.to, 0, ReceivedTransfer(tx, b.from, b.currency, b.amount, now))]
  }

  function FeeID(tx: string): string { tx + ":fee" }

  function PlanEvents(plan: Plan, now: Time): seq<Event> {
    BookingEvents(plan.transactionID, plan.booking, now)
    + if plan.fee.NoFee? then [] else BookingEvents(FeeID(plan.transactionID), plan.fee.booking, now)
  }

  /** One event against its account: 1 if its posting is there, 0 if nothing is there under its transaction id. */
  function MatchedOne(live: Lives, e: Event): (r: Result<nat>)
    requires AccountOf(e) in live
    ensures r.Ok? ==> r.value <= 1
  {
    match Preview(AccountOf(e), e.data)
    case Err(x) => Err(x)
    case Ok(p) =>
      var posted := live[AccountOf(e)].state.posted;
      if p.transactionID !in posted then Ok(0)
      else if Same(posted[p.transactionID], p) then Ok(1)
      else Err(PostingMismatch)
  }

  /** ensureLedgerPostingsState's count of the events whose posting is already on its account */
  function Matched(live: Lives, events: seq<Event>): (r: Result<nat>)
    requires AccountsOf(events) <= live.Keys
    ensures r.Ok? ==> r.value <= |events|
  {
    if events == [] then Ok(0) else
      var n := |events| - 1;
      assert AccountOf(events[n]) in AccountsOf(events);
      match Matched(live, events[..n])
      case Err(e) => Err(e)
      case Ok(count) =>
        match MatchedOne(live, events[n])
        case Err(e) => Err(e)
        case Ok(k) => Ok(count + k)
  }

  /** The transaction inside TransferToAccount, for a validated transfer */
  function TransferPlan(rows: Rows, plan: Plan, now: Time): Outcome {
    var events := PlanEvents(plan, now);
    var live := LoadAll(rows, AccountsOf(events));
    match Matched(live, events)
    case Err(e) => Outcome(rows, Err(e))
    case Ok(count) =>
      if count == |events| then Outcome(rows, Ok(()))
      else if count != 0 then Outcome(rows, Err(StateInconsistent))
      else
        match BookAll(live, events)
        case Err(e) => Outcome(rows, Err(e))
        case Ok((done, _)) => Outcome(Saved(rows, done, done.Keys), Ok(()))
  }

  /** TransferToAccount, without the transaction it hands back */
  function Transfer(rows: Rows, cmd: TransferCommand, now: Time): Outcome {
    match PlanTransfer(cmd)
    case Err(e) => Outcome(rows, Err(e))
    case Ok(plan) => TransferPlan(rows, plan, now)
  }
}
