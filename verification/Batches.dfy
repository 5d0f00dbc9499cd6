/** Facts about booking a batch of events on loaded accounts and saving them. */
module Batches {
  import opened Text
  import opened Postings
  import opened Accounts
  import opened Stores
  import opened Ledger

  /** Accounts loaded from these rows and since then worked on by commands only. */
  ghost predicate Started(rows: Rows, live: Lives) {
    forall id | id in live ::
      && live[id].id == id
      && live[id].base == |RowOf(rows, id).log|
      && InStep(StateOf(RowOf(rows, id)), live[id])
  }

  lemma LoadAllStarted(rows: Rows, ids: set<string>)
    requires GoodStore(rows) && forall id | id in ids :: IsID(id)
    ensures Started(rows, LoadAll(rows, ids))
  {
    hide Accounts.IsNew, Accounts.Transition, Accounts.Sound, Text.Trimmed, Stores.GoodRow, Stores.GoodStore;
    forall id | id in ids ensures InStep(StateOf(RowOf(rows, id)), LoadLive(rows, id)) {
      RowIsGood(rows, id);
      GoodRowMeans(id, RowOf(rows, id));
      SoundOwned(id, StateOf(RowOf(rows, id)));
    }
  }

  lemma AccountIDsAreIDs(events: seq<Event>)
    requires "" !in AccountsOf(events)
    ensures forall id | id in AccountsOf(events) :: IsID(id)
  {
    hide Text.Trim, Text.Trimmed, Accounts.IsID;
  }

  lemma AccountsOfStep(events: seq<Event>)
    requires events != []
    ensures var n := |events| - 1;
            AccountsOf(events) == AccountsOf(events[..n]) + {AccountOf(events[n])}
  {
    assert events == events[..|events| - 1] + [events[|events| - 1]];
  }

  /** Booking keeps accounts in step with the rows they were loaded from. */
  lemma {:induction false} BookAllStarted(rows: Rows, live: Lives, events: seq<Event>)
    requires Started(rows, live) && AccountsOf(events) <= live.Keys && BookAll(live, events).Ok?
    ensures Started(rows, BookAll(live, events).value.0)
  {
    hide Accounts.Produced, Accounts.Replay, Stores.StateOf, Accounts.InStep, Text.Trim, Accounts.Allowed, Postings.Preview;
    if events != [] {
      var n := |events| - 1;
      AccountsOfStep(events);
      BookAllStarted(rows, live, events[..n]);
      var done := BookAll(live, events[..n]).value.0;
      var id := AccountOf(events[n]);
      BookStaysInStep(StateOf(RowOf(rows, id)), done[id], events[n].data);
    }
  }

  /** Saving started accounts keeps the store good, moves each saved account to its live state and touches no other. */
  lemma SavedIsGood(rows: Rows, live: Lives, ids: set<string>)
    requires GoodStore(rows) && Started(rows, live)
    ensures GoodStore(Saved(rows, live, ids))
    ensures forall id | id in ids && id in live ::
              && StateOf(RowOf(Saved(rows, live, ids), id)) == live[id].state
              && RowOf(Saved(rows, live, ids), id).log == RowOf(rows, id).log + live[id].pending
    ensures forall id | id !in ids || id !in live :: RowOf(Saved(rows, live, ids), id) == RowOf(rows, id)
  {
    hide Accounts.Produced, Accounts.Replay, Stores.StateOf, Stores.GoodRow, Text.Trimmed, Stores.SavedRow;
    var saved := Saved(rows, live, ids);
    forall id | id in live
      ensures GoodRow(id, RowOf(rows, id))
      ensures GoodRow(id, SavedRow(RowOf(rows, id), live[id]))
      ensures StateOf(SavedRow(RowOf(rows, id), live[id])) == live[id].state
      ensures SavedRow(RowOf(rows, id), live[id]).log == RowOf(rows, id).log + live[id].pending
    {
      InStepHasID(StateOf(RowOf(rows, id)), live[id]);
      RowIsGood(rows, id);
      SavedRowIsGood(id, RowOf(rows, id), live[id]);
    }
    forall id | id in ids && id in live
      ensures StateOf(RowOf(saved, id)) == live[id].state
      ensures RowOf(saved, id).log == RowOf(rows, id).log + live[id].pending
    {
      if live[id].pending == [] {
        assert SavedRow(RowOf(rows, id), live[id]) == RowOf(rows, id) by { NothingToSave(RowOf(rows, id), live[id]); }
      }
    }
  }

  lemma NothingToSave(row: Row, l: Live)
    requires l.pending == []
    ensures SavedRow(row, l) == row
  {
  }

  // ---------------------------------------------------------------- the effect of a batch that was new throughout

  /** What event e posts. */
  function PostingOf(e: Event): Posting
    requires Preview(AccountOf(e), e.data).Ok?
  {
    Preview(AccountOf(e), e.data).value
  }

  /** The amount by which event e moves account id in currency c. */
  function Delta(e: Event, id: string, c: string): int {
    match Preview(AccountOf(e), e.data)
    case Err(_) => 0
    case Ok(p) => if AccountOf(e) == id && p.currency == c then p.delta else 0
  }

  /** The amount by which the whole batch moves account id in currency c. */
  function BatchDelta(events: seq<Event>, id: string, c: string): int {
    if events == [] then 0
    else BatchDelta(events[..|events| - 1], id, c) + Delta(events[|events| - 1], id, c)
  }

  /** The posting of event e is on the account in state s, up to the booked time. */
  predicate BookedOn(s: State, e: Event) {
    && Preview(AccountOf(e), e.data).Ok?
    && PostingOf(e).transactionID in s.posted
    && Same(s.posted[PostingOf(e).transactionID], PostingOf(e))
  }

  /** `t` has every posting of `s`, unchanged. */
  ghost predicate Keeps(s: State, t: State) {
    forall tx | tx in s.posted :: tx in t.posted && t.posted[tx] == s.posted[tx]
  }

  lemma BookBooks(l: Live, e: Event)
    requires l.id == AccountOf(e) && Book(l, e.data).Ok?
    ensures var m := Book(l, e.data).value.0;
            m.id == l.id && Keeps(l.state, m.state) && BookedOn(m.state, e)
  {
    hide Text.Trim, Accounts.Allowed, Postings.Preview;
  }

  lemma KeepsBooked(s: State, t: State, e: Event)
    requires Keeps(s, t) && BookedOn(s, e)
    ensures BookedOn(t, e)
  {
    hide Postings.Preview, Postings.Same;
  }

  /** Booking a batch never loses a posting, and leaves every event of it booked. */
  lemma {:induction false} BookAllBooks(live: Lives, events: seq<Event>)
    requires AccountsOf(events) <= live.Keys && BookAll(live, events).Ok?
    requires forall id | id in live :: live[id].id == id
    ensures var done := BookAll(live, events).value.0;
            && (forall id | id in live :: done[id].id == id && Keeps(live[id].state, done[id].state))
            && forall e | e in events :: AccountOf(e) in done && BookedOn(done[AccountOf(e)].state, e)
  {
    hide Text.Trim, Accounts.Book, BookedOn;
    if events != [] {
      var n := |events| - 1;
      AccountsOfStep(events);
      BookAllBooks(live, events[..n]);
      var before := BookAll(live, events[..n]).value.0;
      var done := BookAll(live, events).value.0;
      BookBooks(before[AccountOf(events[n])], events[n]);
      forall e | e in events[..n] ensures BookedOn(done[AccountOf(e)].state, e) {
        assert AccountOf(e) in AccountsOf(events[..n]);
        KeepsBooked(before[AccountOf(e)].state, done[AccountOf(e)].state, e);
      }
      assert forall e | e in events :: e in events[..n] || e == events[n];
    }
  }

  lemma BookMoves(l: Live, e: Event, c: string)
    requires l.id == AccountOf(e) && Book(l, e.data).Ok? && Book(l, e.data).value.1
    ensures Bal(Book(l, e.data).value.0.state, c) == Bal(l.state, c) + Delta(e, l.id, c)
  {
    hide Text.Trim, Accounts.Allowed, Postings.Preview;
  }

  /** If every event of the batch was new, each balance moves by the batch's delta. */
  lemma {:induction false} FreshBatchMoves(live: Lives, events: seq<Event>, id: string, c: string)
    requires AccountsOf(events) <= live.Keys && BookAll(live, events).Ok?
    requires forall k | k in live :: live[k].id == k
    requires BookAll(live, events).value.1 == |events| && id in live
    ensures Bal(BookAll(live, events).value.0[id].state, c) == Bal(live[id].state, c) + BatchDelta(events, id, c)
  {
    hide Text.Trim, Accounts.Book, Postings.Preview;
    if events != [] {
      var n := |events| - 1;
      AccountsOfStep(events);
      BookAllBooks(live, events[..n]);
      FreshBatchMoves(live, events[..n], id, c);
      BookMoves(BookAll(live, events[..n]).value.0[AccountOf(events[n])], events[n], c);
    }
  }
}
