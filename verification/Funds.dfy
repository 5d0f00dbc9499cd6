/** Exactly when a batch that is new throughout is accepted: its guarded debits must be covered, and nothing else. */
module Funds {
  import opened Text
  import opened Postings
  import opened Accounts
  import opened Stores
  import opened Ledger
  import opened Batches
  import opened Transfers
  import opened Runs

  /** A debit that may not overdraw its account. */
  predicate Guarded(e: Event) {
    Preview(AccountOf(e), e.data).Ok? && PostingOf(e).delta < 0 && !Exempt(PostingOf(e).referenceType)
  }

  /** The account and transaction id an event is booked under. */
  function Slot(e: Event): (string, string) {
    (AccountOf(e), match Preview(AccountOf(e), e.data) case Ok(p) => p.transactionID case Err(_) => "")
  }

  /** No two events of the batch are booked under the same id on the same account. */
  ghost predicate Distinct(events: seq<Event>) {
    forall i, j | 0 <= i < j < |events| :: Slot(events[i]) != Slot(events[j])
  }

  function CurrencyOf(e: Event): string {
    match Preview(AccountOf(e), e.data) case Ok(p) => p.currency case Err(_) => ""
  }

  /** If the i-th event is a guarded debit, its account holds enough, counting what the batch did to it so far. */
  ghost predicate CoveredAt(live: Lives, events: seq<Event>, i: nat)
    requires i < |events|
  {
    Guarded(events[i]) ==>
      && AccountOf(events[i]) in live
      && Bal(live[AccountOf(events[i])].state, CurrencyOf(events[i]))
         + BatchDelta(events[..i + 1], AccountOf(events[i]), CurrencyOf(events[i])) >= 0
  }

  ghost predicate Covered(live: Lives, events: seq<Event>) {
    forall i | 0 <= i < |events| :: CoveredAt(live, events, i)
  }

  lemma CoveredStep(live: Lives, events: seq<Event>)
    requires events != []
    ensures var n := |events| - 1; Covered(live, events) <==> Covered(live, events[..n]) && CoveredAt(live, events, n)
  {
    hide Guarded, Ledger.AccountOf, CurrencyOf, BatchDelta;
    var n := |events| - 1;
    forall i | 0 <= i < n ensures CoveredAt(live, events[..n], i) <==> CoveredAt(live, events, i) {
      assert events[..n][..i + 1] == events[..i + 1];
    }
  }

  /** How many of the events are for the account. */
  function CountFor(events: seq<Event>, id: string): (n: nat)
    ensures n <= |events|
  {
    if events == [] then 0 else
      CountFor(events[..|events| - 1], id) + if AccountOf(events[|events| - 1]) == id then 1 else 0
  }

  /** What booking a stretch of a fresh batch leaves behind. */
  ghost predicate Extended(live: Lives, done: Lives, events: seq<Event>) {
    forall id | id in live ::
      && id in done && done[id].id == id && done[id].base == live[id].base
      && |done[id].pending| == |live[id].pending| + CountFor(events, id)
      && forall tx | tx in done[id].state.posted ::
           tx in live[id].state.posted || exists e | e in events :: Slot(e) == (id, tx)
  }

  lemma BookUnbooked(l: Live, e: Event)
    requires l.id == AccountOf(e) && Preview(AccountOf(e), e.data).Ok? && Slot(e).1 !in l.state.posted
    ensures if Guarded(e) && Bal(l.state, CurrencyOf(e)) + Delta(e, l.id, CurrencyOf(e)) < 0
            then Book(l, e.data) == Err(InsufficientFunds)
            else Book(l, e.data).Ok? && Book(l, e.data).value.1
                 && var m := Book(l, e.data).value.0;
                    && m.id == l.id && m.base == l.base && |m.pending| == |l.pending| + 1
                    && m.state.posted.Keys == l.state.posted.Keys + {Slot(e).1}
  {
    hide Ledger.AccountOf, Postings.Preview, Accounts.Exempt;
    PostedCurrency(AccountOf(e), e.data);
  }

  lemma PostedCurrency(accountID: string, data: EventData)
    requires Preview(accountID, data).Ok?
    ensures Currency(Preview(accountID, data).value.currency) == Preview(accountID, data).value.currency
  {
    hide Postings.Preview, Text.Trim, Text.Trimmed, Text.IsUpper, Text.Currency;
  }

  lemma BookStep(live: Lives, events: seq<Event>)
    requires events != [] && AccountsOf(events) <= live.Keys && AccountsOf(events[..|events| - 1]) <= live.Keys
    requires BookAll(live, events[..|events| - 1]).Ok?
    ensures var n := |events| - 1;
            var (done, count) := BookAll(live, events[..n]).value;
            AccountOf(events[n]) in done &&
            BookAll(live, events) ==
            match Book(done[AccountOf(events[n])], events[n].data)
            case Err(e) => Err(e)
            case Ok((l, applied)) => Ok((done[AccountOf(events[n]) := l], if applied then count + 1 else count))
  {
    hide Ledger.AccountOf, Ledger.AccountsOf, Accounts.Book, Ledger.BookAll;
    AccountsOfStep(events);
    var n := |events| - 1;
    var init, e := events[..n], events[n];
    assert events == init + [e];
    BookOne(live, e);
    BookAllJoins(live, init, [e]);
    BookOne(BookAll(live, init).value.0, e);
  }

  /** A batch of distinct, unbooked events is booked whole if its debits are covered and refused for funds if not. */
  lemma {:induction false} BookFresh(live: Lives, events: seq<Event>)
    requires AccountsOf(events) <= live.Keys && forall id | id in live :: live[id].id == id
    requires NoneBooked(live, events) && Distinct(events)
    ensures if Covered(live, events)
            then BookAll(live, events).Ok? && BookAll(live, events).value.1 == |events|
                 && Extended(live, BookAll(live, events).value.0, events)
            else BookAll(live, events) == Err(InsufficientFunds)
  {
    hide Ledger.AccountsOf, Ledger.AccountOf, Accounts.Book, Ledger.BookAll, Guarded, CurrencyOf, Postings.Preview, Slot,
         Covered, Postings.WellFormed, Extended;
    if events == [] {
      BookNothing(live, events);
    } else {
      var n := |events| - 1;
      var init := events[..n];
      AccountsOfStep(events);
      CoveredStep(live, events);
      assert NoneBooked(live, init) by { assert forall e | e in init :: e in events; }
      assert Distinct(init);
      BookFresh(live, init);
      if Covered(live, init) {
        BookFreshOne(live, events);
      } else {
        BookFailsOn(live, events);
      }
    }
  }

  lemma BookNothing(live: Lives, events: seq<Event>)
    requires events == [] && forall id | id in live :: live[id].id == id
    ensures Covered(live, events) && BookAll(live, events) == Ok((live, 0)) && Extended(live, live, events)
  {
    hide Slot, CoveredAt;
  }

  lemma BookFailsOn(live: Lives, events: seq<Event>)
    requires events != [] && AccountsOf(events) <= live.Keys && AccountsOf(events[..|events| - 1]) <= live.Keys
    requires BookAll(live, events[..|events| - 1]).Err?
    ensures BookAll(live, events) == BookAll(live, events[..|events| - 1])
  {
    hide Ledger.AccountOf, Ledger.AccountsOf, Accounts.Book;
  }

  lemma BookFreshOne(live: Lives, events: seq<Event>)
    requires events != [] && AccountsOf(events) <= live.Keys && AccountsOf(events[..|events| - 1]) <= live.Keys
    requires forall id | id in live :: live[id].id == id
    requires NoneBooked(live, events) && Distinct(events)
    requires var r := BookAll(live, events[..|events| - 1]);
             r.Ok? && r.value.1 == |events| - 1 && Extended(live, r.value.0, events[..|events| - 1])
    ensures if CoveredAt(live, events, |events| - 1)
            then BookAll(live, events).Ok? && BookAll(live, events).value.1 == |events|
                 && Extended(live, BookAll(live, events).value.0, events)
            else BookAll(live, events) == Err(InsufficientFunds)
  {
    hide Ledger.AccountsOf, Ledger.AccountOf, Accounts.Book, Ledger.BookAll, Guarded, Postings.Preview, Postings.WellFormed, Slot, Delta,
         CurrencyOf, Extended;
    var n := |events| - 1;
    var init, e, id := events[..n], events[n], AccountOf(events[n]);
    AccountsOfStep(events);
    var done := BookAll(live, init).value.0;
    assert e in events && Unbooked(live, e);
    BookStep(live, events);
    SlotIsFree(live, done, events);
    BookUnbooked(done[id], e);
    FreshBatchMoves(live, init, id, CurrencyOf(e));
    assert events[..n + 1] == events;
    if BookAll(live, events).Ok? { ExtendedStep(live, done, BookAll(live, events).value.0[id], events); }
  }

  /** The last event's slot was not taken by the events before it. */
  lemma SlotIsFree(live: Lives, done: Lives, events: seq<Event>)
    requires events != [] && Distinct(events) && Unbooked(live, events[|events| - 1])
    requires Extended(live, done, events[..|events| - 1])
    ensures var e := events[|events| - 1];
            AccountOf(e) in done && done[AccountOf(e)].id == AccountOf(e) && Slot(e).1 !in done[AccountOf(e)].state.posted
  {
    hide Ledger.AccountOf, Postings.Preview, Postings.WellFormed;
    var n := |events| - 1;
    var e := events[n];
    var id, tx := AccountOf(e), Slot(e).1;
    assert Slot(e) == (id, tx);
    forall f | f in events[..n] ensures Slot(f) != (id, tx) {
      var i :| 0 <= i < n && events[i] == f;
    }
  }

  lemma ExtendedStep(live: Lives, done: Lives, l: Live, events: seq<Event>)
    requires events != [] && Extended(live, done, events[..|events| - 1])
    requires var e := events[|events| - 1];
             && AccountOf(e) in live && AccountOf(e) in done
             && l.id == AccountOf(e) && l.base == done[l.id].base && |l.pending| == |done[l.id].pending| + 1
             && l.state.posted.Keys == done[l.id].state.posted.Keys + {Slot(e).1}
    ensures Extended(live, done[AccountOf(events[|events| - 1]) := l], events)
  {
    hide Ledger.AccountOf, Postings.Preview, Postings.WellFormed;
    var n := |events| - 1;
    assert events[n] in events && Slot(events[n]) == (l.id, Slot(events[n]).1);
    assert forall f | f in events[..n] :: f in events;
  }

  // ---------------------------------------------------------------- on the store

  /** The event reads as a posting, and its account has nothing under its transaction id. */
  predicate UnbookedIn(rows: Rows, e: Event) {
    Preview(AccountOf(e), e.data).Ok? && PostingOf(e).transactionID !in StateOf(RowOf(rows, AccountOf(e))).posted
  }

  /** Every guarded debit of the batch finds its money in the store, counting what the batch did so far. */
  ghost predicate CoveredIn(rows: Rows, events: seq<Event>) {
    forall i | 0 <= i < |events| && Guarded(events[i]) ::
      BalanceIn(rows, AccountOf(events[i]), CurrencyOf(events[i]))
      + BatchDelta(events[..i + 1], AccountOf(events[i]), CurrencyOf(events[i])) >= 0
  }

  /** A batch that can be accepted at all: proper account ids and distinct slots. */
  ghost predicate Bookable(events: seq<Event>) {
    events != [] && "" !in AccountsOf(events) && Distinct(events)
  }

  /** The batch takes some account past two snapshot versions at once. */
  ghost predicate TwoSnapshots(rows: Rows, events: seq<Event>) {
    exists id | id in AccountsOf(events) :: Milestones(|RowOf(rows, id).log|, CountFor(events, id)) > 1
  }

  /**
   A fresh batch, of any size, is stored whole if and only if its guarded debits are covered and no account needs
   two snapshots; otherwise it is refused for the one reason or the other and changes nothing.
   */
  lemma FreshBatchExactly(rows: Rows, events: seq<Event>)
    requires GoodStore(rows) && Bookable(events) && forall e | e in events :: UnbookedIn(rows, e)
    ensures Commits(rows, events) <==> CoveredIn(rows, events) && !TwoSnapshots(rows, events)
    ensures !Commits(rows, events) ==>
              Record(rows, events)
              == Outcome(rows, Err(if CoveredIn(rows, events) then DuplicateSnapshot else InsufficientFunds))
  {
    hide Ledger.AccountsOf, Ledger.AccountOf, Ledger.BookAll, Stores.GoodStore, Stores.StateOf, Ledger.LoadAll, Ledger.SnapshotClash,
         Guarded, CurrencyOf, Postings.Preview, Postings.WellFormed, Distinct, Ledger.Saved, Extended, Covered, CoveredIn, TwoSnapshots;
    var ids := AccountsOf(events);
    var live := LoadAll(rows, ids);
    LoadedLives(rows, ids);
    forall e | e in events ensures Unbooked(live, e) { assert AccountOf(e) in ids by { InAccounts(events, e); } }
    CoveredLoaded(rows, events);
    BookFresh(live, events);
    if Covered(live, events) { SnapshotsNeeded(rows, BookAll(live, events).value.0, events); }
  }

  /** A batch that was new throughout books no slot twice. */
  lemma {:induction false} AllNewIsDistinct(live: Lives, events: seq<Event>)
    requires AccountsOf(events) <= live.Keys && forall id | id in live :: live[id].id == id
    requires BookAll(live, events).Ok? && BookAll(live, events).value.1 == |events|
    ensures Distinct(events)
  {
    hide Ledger.AccountsOf, Ledger.AccountOf, Accounts.Book, Ledger.BookAll, Keeps, BookedOn, Postings.Preview, Slot, Postings.WellFormed;
    if events != [] {
      var n := |events| - 1;
      AccountsOfStep(events);
      if BookAll(live, events[..n]).Err? { BookFailsOn(live, events); assert false; }
      BookStep(live, events);
      AllNewIsDistinct(live, events[..n]);
      BookAllBooks(live, events[..n]);
      var before := BookAll(live, events[..n]).value.0;
      NewIsUnbooked(before, events[n]);
      forall i, j | 0 <= i < j < |events| ensures Slot(events[i]) != Slot(events[j]) {
        if j == n {
          assert events[..n][i] == events[i] && events[i] in events[..n];
          SlotsDiffer(before, events[i], events[n]);
        } else {
          assert Slot(events[..n][i]) != Slot(events[..n][j]);
        }
      }
    }
  }

  lemma SlotsDiffer(live: Lives, e: Event, f: Event)
    requires AccountOf(e) in live && BookedOn(live[AccountOf(e)].state, e) && Unbooked(live, f)
    ensures Slot(e) != Slot(f)
  {
    hide Ledger.AccountOf, Postings.Preview, Postings.WellFormed;
  }

  /**
   Exactly what RecordLedgerEvents stores, for any batch at all: a non-empty one without blank accounts, that books no
   slot twice, of which nothing is booked yet, whose guarded debits are covered and that needs no second snapshot.
   Any other batch changes nothing, and succeeds if and only if all of its events are booked already.
   */
  lemma AnyBatchExactly(rows: Rows, events: seq<Event>)
    requires GoodStore(rows)
    ensures Commits(rows, events) <==>
              Bookable(events) && (forall e | e in events :: UnbookedIn(rows, e)) && CoveredIn(rows, events) && !TwoSnapshots(rows, events)
    ensures Record(rows, events).result.Ok? <==> Commits(rows, events) || forall e | e in events :: BookedIn(rows, e)
    ensures !Commits(rows, events) ==> Record(rows, events).rows == rows
  {
    hide Ledger.AccountsOf, Ledger.AccountOf, Stores.GoodStore, Ledger.Record, CoveredIn, TwoSnapshots, Distinct, UnbookedIn, BookedOn,
         Commits, OnlyAdds, Keeps;
    RecordEffect(rows, events);
    if Commits(rows, events) {
      CommitsIsBookable(rows, events);
      FreshBatchExactly(rows, events);
    } else {
      if Bookable(events) && forall e | e in events :: UnbookedIn(rows, e) { FreshBatchExactly(rows, events); }
      OkUncommitted(rows, events);
    }
  }

  lemma CommitsIsBookable(rows: Rows, events: seq<Event>)
    requires Commits(rows, events)
    ensures Bookable(events) && forall e | e in events :: UnbookedIn(rows, e)
  {
    hide Ledger.AccountsOf, Ledger.AccountOf, Ledger.BookAll, Stores.StateOf, Ledger.LoadAll, Ledger.SnapshotClash, Postings.Preview,
         Postings.WellFormed, Distinct;
    var live := LoadAll(rows, AccountsOf(events));
    LoadedLives(rows, AccountsOf(events));
    AllNewIsDistinct(live, events);
    AllNewWasUnbooked(live, events);
    forall e | e in events ensures UnbookedIn(rows, e) {
      assert Unbooked(live, e);
      InAccounts(events, e);
    }
  }

  /** A batch that is not stored and yet succeeds is booked already, and the other way round. */
  lemma OkUncommitted(rows: Rows, events: seq<Event>)
    requires !Commits(rows, events)
    ensures Record(rows, events).result.Ok? <==> forall e | e in events :: BookedIn(rows, e)
  {
    hide Ledger.AccountOf, Ledger.BookAll, Ledger.LoadAll, Stores.StateOf, Postings.Preview, BookedOn, Ledger.Saved, Ledger.SnapshotClash;
    var live := LoadAll(rows, AccountsOf(events));
    LoadedLives(rows, AccountsOf(events));
    forall e | e in events ensures Booked(live, e) <==> BookedIn(rows, e) { assert AccountOf(e) in AccountsOf(events); }
    AbsorbedIffBooked(live, events);
    if "" in AccountsOf(events) {
      var e :| e in events && AccountOf(e) == "";
      BlankIsNotBooked(rows, e);
    }
  }

  lemma SnapshotsNeeded(rows: Rows, done: Lives, events: seq<Event>)
    requires Extended(LoadAll(rows, AccountsOf(events)), done, events) && done.Keys == AccountsOf(events)
    ensures SnapshotClash(done) <==> TwoSnapshots(rows, events)
  {
    hide Slot, Ledger.AccountsOf, Ledger.LoadAll, CountFor, Stores.Milestones;
    var live := LoadAll(rows, AccountsOf(events));
    LoadedBases(rows, AccountsOf(events));
    assert forall id | id in live :: |done[id].pending| == CountFor(events, id) && done[id].base == |RowOf(rows, id).log|;
  }

  lemma LoadedBases(rows: Rows, ids: set<string>)
    ensures forall id | id in ids :: LoadAll(rows, ids)[id].base == |RowOf(rows, id).log| && LoadAll(rows, ids)[id].pending == []
  {
    hide Stores.StateOf, Stores.RowOf;
  }

  /** A batch of up to a hundred events never needs two snapshots of one account. */
  lemma SmallBatchNeedsOne(rows: Rows, events: seq<Event>)
    requires |events| <= SNAPSHOT_EVERY
    ensures !TwoSnapshots(rows, events)
  {
    hide Ledger.AccountsOf;
  }

  lemma InAccounts(events: seq<Event>, e: Event)
    requires e in events
    ensures AccountOf(e) in AccountsOf(events)
  {
    hide Ledger.AccountOf;
  }

  lemma CoveredLoaded(rows: Rows, events: seq<Event>)
    ensures Covered(LoadAll(rows, AccountsOf(events)), events) <==> CoveredIn(rows, events)
  {
    hide Ledger.AccountsOf, Ledger.AccountOf, Ledger.LoadAll, Stores.StateOf, Guarded, CurrencyOf, BatchDelta, Accounts.Bal, Stores.RowOf;
    var live := LoadAll(rows, AccountsOf(events));
    LoadedLives(rows, AccountsOf(events));
    forall i | 0 <= i < |events|
      ensures CoveredAt(live, events, i) <==>
                (Guarded(events[i]) ==>
                   BalanceIn(rows, AccountOf(events[i]), CurrencyOf(events[i]))
                   + BatchDelta(events[..i + 1], AccountOf(events[i]), CurrencyOf(events[i])) >= 0)
    {
      InAccounts(events, events[i]);
    }
  }

  /** A batch without guarded debits is never refused for lack of funds, whatever the store holds. */
  lemma NeverShort(rows: Rows, events: seq<Event>)
    requires forall e | e in events :: !Guarded(e)
    ensures Record(rows, events).result != Err(InsufficientFunds)
  {
    hide Ledger.AccountsOf, Ledger.AccountOf, Ledger.BookAll, Stores.StateOf, Ledger.LoadAll, Ledger.SnapshotClash, Guarded, Ledger.Saved;
    LoadedLives(rows, AccountsOf(events));
    BookNeverShort(LoadAll(rows, AccountsOf(events)), events);
  }

  lemma {:induction false} BookNeverShort(live: Lives, events: seq<Event>)
    requires AccountsOf(events) <= live.Keys && forall id | id in live :: live[id].id == id
    requires forall e | e in events :: !Guarded(e)
    ensures BookAll(live, events) != Err(InsufficientFunds)
  {
    hide Ledger.AccountsOf, Ledger.AccountOf, Accounts.Book, Ledger.BookAll, Guarded, Postings.Preview, Keeps, BookedOn;
    if events == [] {
      assert BookAll(live, events).Ok? by { BookNothing(live, events); }
    } else {
      var n := |events| - 1;
      AccountsOfStep(events);
      BookNeverShort(live, events[..n]);
      if BookAll(live, events[..n]).Ok? {
        BookAllBooks(live, events[..n]);
        BookStep(live, events);
        assert events[n] in events;
        UnguardedNeverShort(BookAll(live, events[..n]).value.0[AccountOf(events[n])], events[n]);
      } else {
        BookFailsOn(live, events);
      }
    }
  }

  lemma UnguardedNeverShort(l: Live, e: Event)
    requires l.id == AccountOf(e) && !Guarded(e)
    ensures Book(l, e.data) != Err(InsufficientFunds)
  {
    hide Ledger.AccountOf, Accounts.Exempt, Postings.WellFormed;
    PreviewNeverShort(l.id, e.data);
    hide Postings.Preview;
  }

  lemma PreviewNeverShort(id: string, data: EventData)
    ensures Preview(id, data) != Err(InsufficientFunds)
  {
    hide Text.Trim, Text.Trimmed, Text.Currency, Text.IsUpper, Postings.WellFormed, Postings.Direction;
  }
}
