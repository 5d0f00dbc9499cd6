/**
 One ledger account as a value: its balances and posted transactions, the guard on debits, the
 transition an event makes and the replay of a log. The mutable aggregate built on it is in
 Aggregate.dfy.
 */
module Accounts {
  import opened Text
  import opened MapSum
  import opened Postings

  /** The exported fields of LedgerAccountAggregate. */
  datatype State = State(accountID: string, balances: map<string, int>, posted: map<string, Posting>)

  const FRESH := State("", map[], map[])

  function Bal(s: State, c: string): int { if c in s.balances then s.balances[c] else 0 }

  /** LedgerAccountAggregate.Balance */
  function Balance(s: State, currency: string): int { Bal(s, Currency(currency)) }

  /** The balance is asked for in any case, with or without white space, and is that of the normalised currency. */
  lemma BalanceInAnyCase(s: State, currency: string, c: string)
    requires SameText(Trim(currency), Trim(c))
    ensures Balance(s, currency) == Balance(s, c)
    ensures Trimmed(c) && IsUpper(c) ==> Balance(s, currency) == Bal(s, c)
  {
    hide Text.Trim, Text.Trimmed, Text.IsUpper, SameText, Text.Currency;
    CurrencyExactly(currency, c);
  }

  /** The reference types whose debits may overdraw the account (requiresNonNegativeBalance is false). */
  predicate Exempt(r: ReferenceType) {
    r.Payment? && r.kind != ReserveWithdrawal && r.kind != ReleaseWithdrawal
  }

  /** ensurePostingAllowed */
  predicate Allowed(s: State, p: Posting) {
    p.delta >= 0 || Exempt(p.referenceType) || Balance(s, p.currency) + p.delta >= 0
  }

  /** The account after a normalised posting was booked on it. */
  function Post(s: State, id: string, p: Posting): State {
    State(id, s.balances[p.currency := Bal(s, p.currency) + p.delta], s.posted[p.transactionID := p])
  }

  /** applyPosting */
  function ApplyPosting(s: State, accountID: string, p: Posting): Result<State> {
    match Normalize(accountID, p)
    case Err(e) => Err(e)
    case Ok((id, q)) =>
      if !Allowed(s, q) then Err(InsufficientFunds)
      else if s.accountID != "" && s.accountID != id then Err(AccountIDMismatch)
      else Ok(Post(s, id, q))
  }

  /** Transition: what replaying one stored event does */
  function Transition(s: State, evt: Event): Result<State> {
    match Preview(evt.aggregateID, evt.data)
    case Err(e) => Err(e)
    case Ok(p) => ApplyPosting(s, evt.aggregateID, p)
  }

  /** The state LoadFromHistory reaches from `s`, or the error at which it stops. */
  function Replay(s: State, log: seq<Event>): Result<State> {
    if log == [] then Ok(s) else
      match Replay(s, log[..|log| - 1])
      case Err(e) => Err(e)
      case Ok(t) => Transition(t, log[|log| - 1])
  }

  /** An aggregate id is a trimmed, non-empty account id. */
  predicate IsID(id: string) { Trimmed(id) && id != "" }

  lemma TrimOfID(id: string)
    requires IsID(id)
    ensures Trim(id) == id && id != ""
  {
    hide Text.Trimmed;
  }

  /** The account id field is only ever blank or the aggregate's own id. */
  predicate Owned(id: string, s: State) { s.accountID == "" || s.accountID == id }

  /** The guards a transition applies, once its double normalisation is seen to be idle. */
  lemma TransitionIsPost(s: State, evt: Event)
    requires IsID(evt.aggregateID) && Owned(evt.aggregateID, s)
    ensures Transition(s, evt) ==
            match Preview(evt.aggregateID, evt.data)
            case Err(e) => Err(e)
            case Ok(p) => if Allowed(s, p) then Ok(Post(s, evt.aggregateID, p)) else Err(InsufficientFunds)
  {
    hide Postings.Preview, Postings.WellFormed, Postings.Normalize, Text.Trim, Text.Trimmed, Allowed;
    if Preview(evt.aggregateID, evt.data).Ok? {
      PreviewIsStable(evt.aggregateID, evt.data);
    }
  }

  /** Exactly which postings are refused, and for what: funds first, then an account that is already somebody else's. */
  lemma PostingsRefused(s: State, accountID: string, p: Posting)
    requires Normalize(accountID, p).Ok?
    ensures var (id, q) := Normalize(accountID, p).value;
            ApplyPosting(s, accountID, p) ==
            if q.delta < 0 && !Exempt(q.referenceType) && Bal(s, q.currency) + q.delta < 0 then Err(InsufficientFunds)
            else if s.accountID != "" && s.accountID != Trim(accountID) then Err(AccountIDMismatch)
            else Ok(State(Trim(accountID), s.balances[q.currency := Bal(s, q.currency) + q.delta], s.posted[q.transactionID := q]))
  {
    hide Text.Trim, Text.Trimmed, Text.IsUpper, Exempt, Text.Currency;
    CurrencyBlank(p.currency);
  }

  /** Which reference types may overdraw: all payment types but those of reserving and releasing a withdrawal. */
  lemma ExemptTypes(r: ReferenceType)
    ensures Exempt(r) <==>
              r in {Payment(DepositFromIntent), Payment(WithdrawFromIntent), Payment(DepositFromRefund), Payment(WithdrawFromRefund),
                    Payment(DepositFromChargeback), Payment(WithdrawFromChargeback), Payment(ReceiveWithdrawalHold),
                    Payment(WithdrawReleasedHold)}
  {
  }

  /** Replaying a log is replaying any prefix of it and then the rest. */
  lemma {:induction false} ReplaySplits(s: State, a: seq<Event>, b: seq<Event>)
    ensures Replay(s, a + b) ==
            match Replay(s, a) case Err(e) => Err(e) case Ok(t) => Replay(t, b)
  {
    hide Transition;
    if b == [] {
      assert a + b == a;
    } else {
      var n := |b| - 1;
      ReplaySplits(s, a, b[..n]);
      assert (a + b)[..|a + b| - 1] == a + b[..n];
    }
  }

  // ---------------------------------------------------------------- commands on one account

  /**
   An account being worked on: the state it was loaded with plus the events not yet stored.
   `base` is the stored version.
   */
  datatype Live = Live(id: string, base: nat, pending: seq<Event>, state: State)

  function Loaded(id: string, base: nat, s: State): Live { Live(id, base, [], s) }

  /**
   What booking one event on an account amounts to: an error, an absorbed duplicate (false), or a
   new posting together with its pending event (true).
   */
  function Book(l: Live, data: EventData): Result<(Live, bool)> {
    match Preview(l.id, data)
    case Err(e) => Err(e)
    case Ok(p) =>
      if p.transactionID in l.state.posted then
        if Same(l.state.posted[p.transactionID], p) then Ok((l, false)) else Err(PostingMismatch)
      else if !Allowed(l.state, p) then Err(InsufficientFunds)
      else Ok((Live(l.id, l.base, l.pending + [Event(l.id, l.base + |l.pending| + 1, data)],
                    Post(l.state, l.id, p)), true))
  }

  /** The event books a new, allowed posting on the account. */
  predicate IsNew(s: State, id: string, data: EventData) {
    && Preview(id, data).Ok?
    && Preview(id, data).value.transactionID !in s.posted
    && Allowed(s, Preview(id, data).value)
  }

  /**
   A stretch of log made by commands, starting from the state `start` at version `base`: every event
   was new on the account its predecessors produced, and the versions count up from `base`.
   */
  ghost predicate Produced(id: string, start: State, base: nat, log: seq<Event>) {
    && IsID(id) && Owned(id, start)
    && (log != [] ==>
          var n := |log| - 1;
          && Produced(id, start, base, log[..n])
          && log[n].aggregateID == id && log[n].version == base + n + 1
          && Replay(start, log[..n]).Ok?
          && IsNew(Replay(start, log[..n]).value, id, log[n].data))
  }

  /** A live account in step: its pending events were made by commands, and replaying them gives its state. */
  ghost predicate InStep(start: State, l: Live) {
    Produced(l.id, start, l.base, l.pending) && Replay(start, l.pending) == Ok(l.state)
  }

  lemma InStepHasID(start: State, l: Live)
    requires InStep(start, l)
    ensures IsID(l.id)
  {
    hide IsID, IsNew, Replay;
  }

  /** Command-made logs replay without error, each event booking its posting. */
  lemma {:induction false} ReplayPosts(id: string, start: State, base: nat, log: seq<Event>)
    requires Produced(id, start, base, log)
    ensures Replay(start, log).Ok? && Owned(id, Replay(start, log).value)
    ensures log != [] ==>
              var n := |log| - 1;
              Replay(start, log) == Ok(Post(Replay(start, log[..n]).value, id, Preview(id, log[n].data).value))
  {
    hide Postings.Preview, Allowed, Transition, Text.Trimmed;
    if log != [] {
      var n := |log| - 1;
      ReplayPosts(id, start, base, log[..n]);
      TransitionIsPost(Replay(start, log[..n]).value, log[n]);
    }
  }

  /**
   State and pending log never diverge: the event is appended before its transition runs, but once
   the guards of the command have passed the transition cannot fail.
   */
  lemma BookStaysInStep(start: State, l: Live, data: EventData)
    requires InStep(start, l) && Book(l, data).Ok?
    ensures InStep(start, Book(l, data).value.0)
    ensures Book(l, data).value.1 ==>
              Transition(l.state, Event(l.id, l.base + |l.pending| + 1, data)) == Ok(Book(l, data).value.0.state)
  {
    hide Postings.Preview, Allowed, Postings.Same, Transition, Text.Trimmed;
    var m := Book(l, data).value.0;
    if Book(l, data).value.1 {
      var evt := Event(l.id, l.base + |l.pending| + 1, data);
      ReplayPosts(l.id, start, l.base, l.pending);
      TransitionIsPost(l.state, evt);
      assert m.pending[..|m.pending| - 1] == l.pending;
    }
  }

  /** Two command-made stretches, the second starting where the first ends, make one. */
  lemma {:induction false} ProducedJoins(id: string, start: State, base: nat, a: seq<Event>, b: seq<Event>)
    requires Produced(id, start, base, a)
    requires Replay(start, a).Ok? && Produced(id, Replay(start, a).value, base + |a|, b)
    ensures Produced(id, start, base, a + b)
  {
    hide IsNew, Transition, Text.Trimmed;
    if b == [] {
      assert a + b == a;
    } else {
      var n := |b| - 1;
      ProducedJoins(id, start, base, a, b[..n]);
      assert (a + b)[..|a + b| - 1] == a + b[..n];
      ReplaySplits(start, a, b[..n]);
    }
  }

  lemma {:induction false} ProducedVersions(id: string, start: State, base: nat, log: seq<Event>, i: nat)
    requires Produced(id, start, base, log) && i < |log|
    ensures log[i].aggregateID == id && log[i].version == base + i + 1
    ensures Preview(id, log[i].data).Ok?
  {
    hide Postings.Preview, Allowed, Text.Trimmed, Replay;
    if i < |log| - 1 { ProducedVersions(id, start, base, log[..|log| - 1], i); }
  }

  /** The transaction ids a stretch of log books. */
  function TransactionIDs(log: seq<Event>): set<string> {
    set e | e in log && Preview(e.aggregateID, e.data).Ok? :: Preview(e.aggregateID, e.data).value.transactionID
  }

  lemma NoTransactionIDs()
    ensures TransactionIDs([]) == {}
  {
  }

  lemma TransactionIDsStep(log: seq<Event>)
    requires log != [] && Preview(log[|log| - 1].aggregateID, log[|log| - 1].data).Ok?
    ensures var e := log[|log| - 1];
            TransactionIDs(log) == TransactionIDs(log[..|log| - 1]) + {Preview(e.aggregateID, e.data).value.transactionID}
  {
    hide Postings.Preview, WellFormed;
    assert log == log[..|log| - 1] + [log[|log| - 1]];
  }

  /** Postings are only ever added: replay keeps those it starts from and adds one per event. */
  lemma {:induction false} ReplayGrows(id: string, start: State, base: nat, log: seq<Event>)
    requires Produced(id, start, base, log)
    ensures Replay(start, log).Ok?
    ensures var t := Replay(start, log).value;
            && t.posted.Keys == start.posted.Keys + TransactionIDs(log)
            && start.posted.Keys !! TransactionIDs(log)
            && forall tx | tx in start.posted :: t.posted[tx] == start.posted[tx]
  {
    hide Postings.Preview, Allowed, Transition, Text.Trimmed, WellFormed, TransactionIDs;
    if log == [] {
      assert TransactionIDs(log) == {} by { NoTransactionIDs(); }
    } else {
      var n := |log| - 1;
      ReplayGrows(id, start, base, log[..n]);
      ReplayPosts(id, start, base, log);
      TransactionIDsStep(log);
    }
  }

  // ---------------------------------------------------------------- what every reachable account satisfies

  /** The deltas of the postings in currency c; with `debits`, only the debits of exempt types. */
  function Amount(p: Posting, c: string, debits: bool): int {
    if p.currency != c then 0
    else if debits && (p.delta >= 0 || !Exempt(p.referenceType)) then 0
    else p.delta
  }

  function Amounts(posted: map<string, Posting>, c: string, debits: bool): map<string, int> {
    map tx | tx in posted :: Amount(posted[tx], c, debits)
  }

  ghost function Total(posted: map<string, Posting>, c: string, debits: bool): int {
    Sum(Amounts(posted, c, debits))
  }

  lemma TotalInsert(posted: map<string, Posting>, p: Posting, c: string, debits: bool)
    requires p.transactionID !in posted
    ensures Total(posted[p.transactionID := p], c, debits) == Total(posted, c, debits) + Amount(p, c, debits)
  {
    var before := Amounts(posted, c, debits);
    assert Amounts(posted[p.transactionID := p], c, debits) == before[p.transactionID := Amount(p, c, debits)];
    SumUpdate(before, p.transactionID, Amount(p, c, debits));
  }

  /** What holds of every account reached by commands. */
  ghost predicate Sound(id: string, s: State) {
    && IsID(id) && Owned(id, s)
    && (forall tx | tx in s.posted :: s.posted[tx].transactionID == tx && WellFormed(id, s.posted[tx]))
    && (forall c :: Bal(s, c) == Total(s.posted, c, false))
    && (forall c :: Bal(s, c) >= Total(s.posted, c, true))
  }

  lemma SoundOwned(id: string, s: State)
    requires Sound(id, s)
    ensures IsID(id) && Owned(id, s)
  {
    hide WellFormed, IsID;
  }

  lemma FreshIsSound(id: string)
    requires IsID(id)
    ensures Sound(id, FRESH)
  {
    forall c, debits ensures Total(FRESH.posted, c, debits) == 0 {
      assert Amounts(FRESH.posted, c, debits) == map[];
    }
  }

  /** Booking a new, allowed posting keeps an account sound. */
  lemma PostKeepsSound(id: string, s: State, p: Posting)
    requires Sound(id, s) && WellFormed(id, p) && p.transactionID !in s.posted && Allowed(s, p)
    ensures Sound(id, Post(s, id, p))
  {
    hide WellFormed, IsID, Exempt;
    var t := Post(s, id, p);
    forall c ensures Bal(t, c) == Total(t.posted, c, false) && Bal(t, c) >= Total(t.posted, c, true) {
      TotalInsert(s.posted, p, c, false);
      TotalInsert(s.posted, p, c, true);
      TotalDebitsNegative(s.posted, c);
      assert Currency(p.currency) == p.currency by { assert WellFormed(id, p); WellFormedCurrency(id, p); }
    }
  }

  lemma WellFormedCurrency(id: string, p: Posting)
    requires WellFormed(id, p)
    ensures Currency(p.currency) == p.currency
  {
  }

  lemma {:induction false} TotalDebitsNegative(posted: map<string, Posting>, c: string)
    ensures Total(posted, c, true) <= 0
    decreases |posted|
  {
    var m := Amounts(posted, c, true);
    if posted == map[] {
      assert m == map[];
    } else {
      var tx :| tx in posted;
      var rest := posted - {tx};
      assert rest.Keys == posted.Keys - {tx};
      SumRemove(m, tx);
      assert m - {tx} == Amounts(rest, c, true);
      TotalDebitsNegative(rest, c);
    }
  }

  /**
   Replay refines live state: a command-made log never fails to replay, and what it rebuilds from a
   sound state is sound. In particular each balance is the sum of the posted deltas and is at least
   the total of the exempt debits.
   */
  lemma {:induction false} ReplayIsSound(id: string, start: State, base: nat, log: seq<Event>)
    requires Produced(id, start, base, log) && Sound(id, start)
    ensures Replay(start, log).Ok? && Sound(id, Replay(start, log).value)
  {
    hide Postings.Preview, Allowed, Transition, Sound, Text.Trimmed;
    if log != [] {
      var n := |log| - 1;
      ReplayIsSound(id, start, base, log[..n]);
      ReplayPosts(id, start, base, log);
      PreviewWellFormed(id, log[n].data);
      PostKeepsSound(id, Replay(start, log[..n]).value, Preview(id, log[n].data).value);
    }
  }

  lemma PreviewWellFormed(id: string, data: EventData)
    requires IsID(id) && Preview(id, data).Ok?
    ensures WellFormed(id, Preview(id, data).value)
  {
    hide Postings.NewPaymentPosting, Postings.WellFormed;
  }

  /** An account with no exempt debit is never overdrawn. */
  lemma NoOverdraft(id: string, log: seq<Event>, c: string)
    requires Produced(id, FRESH, 0, log)
    requires Replay(FRESH, log).Ok? ==>
               var s := Replay(FRESH, log).value;
               forall tx | tx in s.posted :: s.posted[tx].delta >= 0 || !Exempt(s.posted[tx].referenceType)
    ensures Replay(FRESH, log).Ok? && Bal(Replay(FRESH, log).value, c) >= 0
  {
    hide WellFormed, Exempt;
    FreshIsSound(id);
    ReplayIsSound(id, FRESH, 0, log);
    var s := Replay(FRESH, log).value;
    SumZeros(Amounts(s.posted, c, true));
  }
}
