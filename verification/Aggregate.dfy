/**
 The mutable aggregate: core/shared/pkg/event/aggregate_root.go (whose fields Go embeds in the
 account) together with the command methods of ledger_account_aggregate.go.
 */
module Aggregates {
  import opened Text
  import opened Postings
  import opened Accounts

  datatype ReversalType = Refunded | ChargedBack | OtherReversal(name: string)

  /** ledgerPaymentReferenceTypeForSucceededAmount */
  function KindForSucceeded(delta: int): PaymentKind {
    if delta >= 0 then DepositFromIntent else WithdrawFromIntent
  }

  /** ledgerPaymentReferenceTypeForReversal */
  function KindForReversal(reversal: ReversalType, delta: int): ReferenceType {
    match reversal
    case Refunded => Payment(if delta >= 0 then DepositFromRefund else WithdrawFromRefund)
    case ChargedBack => Payment(if delta >= 0 then DepositFromChargeback else WithdrawFromChargeback)
    case OtherReversal(name) => Unknown(name)
  }

  /** A command answered `r` and took the account from `l` to `m` as booking `data` on it does. */
  predicate Books(l: Live, data: EventData, r: Result<bool>, m: Live) {
    match Book(l, data)
    case Err(e) => r == Err(e) && m == l
    case Ok((k, applied)) => r == Ok(applied) && m == k
  }

  /**
   A payment command answered `r` and took the account from `l` to `m`: with the error of its posting, or as
   booking the event of that posting does, in which case a new posting is recorded as it was given.
   */
  predicate BooksPayment(l: Live, transactionID: string, ref: ReferenceType, referenceID: string, counterparty: string,
                         currency: string, delta: int, at: Time, r: Result<bool>, m: Live)
  {
    match NewPaymentPosting(l.id, transactionID, ref, referenceID, counterparty, currency, delta, at)
    case Err(e) => r == Err(e) && m == l
    case Ok(p) =>
      && ref.Payment?
      && Books(l, PaymentEvent(ref.kind, p.transactionID, p.referenceID, p.counterparty, p.currency, Abs(delta), p.bookedAt), r, m)
      && (r == Ok(true) ==> m.state == Post(l.state, l.id, p))
  }

  /** What that means: a new payment moves one balance by its delta, anything else nothing, and payments of exempt types are never short. */
  lemma PaymentCommandMoves(l: Live, transactionID: string, ref: ReferenceType, referenceID: string, counterparty: string,
                            currency: string, delta: int, at: Time, r: Result<bool>, m: Live)
    requires BooksPayment(l, transactionID, ref, referenceID, counterparty, currency, delta, at, r, m)
    ensures r != Ok(true) ==> m == l
    ensures r == Ok(true) ==> forall c :: Bal(m.state, c) == Bal(l.state, c) + if c == Currency(currency) then delta else 0
    ensures ref.Unknown? ==> r.Err?
    ensures Exempt(ref) ==> r != Err(InsufficientFunds)
  {
    hide Text.Trim, Text.Trimmed, Text.Currency, Text.IsUpper, Accounts.Allowed;
    if r == Err(InsufficientFunds) && Exempt(ref) {
      PaymentNeverShort(l, transactionID, ref, referenceID, counterparty, currency, delta, at);
    }
  }

  lemma PaymentNeverShort(l: Live, transactionID: string, ref: ReferenceType, referenceID: string, counterparty: string,
                          currency: string, delta: int, at: Time)
    requires Exempt(ref)
    ensures var p := NewPaymentPosting(l.id, transactionID, ref, referenceID, counterparty, currency, delta, at);
            && p != Err(InsufficientFunds)
            && (p.Ok? ==> Book(l, PaymentEvent(ref.kind, p.value.transactionID, p.value.referenceID, p.value.counterparty,
                                               p.value.currency, Abs(delta), p.value.bookedAt)) != Err(InsufficientFunds))
  {
    hide Text.Trim, Text.Trimmed, Text.Currency, Text.IsUpper;
  }

  class LedgerAccountAggregate {
    // event.AggregateRoot
    var aggregateID: string
    var version: nat
    var baseVersion: nat
    var events: seq<Event>
    // LedgerAccountAggregate
    var accountID: string
    var balances: map<string, int>
    var posted: map<string, Posting>
    // The state at the stored version.
    ghost var start: State

    function Fields(): State
      reads this
    {
      State(accountID, balances, posted)
    }

    function View(): Live
      reads this
    {
      Live(aggregateID, baseVersion, events, Fields())
    }

    /** No divergence: the pending events replayed over the stored state give the current state. */
    ghost predicate Valid()
      reads this
    {
      InStep(start, View()) && version == baseVersion
    }

    /** Version: of the last pending event, else the stored one */
    function Version(): (v: nat)
      reads this
      ensures Valid() ==> v == baseVersion + |events|
    {
      if |events| > 0 then events[|events| - 1].version else version
    }

    constructor (id: string)
      requires IsID(id)
      ensures Valid() && View() == Loaded(id, 0, FRESH) && start == FRESH
    {
      aggregateID, version, baseVersion, events := id, 0, 0, [];
      accountID, balances, posted := "", map[], map[];
      start := FRESH;
    }

    /** Transition */
    method Transition(evt: Event) returns (r: Result<()>)
      modifies `accountID, `balances, `posted
      ensures match Accounts.Transition(old(Fields()), evt)
              case Err(e) => r == Err(e) && Fields() == old(Fields())
              case Ok(s) => r == Ok(()) && Fields() == s
    {
      hide Postings.Preview, Postings.Normalize, Accounts.Allowed;
      match Preview(evt.aggregateID, evt.data) {
        case Err(e) => r := Err(e);
        case Ok(p) => r := ApplyPosting(evt.aggregateID, p);
      }
    }

    /** applyPosting */
    method ApplyPosting(id: string, p: Posting) returns (r: Result<()>)
      modifies `accountID, `balances, `posted
      ensures match Accounts.ApplyPosting(old(Fields()), id, p)
              case Err(e) => r == Err(e) && Fields() == old(Fields())
              case Ok(s) => r == Ok(()) && Fields() == s
    {
      hide Postings.Normalize, Accounts.Allowed;
      match Normalize(id, p) {
        case Err(e) => return Err(e);
        case Ok((normalizedID, q)) =>
          if !Allowed(Fields(), q) {
            return Err(InsufficientFunds);
          }
          if accountID != "" && accountID != normalizedID {
            return Err(AccountIDMismatch);
          }
          accountID := normalizedID;
          balances := balances[q.currency := (if q.currency in balances then balances[q.currency] else 0) + q.delta];
          posted := posted[q.transactionID := q];
          return Ok(());
      }
    }

    /**
     ApplyChange: the event is appended first and the transition runs second, so on an error the
     pending log has grown while the state has not moved.
     */
    method ApplyChange(data: EventData) returns (r: Result<()>)
      modifies `events, `accountID, `balances, `posted
      ensures aggregateID == "" ==> r == Err(AggregateIDEmpty) && View() == old(View())
      ensures aggregateID != "" ==>
                var evt := Event(aggregateID, old(Version()) + 1, data);
                && events == old(events) + [evt]
                && match Accounts.Transition(old(Fields()), evt)
                   case Err(e) => r == Err(e) && Fields() == old(Fields())
                   case Ok(s) => r == Ok(()) && Fields() == s
    {
      hide Accounts.Transition;
      if aggregateID == "" {
        return Err(AggregateIDEmpty);
      }
      var evt := Event(aggregateID, Version() + 1, data);
      events := events + [evt];
      r := Transition(evt);
    }

    /**
     Books an event whose posting the caller has built: absorb a duplicate, refuse a clash or an
     overdraft, else record it. Shared tail of the four command methods.
     */
    method BookPosting(p: Posting, data: EventData) returns (r: Result<bool>)
      requires Valid() && Preview(aggregateID, data) == Ok(p)
      modifies `events, `accountID, `balances, `posted
      ensures Books(old(View()), data, r, View()) && Valid()
    {
      hide Postings.Preview, Postings.Same, Accounts.Transition, Accounts.Replay, Accounts.Allowed, Text.Trimmed;
      if p.transactionID in posted {
        if Same(posted[p.transactionID], p) {
          return Ok(false);
        }
        return Err(PostingMismatch);
      }
      if !Allowed(Fields(), p) {
        return Err(InsufficientFunds);
      }
      ghost var before := View();
      BookStaysInStep(start, before, data);
      var change := ApplyChange(data);
      assert change == Ok(());
      assert View() == Book(before, data).value.0;
      r := Ok(true);
    }

    /** ApplyPostingEvent */
    method ApplyPostingEvent(data: EventData) returns (r: Result<bool>)
      requires Valid()
      modifies `events, `accountID, `balances, `posted
      ensures Books(old(View()), data, r, View()) && Valid()
    {
      hide Postings.Preview, Postings.Same, Accounts.InStep, Accounts.Allowed;
      match Preview(aggregateID, data) {
        case Err(e) => r := Err(e);
        case Ok(p) => r := BookPosting(p, data);
      }
    }

    /** TransferToAccount */
    method TransferToAccount(transactionID: string, to: string, currency: string, amount: int, at: Time)
      returns (r: Result<bool>)
      requires Valid()
      modifies `events, `accountID, `balances, `posted
      ensures Valid()
      ensures match TransferOutPosting(aggregateID, transactionID, to, currency, amount, at)
              case Err(e) => r == Err(e) && View() == old(View())
              case Ok(p) => Books(old(View()), TransferredToAccount(p.transactionID, p.counterparty, p.currency,
                                                                    amount, p.bookedAt), r, View())
    {
      hide Postings.Preview, Postings.TransferOutPosting, Accounts.InStep, Books;
      TransferEventsReadBack(aggregateID, transactionID, to, currency, amount, at);
      match TransferOutPosting(aggregateID, transactionID, to, currency, amount, at) {
        case Err(e) => r := Err(e);
        case Ok(p) =>
          r := BookPosting(p, TransferredToAccount(p.transactionID, p.counterparty, p.currency, amount, p.bookedAt));
      }
    }

    /** ReceiveTransfer */
    method ReceiveTransfer(transactionID: string, from: string, currency: string, amount: int, at: Time)
      returns (r: Result<bool>)
      requires Valid()
      modifies `events, `accountID, `balances, `posted
      ensures Valid()
      ensures match TransferInPosting(aggregateID, transactionID, from, currency, amount, at)
              case Err(e) => r == Err(e) && View() == old(View())
              case Ok(p) => Books(old(View()), ReceivedTransfer(p.transactionID, p.counterparty, p.currency,
                                                                amount, p.bookedAt), r, View())
    {
      hide Postings.Preview, Postings.TransferInPosting, Accounts.InStep, Books;
      TransferEventsReadBack(aggregateID, transactionID, from, currency, amount, at);
      match TransferInPosting(aggregateID, transactionID, from, currency, amount, at) {
        case Err(e) => r := Err(e);
        case Ok(p) =>
          r := BookPosting(p, ReceivedTransfer(p.transactionID, p.counterparty, p.currency, amount, p.bookedAt));
      }
    }

    /**
     bookPaymentPosting, as BookPayment and ReversePayment call it: with a payment type whose direction is the
     sign of the delta, or with no valid type. The event then reads back as the very posting that was checked.
     */
    method BookPaymentPosting(transactionID: string, ref: ReferenceType, referenceID: string,
                              counterparty: string, currency: string, delta: int, at: Time)
      returns (r: Result<bool>)
      requires Valid() && !ref.InternalTransfer?
      requires ref.Payment? ==> (delta > 0 ==> Direction(ref.kind) == 1) && (delta < 0 ==> Direction(ref.kind) == -1)
      modifies `events, `accountID, `balances, `posted
      ensures Valid()
      ensures BooksPayment(old(View()), transactionID, ref, referenceID, counterparty, currency, delta, at, r, View())
    {
      hide Postings.Preview, Accounts.Replay, Text.Trim, Text.Trimmed, Text.Currency, Text.IsUpper;
      match NewPaymentPosting(aggregateID, transactionID, ref, referenceID, counterparty, currency, delta, at) {
        case Err(e) => r := Err(e);
        case Ok(p) =>
          EventRoundTrip(aggregateID, p);
          r := BookPosting(p, EventOfPosting(p).value);
      }
    }

    /** BookPayment */
    method BookPayment(transactionID: string, paymentID: string, counterparty: string, currency: string,
                       delta: int, at: Time)
      returns (r: Result<bool>)
      requires Valid()
      modifies `events, `accountID, `balances, `posted
      ensures Valid()
      ensures BooksPayment(old(View()), transactionID, Payment(if delta >= 0 then DepositFromIntent else WithdrawFromIntent), paymentID,
                           counterparty, currency, delta, at, r, View())
    {
      hide Postings.Preview, Accounts.InStep, Text.Trim, Text.Trimmed, Text.Currency, Text.IsUpper, BooksPayment;
      r := BookPaymentPosting(transactionID, Payment(KindForSucceeded(delta)), paymentID, counterparty, currency, delta, at);
    }

    /** ReversePayment: a type that is neither a refund nor a chargeback is refused before anything else is looked at */
    method ReversePayment(transactionID: string, reversal: ReversalType, paymentID: string, counterparty: string,
                          currency: string, delta: int, at: Time)
      returns (r: Result<bool>)
      requires Valid()
      modifies `events, `accountID, `balances, `posted
      ensures Valid()
      ensures reversal.OtherReversal? ==> r == Err(ReferenceTypeInvalid) && View() == old(View())
      ensures reversal.Refunded? ==>
                BooksPayment(old(View()), transactionID, Payment(if delta >= 0 then DepositFromRefund else WithdrawFromRefund), paymentID,
                             counterparty, currency, delta, at, r, View())
      ensures reversal.ChargedBack? ==>
                BooksPayment(old(View()), transactionID, Payment(if delta >= 0 then DepositFromChargeback else WithdrawFromChargeback),
                             paymentID, counterparty, currency, delta, at, r, View())
    {
      hide Postings.Preview, Accounts.InStep, Text.Trim, Text.Trimmed, Text.Currency, Text.IsUpper, BooksPayment;
      if reversal.OtherReversal? {
        return Err(ReferenceTypeInvalid);
      }
      r := BookPaymentPosting(transactionID, KindForReversal(reversal, delta), paymentID, counterparty, currency, delta, at);
    }

    /**
     LoadFromHistory: a loop of transitions. It stops at the first event that fails, having applied
     exactly the events before it; otherwise it ends in the replayed state at the last version.
     */
    method LoadFromHistory(log: seq<Event>) returns (r: Result<()>)
      modifies this
      ensures events == old(events)
      ensures exists k | 0 <= k <= |log| ::
                && Replay(old(Fields()), log[..k]) == Ok(Fields())
                && (k == |log| <==> r.Ok?)
                && (k < |log| ==> Accounts.Transition(Fields(), log[k]) == Err(r.error))
                && (k == 0 ==> version == old(version) && baseVersion == old(baseVersion)
                               && aggregateID == old(aggregateID))
                && (k > 0 ==> version == baseVersion == log[k - 1].version
                              && aggregateID == log[k - 1].aggregateID)
      ensures start == Fields()
    {
      hide Accounts.Transition;
      for i := 0 to |log|
        invariant events == old(events)
        invariant Replay(old(Fields()), log[..i]) == Ok(Fields())
        invariant i == 0 ==> version == old(version) && baseVersion == old(baseVersion) && aggregateID == old(aggregateID)
        invariant i > 0 ==> version == baseVersion == log[i - 1].version && aggregateID == log[i - 1].aggregateID
      {
        assert log[..i + 1][..i] == log[..i];
        var step := Transition(log[i]);
        if step.Err? {
          start := Fields();
          return Err(step.error);
        }
        aggregateID, version, baseVersion := log[i].aggregateID, log[i].version, log[i].version;
      }
      assert log[..|log|] == log;
      start := Fields();
      r := Ok(());
    }

    /** MarkPersisted: the pending events become history and the version moves to the last of them */
    method MarkPersisted()
      requires Valid()
      modifies `version, `baseVersion, `events, `start
      ensures Valid() && start == Fields()
      ensures View() == Loaded(aggregateID, old(baseVersion) + |old(events)|, Fields())
    {
      hide Accounts.Transition, Accounts.IsNew, Text.Trimmed;
      ReplayPosts(aggregateID, start, baseVersion, events);
      if |events| > 0 {
        ProducedVersions(aggregateID, start, baseVersion, events, |events| - 1);
        var last := events[|events| - 1];
        version := last.version;
        baseVersion := last.version;
        events := [];
      }
      start := Fields();
    }

    /** PostedTransaction */
    method PostedTransaction(transactionID: string) returns (p: Option<Posting>)
      ensures p == if Trim(transactionID) != "" && Trim(transactionID) in posted
                   then Some(posted[Trim(transactionID)]) else None
    {
      hide Text.Trim;
      var tx := Trim(transactionID);
      if tx == "" || tx !in posted {
        return None;
      }
      p := Some(posted[tx]);
    }
  }

  /** NewLedgerAccountAggregate */
  method NewLedgerAccountAggregate(accountID: string) returns (r: Result<LedgerAccountAggregate>)
    ensures Trim(accountID) == "" <==> r == Err(AggregateIDEmpty)
    ensures r.Ok? <==> Trim(accountID) != ""
    ensures r.Ok? ==> fresh(r.value) && r.value.Valid()
                      && r.value.View() == Loaded(Trim(accountID), 0, FRESH) && r.value.start == FRESH
  {
    var id := Trim(accountID);
    if id == "" {
      return Err(AggregateIDEmpty);
    }
    var agg := new LedgerAccountAggregate(id);
    r := Ok(agg);
  }
}
