/**
 The lock keys taken around a payment event: those of core/modules/ledger/transport/grpc/server.go, computed
 from the payload, and those of the consumer, read off the built events. Do they cover what is written?
 */
module LockKeys {
  import opened Text
  import opened Postings
  import opened Ledger
  import opened Batches
  import opened Transfers
  import opened Money
  import opened Funds
  import Accounts
  import Locks
  import opened Payments
  import opened PaymentService
  import opened PaymentEntries
  import opened PaymentFacts
  import PaymentConsumer

  /** ledgerClearingAccountID of the gRPC server: unlike the service's, blank for a blank key */
  function ClearingKey(key: string): string {
    if Lower(Trim(key)) == "" then "" else "ledger:clearing:" + Lower(Trim(key))
  }

  /** The keys of withdrawalRequestedLockKeys, succeededLockKeys, failedLockKeys and reversedLockKeys, not yet normalised. */
  function RawKeys(feeAccount: string, p: Payload): seq<string> {
    (match p
     case OnWithdrawal(w) => [Trim(w.debitAccount), ClearingKey(FirstNonEmpty(w.clearingKey, ProviderKey(w.provider)))]
     case OnSucceeded(s) => [ClearingKey(s.clearingKey), Trim(s.creditAccount)]
     case OnFailed(f) => [Trim(f.debitAccount), ClearingKey(f.clearingKey)]
     case OnReversed(r) => [ClearingKey(r.clearingKey), Trim(r.creditAccount)])
    + if FeeAmount(p) > 0 then [Trim(feeAccount)] else []
  }

  function ToSet(keys: seq<string>): set<string> { set k | k in keys }

  function Trims(keys: seq<string>): set<string> { set k | k in keys :: Trim(k) }

  /** The non-blank keys, trimmed, each where it first occurs. */
  function Firsts(keys: seq<string>): (items: seq<string>)
    ensures ToSet(items) == Trims(keys) - {""}
    ensures forall i, j | 0 <= i < j < |items| :: items[i] != items[j]
  {
    if keys == [] then [] else
      var n := |keys| - 1;
      var items, k := Firsts(keys[..n]), Trim(keys[n]);
      TrimsStep(keys[..n], keys[n]);
      assert keys == keys[..n] + [keys[n]];
      assert k in items <==> k in ToSet(items);
      assert ToSet(items + [k]) == ToSet(items) + {k};
      if k == "" || k in items then items else items + [k]
  }

  lemma TrimsStep(keys: seq<string>, k: string)
    ensures Trims(keys + [k]) == Trims(keys) + {Trim(k)}
  {
    hide Text.Trim, Text.Trimmed;
  }

  /** One more key: it is added unless it is blank or there already. */
  lemma FirstsStep(keys: seq<string>, i: nat)
    requires i < |keys|
    ensures var items, k := Firsts(keys[..i]), Trim(keys[i]);
            Firsts(keys[..i + 1]) == (if k == "" || k in ToSet(items) then items else items + [k])
    ensures ToSet(Firsts(keys[..i]) + [Trim(keys[i])]) == ToSet(Firsts(keys[..i])) + {Trim(keys[i])}
  {
    hide Text.Trim, Text.Trimmed, Trims;
    assert keys[..i + 1][..i] == keys[..i];
  }

  /** The keys come in the order of their first occurrence: later ones are only ever added behind. */
  lemma {:induction false} FirstsGrow(keys: seq<string>, i: nat)
    requires i <= |keys|
    ensures Firsts(keys[..i]) <= Firsts(keys)
  {
    hide Text.Trim, Text.Trimmed, Trims, ToSet;
    if i < |keys| {
      var k := |keys| - 1;
      FirstsGrow(keys[..k], i);
      assert keys[..k][..i] == keys[..i];
      FirstsStep(keys, k);
      assert keys[..k + 1] == keys;
    } else {
      assert keys[..i] == keys;
    }
  }

  /** normalizeLockKeys */
  method NormalizeLockKeys(keys: seq<string>) returns (items: seq<string>)
    ensures items == Firsts(keys)
  {
    hide Text.Trim, Text.Trimmed, Firsts, ToSet, Trims;
    items := [];
    var seen: set<string> := {};
    assert Firsts(keys[..0]) == [] && ToSet([]) == {} by { FirstsOfNone(keys); }
    for i := 0 to |keys|
      invariant items == Firsts(keys[..i]) && seen == ToSet(items)
    {
      FirstsStep(keys, i);
      var key := Trim(keys[i]);
      if key == "" || key in seen { continue; }
      seen := seen + {key};
      items := items + [key];
    }
    assert keys[..|keys|] == keys;
  }

  lemma FirstsOfNone(keys: seq<string>)
    ensures Firsts(keys[..0]) == [] && ToSet([]) == {}
  {
  }

  function AggregateIDs(events: seq<Event>): seq<string> { seq(|events|, i requires 0 <= i < |events| => events[i].aggregateID) }

  /** ledgerEventLockKeys of the consumer */
  method EventLockKeys(events: seq<Event>) returns (keys: seq<string>)
    ensures keys == Firsts(AggregateIDs(events))
  {
    hide Text.Trim, Text.Trimmed, Firsts, ToSet, Trims;
    keys := [];
    var seen: set<string> := {};
    ghost var ids := AggregateIDs(events);
    assert Firsts(ids[..0]) == [] && ToSet([]) == {} by { FirstsOfNone(ids); }
    for i := 0 to |events|
      invariant keys == Firsts(ids[..i]) && seen == ToSet(keys)
    {
      FirstsStep(ids, i);
      var key := Trim(events[i].aggregateID);
      if key == "" { continue; }
      if key in seen { continue; }
      seen := seen + {key};
      keys := keys + [key];
    }
    assert ids[..|ids|] == ids;
  }

  /** The consumer locks exactly the accounts of the batch, whatever the batch is. */
  lemma EventKeysAreExact(events: seq<Event>)
    ensures ToSet(Firsts(AggregateIDs(events))) == AccountsOf(events) - {""}
  {
    hide Firsts, Text.Trim, Text.Trimmed;
    var ids := AggregateIDs(events);
    forall k ensures k in Trims(ids) <==> k in AccountsOf(events) {
      if k in AccountsOf(events) {
        var e :| e in events && AccountOf(e) == k;
        var j :| 0 <= j < |events| && events[j] == e;
        assert ids[j] in ids && Trim(ids[j]) == k;
      }
      if k in Trims(ids) {
        var j :| 0 <= j < |ids| && Trim(ids[j]) == k;
        assert events[j] in events && AccountOf(events[j]) == k;
      }
    }
    assert Trims(ids) == AccountsOf(events);
  }

  function LockSet(feeAccount: string, p: Payload): set<string> { ToSet(Firsts(RawKeys(feeAccount, p))) }

  /** The account a blank clearing key stands for in the service's builders. */
  const BLANK_CLEARING := "ledger:clearing:"

  /** The service writes to the clearing account of a blank key, for which the server's keys have no entry. */
  predicate BlankKeyIsWritten(p: Payload) {
    match p
    case OnWithdrawal(w) => Trim(w.clearingKey) == "" && Trim(w.provider) == ""
    case OnFailed(f) => SpellsWithdrawal(f.workflow) && Trim(f.clearingKey) == ""
    case _ => false
  }

  /** ... unless the fee account happens to be that very account. */
  predicate FeeAccountSavesIt(feeAccount: string, p: Payload) { FeeAmount(p) > 0 && Trim(feeAccount) == BLANK_CLEARING }

  lemma ClearingKeyMeans(key: string)
    ensures Trim(key) != "" ==> ClearingKey(key) == ClearingAccount(key)
    ensures Trim(key) == "" ==> ClearingKey(key) == "" && ClearingAccount(key) == BLANK_CLEARING
    ensures Trim(ClearingKey(key)) == ClearingKey(key)
  {
    hide Text.Trim, Text.Trimmed, Text.IsLower;
    assert Trim("") == "" by { TrimBlank(); }
    var id := ClearingAccount(key);
    Accounts.TrimOfID(id);
  }

  lemma FirstsOfThree(a: string, b: string, c: seq<string>)
    requires |c| <= 1
    ensures ToSet(Firsts([a, b] + c)) == {Trim(a), Trim(b)} + (if c == [] then {} else {Trim(c[0])}) - {""}
  {
    hide Firsts, Text.Trim, Text.Trimmed, Trims;
    assert [] + [a] == [a] && [a] + [b] == [a, b];
    assert Trims([]) == {} by { NoTrims(); }
    TrimsStep([], a);
    TrimsStep([a], b);
    if c == [] { assert [a, b] + c == [a, b]; } else { assert c == [c[0]]; TrimsStep([a, b], c[0]); }
  }

  lemma NoTrims()
    ensures Trims([]) == {}
  {
  }

  /** The keys as a set: the two sides of the payment and the fee account, without the blank ones. */
  lemma LockSetMeans(feeAccount: string, p: Payload)
    ensures LockSet(feeAccount, p) ==
            (match p
             case OnWithdrawal(w) => {Trim(w.debitAccount), ClearingKey(FirstNonEmpty(w.clearingKey, ProviderKey(w.provider)))}
             case OnSucceeded(s) => {Trim(s.creditAccount), ClearingKey(s.clearingKey)}
             case OnFailed(f) => {Trim(f.debitAccount), ClearingKey(f.clearingKey)}
             case OnReversed(r) => {Trim(r.creditAccount), ClearingKey(r.clearingKey)})
            + (if FeeAmount(p) > 0 then {Trim(feeAccount)} else {}) - {""}
  {
    hide Firsts, Text.Trim, Text.Trimmed, ClearingKey, ToSet, ProviderKey;
    var fee := if FeeAmount(p) > 0 then [Trim(feeAccount)] else [];
    match p {
      case OnWithdrawal(w) =>
        ClearingKeyMeans(FirstNonEmpty(w.clearingKey, ProviderKey(w.provider)));
        FirstsOfThree(Trim(w.debitAccount), ClearingKey(FirstNonEmpty(w.clearingKey, ProviderKey(w.provider))), fee);
      case OnSucceeded(s) => ClearingKeyMeans(s.clearingKey); FirstsOfThree(ClearingKey(s.clearingKey), Trim(s.creditAccount), fee);
      case OnFailed(f) => ClearingKeyMeans(f.clearingKey); FirstsOfThree(Trim(f.debitAccount), ClearingKey(f.clearingKey), fee);
      case OnReversed(r) => ClearingKeyMeans(r.clearingKey); FirstsOfThree(ClearingKey(r.clearingKey), Trim(r.creditAccount), fee);
    }
  }

  /** The account of the payment that a blank clearing key could leave unlocked. */
  function ClearingSide(p: Payload): string {
    if p.OnSucceeded? then Principal(p, ZERO_TIME).a else Principal(p, ZERO_TIME).b
  }

  function OtherSide(p: Payload): string {
    if p.OnSucceeded? then Principal(p, ZERO_TIME).b else Principal(p, ZERO_TIME).a
  }

  lemma PayloadAccountsMeans(feeAccount: string, p: Payload, now: Time)
    requires BooksLegs(p) && EventsOfPayload(feeAccount, p, now).Ok?
    ensures PayloadAccounts(feeAccount, p)
         == {OtherSide(p), ClearingSide(p)} + if BooksFee(feeAccount, p) then {Trim(feeAccount)} else {}
    ensures OtherSide(p) != "" && ClearingSide(p) != "" && OtherSide(p) != ClearingSide(p)
    ensures BooksFee(feeAccount, p) && p.OnWithdrawal? ==> Trim(feeAccount) != OtherSide(p)
  {
    hide Text.Trim, Text.Trimmed, ClearingAccount, HoldAccount, Resolve, Text.Currency, EventsOfPayload, Legs, BatchDelta, Delta, Guarded,
         CurrencyOf, Slot, Ledger.AccountsOf, Paired, EntryDelta, GuardedKind, LegID, IsWithdrawal, SpellsWithdrawal;
    PayloadIsEntries(feeAccount, p, now);
    EntryFacts(Principal(p, now));
    Accounts.TrimOfID(ClearingSide(p));
    if BooksFee(feeAccount, p) { EntryFacts(FeeEntry(feeAccount, p, now)); }
  }

  /** Successes and reversals are refused for a blank clearing key. */
  lemma KeyRequired(feeAccount: string, p: Payload, now: Time)
    requires BooksLegs(p) && EventsOfPayload(feeAccount, p, now).Ok?
    ensures p.OnSucceeded? ==> Trim(p.succeeded.clearingKey) != ""
    ensures p.OnReversed? ==> Trim(p.reversed.clearingKey) != ""
  {
    hide Text.Trim, Text.Trimmed, ClearingAccount, Resolve, Text.Currency, LegID, IsWithdrawal, SpellsWithdrawal, HoldPair, BookingPair, Both;
    WorkflowOf(p);
  }

  /** Which clearing key the server computes for a payload, and whether the builder accepts it blank. */
  lemma ClearingSideLocked(feeAccount: string, p: Payload, now: Time)
    requires BooksLegs(p) && EventsOfPayload(feeAccount, p, now).Ok?
    ensures LockSet(feeAccount, p) == {OtherSide(p)} + (if BlankKeyIsWritten(p) then {} else {ClearingSide(p)})
                                      + if BooksFee(feeAccount, p) then {Trim(feeAccount)} else {}
    ensures BlankKeyIsWritten(p) ==> ClearingSide(p) == BLANK_CLEARING
  {
    hide Text.Trim, Text.Trimmed, Text.Lower, ClearingAccount, ClearingKey, Resolve, Text.Currency, LegPair, LegID, IsWithdrawal, SpellsWithdrawal, Firsts,
         ToSet, LockSet, PayloadAccounts, ProviderKey, EventsOfPayload;
    KeyRequired(feeAccount, p, now);
    LockSetMeans(feeAccount, p);
    PayloadAccountsMeans(feeAccount, p, now);
    match p {
      case OnWithdrawal(w) =>
        ClearingKeyMeans(FirstNonEmpty(w.clearingKey, ProviderKey(w.provider)));
        ProviderBlank(w.provider);
      case OnSucceeded(s) => ClearingKeyMeans(s.clearingKey);
      case OnFailed(f) => ClearingKeyMeans(f.clearingKey);
      case OnReversed(r) => ClearingKeyMeans(r.clearingKey);
    }
  }

  lemma ProviderBlank(provider: string)
    ensures Trim(ProviderKey(provider)) == "" <==> Trim(provider) == ""
    ensures Trim(Trim(ProviderKey(provider))) == Trim(ProviderKey(provider))
  {
    var p := Lower(Trim(provider));
    hide Text.Trim, Text.Trimmed, Text.Lower;
    TrimBlank();
    if p != "" { TrimOfProviderKey(p); }
  }

  lemma TrimOfProviderKey(p: string)
    requires p != "" && Trimmed(p)
    ensures Trim("provider:" + p) != ""
  {
    hide Text.Trim;
  }

  /**
   Lock coverage: the server's keys for a payload are exactly the accounts its batch writes, except when the
   batch writes to the clearing account of a blank key; then that account, and only it, is not locked.
   */
  lemma LockCoverage(feeAccount: string, p: Payload, now: Time)
    requires EventsOfPayload(feeAccount, p, now).Ok?
    ensures var written := AccountsOf(EventsOfPayload(feeAccount, p, now).value);
            && (written <= LockSet(feeAccount, p) <==> !BlankKeyIsWritten(p) || FeeAccountSavesIt(feeAccount, p))
            && (BooksLegs(p) ==> LockSet(feeAccount, p) <= written && written <= LockSet(feeAccount, p) + {ClearingSide(p)})
  {
    hide EventsOfPayload, Text.Trim, Text.Trimmed, LockSet, PayloadAccounts, OtherSide, ClearingSide, Ledger.AccountsOf, WellBuilt,
         IsWithdrawal, SpellsWithdrawal, BatchDelta, PayloadDelta, Guarded;
    PayloadFacts(feeAccount, p, now);
    if BooksLegs(p) {
      ClearingSideLocked(feeAccount, p, now);
      PayloadAccountsMeans(feeAccount, p, now);
    } else {
      assert PayloadAccounts(feeAccount, p) == {} by { NothingWritten(feeAccount, p); }
    }
  }

  lemma NothingWritten(feeAccount: string, p: Payload)
    requires !BooksLegs(p)
    ensures PayloadAccounts(feeAccount, p) == {}
  {
  }

  // ---------------------------------------------------------------- transfers

  /** The keys of the transfer handler (transfer_transaction_handler.go): the ids as they came, untrimmed. */
  function TransferKeys(cmd: TransferCommand): seq<string> {
    [cmd.from, cmd.to] + if cmd.feeAccount != "" then [cmd.feeAccount] else []
  }

  /** Each id came without surrounding white space, or the trimmed form of it is how another one came. */
  predicate IDsCameTrimmed(cmd: TransferCommand) {
    && (Trimmed(cmd.from) || cmd.feeAccount == Trim(cmd.from))
    && (Trimmed(cmd.to) || cmd.feeAccount == Trim(cmd.to))
    && (cmd.feeAmount > 0 ==> Trimmed(cmd.feeAccount) || cmd.to == Trim(cmd.feeAccount))
  }

  /**
   The keys of a transfer cover the accounts it writes exactly when each id came without surrounding white
   space, or the trimmed form of one is how another came.
   */
  lemma TransferLockCoverage(cmd: TransferCommand, now: Time)
    requires PlanTransfer(cmd).Ok? && now != ZERO_TIME
    ensures AccountsOf(PlanEvents(PlanTransfer(cmd).value, now)) <= ToSet(TransferKeys(cmd)) <==> IDsCameTrimmed(cmd)
    ensures "" !in AccountsOf(PlanEvents(PlanTransfer(cmd).value, now))
  {
    hide Text.Trim, Text.Trimmed, Ledger.AccountsOf, Ledger.PlanEvents, Text.Currency, GoodPlan;
    var plan := PlanTransfer(cmd).value;
    PlanIsGood(cmd);
    PlanAccounts(plan, now);
    assert "" !in AccountsOf(PlanEvents(plan, now)) by { assert !Accounts.IsID(""); }
    TrimsToItself(cmd.from);
    TrimsToItself(cmd.to);
    TrimsToItself(cmd.feeAccount);
    assert TransferKeys(cmd)[0] == cmd.from && TransferKeys(cmd)[1] == cmd.to;
    assert cmd.feeAccount != "" ==> TransferKeys(cmd)[2] == cmd.feeAccount;
  }

  /**
   As transfers come in, the sender's and the receiver's ids are trimmed (by the actor context and by the request's
   validation). What is left is the configured fee account: with white space around it, a transfer with a fee
   writes an account it does not lock, unless that account is the receiver's.
   */
  lemma IncomingTransferCoverage(cmd: TransferCommand, now: Time)
    requires PlanTransfer(cmd).Ok? && now != ZERO_TIME && Trimmed(cmd.from) && Trimmed(cmd.to)
    ensures AccountsOf(PlanEvents(PlanTransfer(cmd).value, now)) <= ToSet(TransferKeys(cmd))
       <==> !(cmd.feeAmount > 0 && !Trimmed(cmd.feeAccount) && cmd.to != Trim(cmd.feeAccount))
  {
    hide Text.Trim, Text.Trimmed, Ledger.AccountsOf, Ledger.PlanEvents, ToSet, TransferKeys, Ledger.PlanTransfer;
    TransferLockCoverage(cmd, now);
  }

  lemma TrimsToItself(id: string)
    ensures Trim(id) == id <==> Trimmed(id)
    ensures Trim(id) != "" ==> id != ""
  {
  }

  // ---------------------------------------------------------------- any two writers

  const LOCK_PREFIX := "ledger-account"

  /** Whoever books on the ledger under locks: the gRPC server, the consumer, the transfer handler. */
  datatype Writer =
    | ServerPayment(feeAccount: string, payload: Payload)
    | ConsumedPayment(feeAccount: string, aggregateID: string, payload: Payload)
    | TransferCall(cmd: TransferCommand)

  function EventsOfWriter(w: Writer, now: Time): Result<seq<Event>> {
    match w
    case ServerPayment(feeAccount, p) => EventsOfPayload(feeAccount, p, now)
    case ConsumedPayment(feeAccount, aggregateID, p) => PaymentConsumer.EventsOfMessage(feeAccount, aggregateID, p, now)
    case TransferCall(cmd) =>
      match PlanTransfer(cmd) case Err(e) => Err(e) case Ok(plan) => Ok(PlanEvents(plan, now))
  }

  /** The keys it hands to WithLocks. */
  function KeysOf(w: Writer, now: Time): seq<string> {
    match w
    case ServerPayment(feeAccount, p) => Firsts(RawKeys(feeAccount, p))
    case ConsumedPayment(_, _, _) =>
      (match EventsOfWriter(w, now) case Ok(events) => Firsts(AggregateIDs(events)) case Err(_) => [])
    case TransferCall(cmd) => TransferKeys(cmd)
  }

  /** What has to hold for the keys to cover what is written. */
  predicate KeysSuffice(w: Writer) {
    match w
    case ServerPayment(feeAccount, p) => !BlankKeyIsWritten(p) || FeeAccountSavesIt(feeAccount, p)
    case ConsumedPayment(_, _, _) => true
    case TransferCall(cmd) => IDsCameTrimmed(cmd)
  }

  /** Each writer locks every account it writes if and only if its keys suffice. */
  lemma WriterCoverage(w: Writer, now: Time)
    requires EventsOfWriter(w, now).Ok? && now != ZERO_TIME
    ensures var written := AccountsOf(EventsOfWriter(w, now).value);
            && "" !in written
            && (written <= ToSet(KeysOf(w, now)) <==> KeysSuffice(w))
  {
    hide EventsOfPayload, PaymentConsumer.EventsOfMessage, Text.Trim, Text.Trimmed, Firsts, RawKeys, Ledger.AccountsOf, BlankKeyIsWritten,
         FeeAccountSavesIt, BooksLegs, IDsCameTrimmed, Ledger.PlanTransfer, Ledger.PlanEvents, ToSet, TransferKeys, Distinct, Paired,
         Guarded, PayloadAccounts, PayloadDelta, BatchDelta;
    match w {
      case ServerPayment(feeAccount, p) =>
        LockCoverage(feeAccount, p, now);
        PayloadFacts(feeAccount, p, now);
      case ConsumedPayment(feeAccount, aggregateID, p) =>
        PaymentsAreDoubleEntry(Kafka(aggregateID), feeAccount, p, now);
        EventKeysAreExact(EventsOfWriter(w, now).value);
      case TransferCall(cmd) => TransferLockCoverage(cmd, now);
    }
  }

  /**
   Any two writers whose batches write a common account lock a common key, so that they cannot run at once
   (LockProtocol.MutualExclusion), as long as the keys of each suffice.
   */
  lemma WritersShareALock(w: Writer, now: Time, v: Writer, later: Time, id: string)
    requires EventsOfWriter(w, now).Ok? && EventsOfWriter(v, later).Ok? && now != ZERO_TIME && later != ZERO_TIME
    requires id in AccountsOf(EventsOfWriter(w, now).value) && id in AccountsOf(EventsOfWriter(v, later).value)
    requires KeysSuffice(w) && KeysSuffice(v)
    ensures Locks.Prefixed(LOCK_PREFIX, id) in Locks.Wanted(KeysOf(w, now), LOCK_PREFIX)
    ensures Locks.Prefixed(LOCK_PREFIX, id) in Locks.Wanted(KeysOf(v, later), LOCK_PREFIX)
  {
    hide EventsOfWriter, KeysOf, KeysSuffice, Ledger.AccountsOf, Locks.Prefixed;
    WriterCoverage(w, now);
    WriterCoverage(v, later);
    assert id in ToSet(KeysOf(w, now)) && id in ToSet(KeysOf(v, later));
  }
}
