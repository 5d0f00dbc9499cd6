/** Concrete inputs on which the code does less than one might expect; the exact conditions are proved elsewhere. */
module Instances {
  import opened Text
  import opened Postings
  import opened Accounts
  import opened Stores
  import opened Ledger
  import opened Batches
  import opened Transfers
  import opened Runs
  import opened Money
  import opened Funds
  import opened Payments
  import opened PaymentService
  import opened PaymentEntries
  import opened PaymentFacts
  import opened Redelivery
  import opened LockKeys
  import opened TransferCommands
  import PaymentTable
  import PaymentConsumer

  /** The words used below are trimmed and in upper or lower case as they should be. */
  lemma Words()
    ensures Trim("acc") == "acc" && Trim("p1") == "p1" && Trim("t1") == "t1" && Trim("m1") == "m1" && Trim("other") == "other"
    ensures Trim("") == "" && Trim("a") == "a" && Trim("b") == "b" && Trimmed("b") && Trimmed("t1")
    ensures Trimmed("acc") && Trimmed("p1") && Trimmed("other") && Trimmed("USD") && IsUpper("USD")
    ensures Trim("stripe") == "stripe" && Trim("key") == "key"
  {
    hide Text.Trim;
  }

  lemma Currencies()
    ensures Currency("USD") == "USD"
  {
    hide Text.Trim, Text.Trimmed;
    Words();
  }

  /** Clearing accounts are ids, longer than any wallet used here. */
  lemma ClearingIsLong(key: string)
    ensures Trim(ClearingAccount(key)) == ClearingAccount(key) && |ClearingAccount(key)| >= 16
  {
    TrimOfID(ClearingAccount(key));
    assert |"ledger:clearing:"| == 16;
    hide Text.Trim, Text.Trimmed;
  }

  /** A pair of legs between a wallet and a clearing account. */
  lemma WalletLegs(a: string, b: string, wallet: string, key: string, paymentID: string, leg: LegKind, delta: int, at: Time,
                   ka: PaymentKind, kb: PaymentKind)
    requires (a == wallet && b == ClearingAccount(key)) || (b == wallet && a == ClearingAccount(key))
    requires Trim(wallet) == wallet && 0 < |wallet| < 16 && Trim(paymentID) == paymentID != "" && delta != 0 && at != ZERO_TIME
    ensures LegPair(a, b, LegID(paymentID, leg), paymentID, "USD", delta, at, ka, kb).Ok?
  {
    hide Text.Trim, Text.Trimmed, Text.Currency, LegPair, LegID, ClearingAccount;
    Currencies();
    ClearingIsLong(key);
    TrimOfLegID(paymentID, leg);
    LegIDNotBlank(paymentID, leg);
    LegPairOk(a, b, LegID(paymentID, leg), paymentID, "USD", delta, at, ka, kb);
  }

  // ---------------------------------------------------------------- batches

  /** A deposit into one wallet, with no second leg. */
  function Deposit(tx: string, amount: int): Event {
    Event("acc", 0, PaymentEvent(DepositFromIntent, tx, "p1", "other", "USD", amount, 1))
  }

  lemma DepositReads(tx: string, amount: int)
    requires IsID(tx) && amount > 0
    ensures AccountOf(Deposit(tx, amount)) == "acc"
    ensures Preview("acc", Deposit(tx, amount).data)
         == Ok(Posting(tx, Payment(DepositFromIntent), "p1", "other", "USD", amount, 1))
    ensures !Guarded(Deposit(tx, amount)) && Slot(Deposit(tx, amount)) == ("acc", tx)
  {
    hide Text.Trim, Text.Trimmed, Text.IsUpper, Text.Currency;
    Words();
    Currencies();
  }

  /** A fresh batch of deposits is held up by nothing but its snapshots. */
  lemma DepositsCommit(events: seq<Event>)
    requires events != [] && Distinct(events)
    requires forall e | e in events :: exists tx :: IsID(tx) && e == Deposit(tx, 1)
    ensures AccountsOf(events) == {"acc"}
    ensures Commits(map[], events) <==> !TwoSnapshots(map[], events)
    ensures !Commits(map[], events) ==> Record(map[], events) == Outcome(map[], Err(DuplicateSnapshot))
  {
    hide Deposit, Ledger.AccountOf, Guarded, Distinct, Accounts.IsID, TwoSnapshots, Ledger.Record, Commits, BatchDelta, Postings.Preview,
         Postings.WellFormed;
    forall e | e in events ensures AccountOf(e) == "acc" && UnbookedIn(map[], e) && !Guarded(e) {
      var tx :| IsID(tx) && e == Deposit(tx, 1);
      DepositReads(tx, 1);
    }
    assert events[0] in events;
    UnguardedIsCovered(map[], events);
    FreshBatchExactly(map[], events);
  }

  /** RecordLedgerEvents stores an unbalanced batch: one dollar out of nothing. */
  lemma UnbalancedBatchIsStored()
    ensures Record(map[], [Deposit("tx", 1)]).result == Ok(()) && TotalIn(map[], "USD") == 0
    ensures TotalIn(Record(map[], [Deposit("tx", 1)]).rows, "USD") == 1
  {
    hide Deposit, Ledger.AccountOf, Distinct, Ledger.Record, Commits, Postings.Preview, Postings.WellFormed, Stores.GoodStore,
         TwoSnapshots, OnlyAdds, Keeps, BookedOn;
    var events := [Deposit("tx", 1)];
    assert IsID("tx");
    DepositReads("tx", 1);
    assert Distinct(events) by { OneIsDistinct(Deposit("tx", 1)); }
    DepositsCommit(events);
    SmallBatchNeedsOne(map[], events);
    EmptyIsMirrored();
    RecordEffect(map[], events);
    StepMovesTotal(map[], Batch(events), "USD");
    assert events[..0] == [] && BatchTotal(events[..0], "USD") == 0;
    assert Balances(map[], "USD") == map[];
  }

  lemma OneIsDistinct(e: Event)
    ensures Distinct([e])
  {
  }

  /** The transaction ids a, aa, aaa, ... */
  function Tx(i: nat): string { seq(i + 1, _ => 'a') }

  /** Two hundred deposits into one wallet. */
  function Flood(): seq<Event> { seq(200, i requires 0 <= i < 200 => Deposit(Tx(i), 1)) }

  lemma FloodIsFresh()
    ensures Distinct(Flood()) && forall e | e in Flood() :: exists tx :: IsID(tx) && e == Deposit(tx, 1)
  {
    hide Deposit, Slot;
    var events := Flood();
    forall i | 0 <= i < 200 ensures IsID(Tx(i)) && Slot(events[i]) == ("acc", Tx(i)) && events[i] == Deposit(Tx(i), 1) {
      DepositReads(Tx(i), 1);
    }
    forall i, j | 0 <= i < j < 200 ensures Slot(events[i]) != Slot(events[j]) {
      assert |Tx(i)| != |Tx(j)|;
    }
  }

  lemma {:induction false} CountAll(events: seq<Event>, id: string)
    requires forall e | e in events :: AccountOf(e) == id
    ensures CountFor(events, id) == |events|
  {
    hide Ledger.AccountOf;
    if events != [] { CountAll(events[..|events| - 1], id); }
  }

  /** A valid batch that is refused for its size alone: it would take the wallet past versions 100 and 200 in one save. */
  lemma TwoSnapshotsAreRefused()
    ensures Record(map[], Flood()) == Outcome(map[], Err(DuplicateSnapshot))
  {
    hide Flood, Deposit, Ledger.AccountOf, Distinct, Ledger.Record, Commits, CountFor, Accounts.IsID;
    var events := Flood();
    FloodIsFresh();
    assert |events| == 200 by { FloodSize(); }
    DepositsCommit(events);
    assert forall e | e in events :: AccountOf(e) in AccountsOf(events);
    CountAll(events, "acc");
    assert Milestones(|RowOf(map[], "acc").log|, CountFor(events, "acc")) == 2;
    assert "acc" in AccountsOf(events);
  }

  lemma FloodSize()
    ensures |Flood()| == 200
  {
  }

  // ---------------------------------------------------------------- payments

  const REQUEST := WithdrawalRequested("p1", "", "stripe", "", "acc", 5, 0, "USD", 1)
  const FAILURE := Failed("WITHDRAWAL", "p1", "", "", "acc", 5, 0, "USD", 2)

  lemma RequestBuilds()
    ensures WithdrawalEvents("", REQUEST).Ok?
    ensures FailedEvents("", FAILURE).Ok?
    ensures IsWithdrawal("WITHDRAWAL")
  {
    hide Text.Trim, Text.Trimmed, Text.Upper, Text.Lower, Text.Currency, LegPair, LegID, IsWithdrawal, SpellsWithdrawal, ClearingAccount, ProviderKey;
    Words();
    WithdrawalWord();
    WalletLegs("acc", ClearingAccount(FirstNonEmpty("", ProviderKey("stripe"))), "acc", FirstNonEmpty("", ProviderKey("stripe")), "p1",
               WithdrawalLeg, -5, 1, ReserveWithdrawal, ReceiveWithdrawalHold);
    WalletLegs("acc", ClearingAccount(""), "acc", "", "p1", WithdrawalFailedLeg, 5, 2, ReleaseWithdrawal, WithdrawReleasedHold);
  }

  lemma WithdrawalWord()
    ensures IsWithdrawal("WITHDRAWAL") && !IsWithdrawal("") && !IsWithdrawal("TOP_UP")
    ensures SpellsWithdrawal("WITHDRAWAL") && !SpellsWithdrawal("") && !SpellsWithdrawal("TOP_UP")
  {
    assert Trimmed("WITHDRAWAL") && IsUpper("WITHDRAWAL");
    WithdrawalBySpelling("WITHDRAWAL");
    WithdrawalBySpelling("");
    assert Trimmed("TOP_UP");
    WithdrawalBySpelling("TOP_UP");
  }

  /** A withdrawal held on its provider for want of a clearing key, and its failure, do not cancel. */
  lemma ProviderHeldIsNotUndone()
    ensures SameTerms(OnWithdrawal(REQUEST), OnFailed(FAILURE))
    ensures WithdrawalEvents("", REQUEST).Ok? && FailedEvents("", FAILURE).Ok?
    ensures !NetsToZero("", OnWithdrawal(REQUEST), OnFailed(FAILURE))
  {
    hide WithdrawalEvents, FailedEvents, NetsToZero, Text.Trim, Text.Trimmed, Text.Lower, Text.Currency, IsWithdrawal, SpellsWithdrawal;
    Words();
    RequestBuilds();
    ReversalNetsToZero("", OnWithdrawal(REQUEST), OnFailed(FAILURE), 1, 1);
  }

  /** The failure writes the clearing account of the blank key, and the server does not lock it. */
  lemma BlankKeyIsNotLocked()
    ensures FailedEvents("", FAILURE).Ok?
    ensures !(AccountsOf(FailedEvents("", FAILURE).value) <= LockSet("", OnFailed(FAILURE)))
  {
    hide WithdrawalEvents, FailedEvents, LockSet, Ledger.AccountsOf, Text.Trim, Text.Trimmed, IsWithdrawal, SpellsWithdrawal;
    Words();
    WithdrawalWord();
    RequestBuilds();
    LockCoverage("", OnFailed(FAILURE), 1);
  }

  const PAYOUT := Succeeded("WITHDRAWAL", "p1", "", "key", "acc", 5, 0, "USD", 1)
  const REFUND := Reversed(Refund, "p1", "", "key", "acc", 5, 0, "USD", 2)

  lemma BookingOf(paymentID: string, transactionID: string)
    requires Resolve(paymentID, transactionID) != ""
    ensures SucceededBooking(paymentID, transactionID, "key", "acc", "USD", 5)
         == Ok(Booking(Resolve(paymentID, transactionID), ClearingAccount("key"), "acc", "USD", 5))
  {
    hide Text.Trim, Text.Trimmed, Text.Lower, Text.Currency, Resolve, ClearingAccount;
    Words();
    Currencies();
    KeyIsLower();
    ClearingIsLong("key");
  }

  lemma KeyIsLower()
    ensures Lower("key") == "key"
  {
    assert IsLower("key");
  }

  lemma RefundBuilds()
    ensures ReversedEvents("", REFUND, 1).Ok? && SucceededEvents("", PAYOUT, 1) == Ok([])
  {
    hide Text.Trim, Text.Trimmed, Text.Upper, Text.Lower, Text.Currency, LegPair, LegID, ClearingAccount, SucceededBooking, IsWithdrawal, SpellsWithdrawal;
    Words();
    WithdrawalWord();
    assert Resolve("p1", "") == "p1";
    BookingOf("p1", "");
    WalletLegs("acc", ClearingAccount("key"), "acc", "key", "p1", RefundedLeg, -5, 2, WithdrawFromRefund, DepositFromRefund);
  }

  /** The refund of a withdrawal takes money back that its success never moved. */
  lemma RefundOfWithdrawalIsNotUndone()
    ensures SameTerms(OnSucceeded(PAYOUT), OnReversed(REFUND))
    ensures SucceededEvents("", PAYOUT, 1).Ok? && ReversedEvents("", REFUND, 1).Ok?
    ensures !NetsToZero("", OnSucceeded(PAYOUT), OnReversed(REFUND))
  {
    hide SucceededEvents, ReversedEvents, NetsToZero, Text.Trim, Text.Trimmed, Text.Lower, Text.Currency, IsWithdrawal, SpellsWithdrawal;
    WithdrawalWord();
    RefundBuilds();
    ReversalNetsToZero("", OnSucceeded(PAYOUT), OnReversed(REFUND), 1, 1);
  }

  /** A success without a payment id, and the id of the message it comes in on the Kafka path. */
  const NAMELESS := OnSucceeded(Succeeded("", "", "t1", "key", "acc", 5, 0, "USD", 1))
  const MESSAGE := Kafka("m1")

  lemma NamelessBuilds()
    ensures PathID(Grpc, NAMELESS) == "t1" && PathID(MESSAGE, NAMELESS) == "m1"
    ensures Delivered(Grpc, "", NAMELESS, 1).Ok? && Delivered(MESSAGE, "", NAMELESS, 1).Ok?
    ensures BooksLegs(NAMELESS) && PayloadMoves("", NAMELESS, "acc", "USD") == 5
  {
    hide Text.Trim, Text.Trimmed, Text.Upper, Text.Lower, Text.Currency, LegPair, LegID, ClearingAccount, SucceededBooking, IsWithdrawal, SpellsWithdrawal;
    Words();
    Currencies();
    WithdrawalWord();
    ClearingIsLong("key");
    assert Resolve("", "t1") == "t1" && PaymentConsumer.ResolveID("m1", "", "t1") == "m1";
    assert Resolve("t1", "t1") == "t1" && Resolve("m1", "t1") == "m1";
    BookingOf("t1", "t1");
    BookingOf("m1", "t1");
    WalletLegs(ClearingAccount("key"), "acc", "acc", "key", "t1", SucceededLeg, -5, 1, WithdrawFromIntent, DepositFromIntent);
    WalletLegs(ClearingAccount("key"), "acc", "acc", "key", "m1", SucceededLeg, -5, 1, WithdrawFromIntent, DepositFromIntent);
  }

  lemma EmptyStoreBooksNothing(path: Path, feeAccount: string, p: Payload)
    requires Delivered(path, feeAccount, p, 1).Ok?
    ensures NothingBooked(map[], Delivered(path, feeAccount, p, 1).value)
  {
    hide Delivered, Ledger.AccountOf, Postings.Preview, Postings.WellFormed;
    PaymentsAreDoubleEntry(path, feeAccount, p, 1);
    var events := Delivered(path, feeAccount, p, 1).value;
    forall e | e in events ensures UnbookedIn(map[], e) { PairedHasMirror(events, e); }
  }

  /** Delivered once over each path, it pays the wallet twice. */
  lemma NamelessIsPaidTwice()
    ensures Delivered(Grpc, "", NAMELESS, 1).Ok? && Delivered(MESSAGE, "", NAMELESS, 1).Ok?
    ensures var one := Record(map[], Delivered(Grpc, "", NAMELESS, 1).value);
            var two := Record(one.rows, Delivered(MESSAGE, "", NAMELESS, 1).value);
            BalanceIn(two.rows, "acc", "USD") == 10
  {
    hide Delivered, Ledger.Record, BooksLegs, PathID, PayloadMoves, NothingBooked, Stores.GoodStore;
    NamelessBuilds();
    EmptyIsMirrored();
    EmptyStoreBooksNothing(Grpc, "", NAMELESS);
    EmptyStoreBooksNothing(MESSAGE, "", NAMELESS);
    MovesOncePerID(map[], "", NAMELESS, Grpc, 1, MESSAGE, 1);
    NoRowNoBalance(map[], "acc", "USD");
  }

  /** A success, its refund and its chargeback, all for five dollars and without a fee. */
  const SUCCESS := OnSucceeded(Succeeded("", "p1", "", "key", "acc", 5, 0, "USD", 1))
  const CHARGEBACK := Reversed(Chargeback, "p1", "", "key", "acc", 5, 0, "USD", 3)

  lemma SuccessBuilds()
    ensures EventsOfPayload("", SUCCESS, 1).Ok? && EventsOfPayload("", OnReversed(REFUND), 1).Ok?
    ensures EventsOfPayload("", OnReversed(CHARGEBACK), 1).Ok?
    ensures PayloadMoves("", SUCCESS, "acc", "USD") == 5
    ensures SameTerms(SUCCESS, OnReversed(REFUND)) && Undoable(SUCCESS, OnReversed(REFUND))
    ensures SameReversals(OnReversed(REFUND), OnReversed(CHARGEBACK))
  {
    hide Text.Trim, Text.Trimmed, Text.Upper, Text.Lower, Text.Currency, LegPair, LegID, ClearingAccount, SucceededBooking, IsWithdrawal, SpellsWithdrawal;
    Words();
    Currencies();
    WithdrawalWord();
    ClearingIsLong("key");
    assert Resolve("p1", "") == "p1";
    BookingOf("p1", "");
    RefundBuilds();
    WalletLegs(ClearingAccount("key"), "acc", "acc", "key", "p1", SucceededLeg, -5, 1, WithdrawFromIntent, DepositFromIntent);
    WalletLegs("acc", ClearingAccount("key"), "acc", "key", "p1", ChargebackLeg, -5, 3, WithdrawFromChargeback, DepositFromChargeback);
  }

  /** Paid, refunded and charged back, the wallet is five dollars down. */
  lemma RefundedAndChargedBack()
    ensures EventsOfPayload("", SUCCESS, 1).Ok? && EventsOfPayload("", OnReversed(REFUND), 1).Ok?
    ensures EventsOfPayload("", OnReversed(CHARGEBACK), 1).Ok?
    ensures var one := Record(map[], EventsOfPayload("", SUCCESS, 1).value);
            var two := Record(one.rows, EventsOfPayload("", OnReversed(REFUND), 1).value);
            var three := Record(two.rows, EventsOfPayload("", OnReversed(CHARGEBACK), 1).value);
            three.result == Ok(()) && BalanceIn(three.rows, "acc", "USD") == -5
  {
    hide EventsOfPayload, Ledger.Record, PayloadMoves, NothingBooked, Stores.GoodStore, SameTerms, Undoable, SameReversals;
    SuccessBuilds();
    EmptyIsMirrored();
    assert forall x :: Delivered(Grpc, "", x, 1) == EventsOfPayload("", x, 1);
    EmptyStoreBooksNothing(Grpc, "", SUCCESS);
    EmptyStoreBooksNothing(Grpc, "", OnReversed(REFUND));
    EmptyStoreBooksNothing(Grpc, "", OnReversed(CHARGEBACK));
    RefundAndChargebackAtOnce(map[], "", SUCCESS, OnReversed(REFUND), OnReversed(CHARGEBACK), 1);
    NoRowNoBalance(map[], "acc", "USD");
  }

  /** The success of a top-up, with the workflow every top-up carries. */
  const TOP_UP := OnSucceeded(Succeeded("TOP_UP", "p1", "", "key", "acc", 5, 0, "USD", 1))

  lemma TopUpBuilds()
    ensures EventsOfPayload("", TOP_UP, 1).Ok? && BooksLegs(TOP_UP) && PayloadMoves("", TOP_UP, "acc", "USD") == 5
  {
    hide Text.Trim, Text.Trimmed, Text.Upper, Text.Lower, Text.Currency, LegPair, LegID, ClearingAccount, SucceededBooking, IsWithdrawal, SpellsWithdrawal;
    Words();
    Currencies();
    WithdrawalWord();
    ClearingIsLong("key");
    assert Resolve("p1", "") == "p1";
    BookingOf("p1", "");
    WalletLegs(ClearingAccount("key"), "acc", "acc", "key", "p1", SucceededLeg, -5, 1, WithdrawFromIntent, DepositFromIntent);
  }

  /** It credits the wallet. */
  lemma TopUpCredits()
    ensures EventsOfPayload("", TOP_UP, 1).Ok?
    ensures var out := Record(map[], EventsOfPayload("", TOP_UP, 1).value);
            out.result == Ok(()) && GoodStore(out.rows) && BalanceIn(out.rows, "acc", "USD") == 5
  {
    hide EventsOfPayload, Ledger.Record, PayloadMoves, NothingBooked, Stores.GoodStore, BooksLegs;
    TopUpBuilds();
    EmptyIsMirrored();
    assert Delivered(Grpc, "", TOP_UP, 1) == EventsOfPayload("", TOP_UP, 1);
    EmptyStoreBooksNothing(Grpc, "", TOP_UP);
    FreshPayload(map[], "", TOP_UP, 1);
    NoRowNoBalance(map[], "acc", "USD");
  }

  /** A transfer that spells its currency in small letters. */
  const SMALL_LETTERS := TransferCommand("t9", "acc", "b", "usd", 5, 0, "")

  lemma SmallLettersRead()
    ensures Trim("usd") == "usd" && Currency("usd") == "USD" && Trim("t9") == "t9"
  {
    assert Trimmed("usd") && Trimmed("t9");
    Words();
    Currencies();
    hide Text.Trim, Text.Trimmed;
    assert SameText("usd", "USD");
    CurrencyExactly("usd", "USD");
    assert Trim("USD") == "USD";
  }

  /** Nothing but payment transaction ids is in the store after the top-up. */
  lemma OnlyPaymentIDs(id: string, tx: string)
    requires EventsOfPayload("", TOP_UP, 1).Ok? && GoodStore(Record(map[], EventsOfPayload("", TOP_UP, 1).value).rows)
    requires |tx| < 8
    ensures FreeID(Record(map[], EventsOfPayload("", TOP_UP, 1).value).rows, id, tx)
  {
    hide EventsOfPayload, Ledger.Record, Stores.GoodStore, Stores.StateOf, Keeps, BookedOn, Slot, Postings.Preview, Commits, Ledger.AccountOf,
         IDOf, KindsOf, LegID;
    var events := EventsOfPayload("", TOP_UP, 1).value;
    var rows := Record(map[], events).rows;
    EmptyIsMirrored();
    RecordEffect(map[], events);
    EmptyHasNothing(id);
    if tx in StateOf(RowOf(rows, id)).posted {
      PostedUnderOwnID(rows, id, tx);
      assert OnlyAdds(events, id, StateOf(RowOf(map[], id)), StateOf(RowOf(rows, id)));
      var e :| e in events && AccountOf(e) == id && Preview(id, e.data) == Ok(StateOf(RowOf(rows, id)).posted[tx]);
      SlotsOfPayload("", TOP_UP, 1, e);
      var k :| k in KindsOf(TOP_UP) && Slot(e).1 == LegID(IDOf(TOP_UP), k);
      SlotReads(e, id, tx, StateOf(RowOf(rows, id)).posted[tx]);
      LegIDIsLong(IDOf(TOP_UP), k);
    }
  }

  lemma EmptyHasNothing(id: string)
    ensures StateOf(RowOf(map[], id)).posted == map[]
  {
  }

  lemma SlotReads(e: Event, id: string, tx: string, p: Posting)
    requires AccountOf(e) == id && Preview(id, e.data) == Ok(p) && p.transactionID == tx
    ensures Slot(e).1 == tx
  {
    hide Ledger.AccountOf, Postings.Preview, Postings.WellFormed;
  }

  lemma LegIDIsLong(id: string, k: LegKind)
    ensures |LegID(id, k)| >= 8
  {
    hide Suffix;
  }

  /** After the top-up of 5 USD, a transfer of 5 usd moves them. */
  lemma SmallLettersMove()
    ensures EventsOfPayload("", TOP_UP, 1).Ok?
    ensures var rows := Record(map[], EventsOfPayload("", TOP_UP, 1).value).rows;
            var out := Transfer(rows, SMALL_LETTERS, 1);
            out.result == Ok(()) && BalanceIn(out.rows, "acc", "USD") == 0
            && BalanceIn(out.rows, "b", "USD") == BalanceIn(rows, "b", "USD") + 5
  {
    hide EventsOfPayload, Ledger.Record, Stores.GoodStore, Text.Trim, Text.Trimmed, Text.Currency, Ledger.Transfer, BalanceIn, FreeID, AllMade;
    Words();
    SmallLettersRead();
    TopUpCredits();
    var rows := Record(map[], EventsOfPayload("", TOP_UP, 1).value).rows;
    OnlyPaymentIDs("acc", "t9");
    OnlyPaymentIDs("b", "t9");
    assert ValidTransfer(SMALL_LETTERS) && NothingMade(rows, SMALL_LETTERS);
    TransferMovesExactly(rows, SMALL_LETTERS, 1);
  }

  /** A success with a fee. */
  const WITH_FEE := OnSucceeded(Succeeded("", "p1", "", "key", "acc", 5, 1, "USD", 1))

  lemma WithFeeBuilds(feeAccount: string)
    requires Trim(feeAccount) == feeAccount && 0 < |feeAccount| < 16
    ensures EventsOfPayload(feeAccount, WITH_FEE, 1).Ok? && BooksLegs(WITH_FEE) && BooksFee(feeAccount, WITH_FEE)
  {
    hide Text.Trim, Text.Trimmed, EventsOfPayload, PaymentTable.Accepted, SpellsWithdrawal;
    Words();
    WithdrawalWord();
    WithFeeIsAccepted(feeAccount);
    PaymentTable.AcceptedExactly(feeAccount, WITH_FEE, 1);
  }

  lemma WithFeeIsAccepted(feeAccount: string)
    requires Trim(feeAccount) == feeAccount && 0 < |feeAccount| < 16
    ensures PaymentTable.Accepted(feeAccount, WITH_FEE, 1)
  {
    hide Text.Trim, Text.Trimmed, Text.Lower, SpellsWithdrawal, EventsOfPayload;
    Words();
    assert |PaymentTable.Clearing("key")| >= 16 by { ClearingIsLong("key"); PaymentTable.ClearingPerKey("key", "key"); }
    assert Trim("USD") == "USD" by { USDIsTrimmed(); }
  }

  lemma USDIsTrimmed()
    ensures Trim("USD") == "USD"
  {
    hide Text.Trim, Text.Trimmed;
    Words();
  }

  /** Booked while the fee account was "b", it is refused when it comes again after the fee account has become "other". */
  lemma FeeAccountChanged()
    ensures EventsOfPayload("b", WITH_FEE, 1).Ok? && EventsOfPayload("other", WITH_FEE, 1).Ok?
    ensures var one := Record(map[], EventsOfPayload("b", WITH_FEE, 1).value);
            one.result == Ok(())
            && Record(one.rows, EventsOfPayload("other", WITH_FEE, 1).value).result.Err?
            && Record(one.rows, EventsOfPayload("other", WITH_FEE, 1).value).rows == one.rows
  {
    hide EventsOfPayload, Ledger.Record, PayloadMoves, NothingBooked, Stores.GoodStore, BooksFee, BooksLegs, Text.Trim, Text.Trimmed;
    Words();
    WithFeeBuilds("b");
    WithFeeBuilds("other");
    EmptyIsMirrored();
    assert Delivered(Grpc, "b", WITH_FEE, 1) == EventsOfPayload("b", WITH_FEE, 1);
    EmptyStoreBooksNothing(Grpc, "b", WITH_FEE);
    FreshPayload(map[], "b", WITH_FEE, 1);
    assert Run(Record(map[], EventsOfPayload("b", WITH_FEE, 1).value).rows, [])
        == Record(map[], EventsOfPayload("b", WITH_FEE, 1).value).rows;
    FeeChangeExactly(map[], WITH_FEE, "b", 1, [], "other", 1);
  }

  // ---------------------------------------------------------------- transfers

  /** A transfer with a fee, while the fee account is configured with a space in front. */
  const PADDED_FEE := TransferCommand("t1", "a", "b", "USD", 5, 1, " b2")

  /** The fee account is written, and the id with the space is what gets locked. */
  lemma PaddedFeeAccountIsNotLocked()
    ensures PlanTransfer(PADDED_FEE).Ok?
    ensures !(AccountsOf(PlanEvents(PlanTransfer(PADDED_FEE).value, 1)) <= ToSet(TransferKeys(PADDED_FEE)))
  {
    hide Ledger.AccountsOf, ToSet, Text.Trim, Text.Trimmed, Text.Currency, Text.IsUpper;
    Words();
    Currencies();
    SpacedWord();
    IncomingTransferCoverage(PADDED_FEE, 1);
  }

  lemma SpacedWord()
    ensures Trim(" b2") == "b2" && !Trimmed(" b2") && Trimmed("a")
  {
    assert " b2"[1..] == "b2";
  }
}
