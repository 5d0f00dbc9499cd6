/** The transfer command in its own terms: what it accepts, what it moves, and when it is a repetition. */
module TransferCommands {
  import opened Text
  import opened Postings
  import opened Accounts
  import opened Entities
  import opened Stores
  import opened Ledger
  import opened Batches
  import opened Transfers
  import opened Runs

  /** The commands that are not refused for their form. */
  predicate ValidTransfer(cmd: TransferCommand) {
    && Trim(cmd.transactionID) != "" && Trim(cmd.from) != "" && Trim(cmd.to) != "" && Trim(cmd.from) != Trim(cmd.to)
    && Trim(cmd.currency) != "" && cmd.amount > 0 && cmd.feeAmount >= 0
    && (cmd.feeAmount > 0 ==> Trim(cmd.feeAccount) != "" && Trim(cmd.feeAccount) != Trim(cmd.from))
  }

  /** By how much the command moves account id in currency c. */
  function CommandMoves(cmd: TransferCommand, id: string, c: string): int {
    if c != Currency(cmd.currency) then 0 else
      (if id == Trim(cmd.from) then -(cmd.amount + cmd.feeAmount) else 0)
      + (if id == Trim(cmd.to) then cmd.amount else 0)
      + (if cmd.feeAmount > 0 && id == Trim(cmd.feeAccount) then cmd.feeAmount else 0)
  }

  /** The account has nothing under the transaction id. */
  predicate FreeID(rows: Rows, id: string, tx: string) { tx !in StateOf(RowOf(rows, id)).posted }

  /** No side of the command is known yet. */
  predicate NothingMade(rows: Rows, cmd: TransferCommand) {
    var tx := Trim(cmd.transactionID);
    && FreeID(rows, Trim(cmd.from), tx) && FreeID(rows, Trim(cmd.to), tx)
    && (cmd.feeAmount > 0 ==> FreeID(rows, Trim(cmd.from), tx + ":fee") && FreeID(rows, Trim(cmd.feeAccount), tx + ":fee"))
  }

  /** The account has a transfer posting under the id, against `other`, of this amount. */
  predicate HasLeg(rows: Rows, id: string, tx: string, other: string, c: string, delta: int) {
    var posted := StateOf(RowOf(rows, id)).posted;
    && tx in posted
    && var p := posted[tx];
       && p.transactionID == tx && p.referenceType == InternalTransfer && p.referenceID == tx
       && p.counterparty == other && p.currency == c && p.delta == delta
  }

  /** Every side of the command is there. */
  predicate AllMade(rows: Rows, cmd: TransferCommand) {
    var tx, from, to, fee, c := Trim(cmd.transactionID), Trim(cmd.from), Trim(cmd.to), Trim(cmd.feeAccount), Currency(cmd.currency);
    && HasLeg(rows, from, tx, to, c, -cmd.amount) && HasLeg(rows, to, tx, from, c, cmd.amount)
    && (cmd.feeAmount > 0 ==>
          HasLeg(rows, from, tx + ":fee", fee, c, -cmd.feeAmount) && HasLeg(rows, fee, tx + ":fee", from, c, cmd.feeAmount))
  }

  /** The plan of a command has the command's fields. */
  lemma PlanOfCommand(cmd: TransferCommand)
    ensures PlanTransfer(cmd) ==
            if !ValidTransfer(cmd) then Err(Validation)
            else
              var from, c := Trim(cmd.from), Currency(cmd.currency);
              Ok(Plan(Trim(cmd.transactionID), TransferBooking(from, Trim(cmd.to), c, cmd.amount),
                      if cmd.feeAmount == 0 then NoFee else Fee(TransferBooking(from, Trim(cmd.feeAccount), c, cmd.feeAmount))))
    ensures ValidTransfer(cmd) ==> FeeID(Trim(cmd.transactionID)) == Trim(cmd.transactionID) + ":fee"
  {
    hide Text.Trim, Text.Trimmed, Text.IsUpper;
    CurrencyBlank(cmd.currency);
  }

  /** What an event of a booking means for the store. */
  lemma LegOfBooking(rows: Rows, tx: string, b: TransferBooking, now: Time)
    requires IsID(tx) && GoodBooking(b) && now != ZERO_TIME
    ensures var e := BookingEvents(tx, b, now);
            && |e| == 2 && AccountOf(e[0]) == b.from && AccountOf(e[1]) == b.to
            && Preview(b.from, e[0].data).Ok? && Preview(b.to, e[1].data).Ok?
            && (BookedIn(rows, e[0]) <==> HasLeg(rows, b.from, tx, b.to, b.currency, -b.amount))
            && (BookedIn(rows, e[1]) <==> HasLeg(rows, b.to, tx, b.from, b.currency, b.amount))
            && Slotted(e[0]) == tx && Slotted(e[1]) == tx
  {
    hide Accounts.IsID, GoodBooking, Postings.Preview, Ledger.AccountOf, Stores.StateOf, Stores.RowOf, Postings.WellFormed;
    BookingPreviews(tx, b, now);
  }

  /** The transaction id an event is booked under. */
  function Slotted(e: Event): string {
    match Preview(AccountOf(e), e.data) case Ok(p) => p.transactionID case Err(_) => ""
  }

  /** One booking of a plan against the store. */
  lemma BookingAgainstStore(rows: Rows, events: seq<Event>, tx: string, b: TransferBooking, now: Time)
    requires IsID(tx) && GoodBooking(b) && now != ZERO_TIME
    requires forall e | e in BookingEvents(tx, b, now) :: e in events
    ensures (forall e | e in BookingEvents(tx, b, now) :: Unbooked(LoadAll(rows, AccountsOf(events)), e))
       <==> FreeID(rows, b.from, tx) && FreeID(rows, b.to, tx)
    ensures (forall e | e in BookingEvents(tx, b, now) :: BookedIn(rows, e))
       <==> HasLeg(rows, b.from, tx, b.to, b.currency, -b.amount) && HasLeg(rows, b.to, tx, b.from, b.currency, b.amount)
  {
    hide Accounts.IsID, GoodBooking, Postings.Preview, Postings.WellFormed, Ledger.AccountOf, Stores.StateOf, Stores.RowOf,
         Ledger.AccountsOf, Ledger.BookingEvents, HasLeg, Ledger.LoadAll, BookedIn, FreeID, Unbooked;
    var a := BookingEvents(tx, b, now);
    LegOfBooking(rows, tx, b, now);
    assert forall e :: e in a <==> e == a[0] || e == a[1];
    UnbookedIsFree(rows, events, a[0]);
    UnbookedIsFree(rows, events, a[1]);
  }

  /** None of the events of a plan is booked exactly when nothing of the command is; and likewise for all. */
  lemma PlanAgainstStore(rows: Rows, cmd: TransferCommand, now: Time)
    requires ValidTransfer(cmd) && now != ZERO_TIME
    ensures PlanTransfer(cmd).Ok? && var plan := PlanTransfer(cmd).value;
            && (NoneBooked(PlanLives(rows, plan, now), PlanEvents(plan, now)) <==> NothingMade(rows, cmd))
            && ((forall e | e in PlanEvents(plan, now) :: BookedIn(rows, e)) <==> AllMade(rows, cmd))
            && GoodPlan(plan)
  {
    hide Text.Trim, Text.Trimmed, Text.Currency, Accounts.IsID, GoodBooking, Stores.StateOf, Stores.RowOf, Ledger.AccountsOf,
         Ledger.BookingEvents, HasLeg, Ledger.LoadAll, BookedIn, FreeID, Unbooked;
    PlanOfCommand(cmd);
    PlanIsGood(cmd);
    var plan := PlanTransfer(cmd).value;
    var tx, events := plan.transactionID, PlanEvents(plan, now);
    var a := BookingEvents(tx, plan.booking, now);
    if plan.fee.Fee? {
      var g := BookingEvents(FeeID(tx), plan.fee.booking, now);
      assert forall e :: e in events <==> e in a || e in g by { assert events == a + g; }
      BookingAgainstStore(rows, events, FeeID(tx), plan.fee.booking, now);
    } else {
      assert events == a;
    }
    BookingAgainstStore(rows, events, tx, plan.booking, now);
  }

  lemma UnbookedIsFree(rows: Rows, events: seq<Event>, e: Event)
    requires e in events && Preview(AccountOf(e), e.data).Ok?
    ensures Unbooked(LoadAll(rows, AccountsOf(events)), e) <==> FreeID(rows, AccountOf(e), Slotted(e))
  {
    hide Ledger.AccountOf, Postings.Preview, Postings.WellFormed, Stores.StateOf, Stores.RowOf;
    LoadedLives(rows, AccountsOf(events));
    assert AccountOf(e) in AccountsOf(events);
  }

  lemma PreviewIsNotValidation(id: string, data: EventData)
    ensures Preview(id, data) != Err(Validation)
  {
    hide Text.Trim, Text.Trimmed, Text.Currency, Text.IsUpper, Postings.WellFormed, Postings.Direction;
  }

  lemma {:induction false} MatchedIsNotValidation(live: Lives, events: seq<Event>)
    requires AccountsOf(events) <= live.Keys
    ensures Matched(live, events) != Err(Validation)
  {
    hide Ledger.AccountOf, Ledger.AccountsOf, Postings.Preview, Postings.WellFormed, Postings.Same;
    if events != [] {
      AccountsOfStep(events);
      MatchedIsNotValidation(live, events[..|events| - 1]);
      PreviewIsNotValidation(AccountOf(events[|events| - 1]), events[|events| - 1].data);
    }
  }

  /**
   The transfer command, from its fields to the balances. It is refused as invalid exactly for its form. If none of its sides
   is known, it succeeds exactly when the sender holds amount and fee, and then the sender loses both, the receiver
   gains the amount, the fee account the fee, and nothing else moves. If some side is known it changes nothing, and
   succeeds exactly when every side is there as the command says.
   */
  lemma TransferMovesExactly(rows: Rows, cmd: TransferCommand, now: Time)
    requires GoodStore(rows) && now != ZERO_TIME
    ensures var out := Transfer(rows, cmd, now);
            && (out.result == Err(Validation) <==> !ValidTransfer(cmd))
            && if !ValidTransfer(cmd) then out.rows == rows
               else if !NothingMade(rows, cmd) then out.rows == rows && (out.result.Ok? <==> AllMade(rows, cmd))
               else if BalanceIn(rows, Trim(cmd.from), Currency(cmd.currency)) < cmd.amount + cmd.feeAmount
               then out == Outcome(rows, Err(InsufficientFunds))
               else out.result == Ok(()) && AllMade(out.rows, cmd)
                    && forall id, c :: BalanceIn(out.rows, id, c) == BalanceIn(rows, id, c) + CommandMoves(cmd, id, c)
  {
    hide Text.Trim, Text.Trimmed, Text.Currency, GoodPlan, Stores.GoodStore, Ledger.PlanTransfer, Ledger.TransferPlan, NothingMade, AllMade,
         NoneBooked, Ledger.PlanEvents, PlanLives, BalanceIn, BookedIn, Ledger.Record, Ledger.FeeID;
    PlanOfCommand(cmd);
    if ValidTransfer(cmd) {
      PlanMovesExactly(rows, cmd, now);
      PlanAgainstStore(rows, cmd, now);
      var plan := PlanTransfer(cmd).value;
      if NothingMade(rows, cmd) {
        if Transfer(rows, cmd, now).result.Ok? { AllMadeAfter(rows, cmd, now); }
      } else {
        TransferIsBatch(rows, cmd, now);
        KnownPlan(rows, plan, now);
      }
    }
  }

  /** A plan of which something is known succeeds exactly when all of it is, and is never refused as invalid. */
  lemma KnownPlan(rows: Rows, plan: Plan, now: Time)
    requires GoodPlan(plan) && now != ZERO_TIME && !NoneBooked(PlanLives(rows, plan, now), PlanEvents(plan, now))
    ensures TransferPlan(rows, plan, now).result.Ok? <==> forall e | e in PlanEvents(plan, now) :: BookedIn(rows, e)
    ensures TransferPlan(rows, plan, now).result != Err(Validation)
  {
    hide Ledger.AccountsOf, Ledger.AccountOf, Ledger.BookAll, Ledger.Matched, GoodPlan, NoneBooked, Ledger.LoadAll, Ledger.PlanEvents,
         Stores.StateOf, Stores.RowOf, BookedOn;
    var events, live := PlanEvents(plan, now), PlanLives(rows, plan, now);
    PlanAccounts(plan, now);
    PlanHasEvents(plan, now);
    LoadedLives(rows, AccountsOf(events));
    MatchedMeans(live, events);
    MatchedIsNotValidation(live, events);
    forall e | e in events ensures Booked(live, e) <==> BookedIn(rows, e) { BookedLoaded(rows, events, e); }
  }

  lemma BookedLoaded(rows: Rows, events: seq<Event>, e: Event)
    requires e in events
    ensures Booked(LoadAll(rows, AccountsOf(events)), e) <==> BookedIn(rows, e)
  {
    hide Ledger.AccountOf, Stores.StateOf, BookedOn;
    LoadedLives(rows, AccountsOf(events));
    assert AccountOf(e) in AccountsOf(events);
  }

  lemma AllMadeAfter(rows: Rows, cmd: TransferCommand, now: Time)
    requires GoodStore(rows) && now != ZERO_TIME && ValidTransfer(cmd) && Transfer(rows, cmd, now).result.Ok?
    ensures AllMade(Transfer(rows, cmd, now).rows, cmd)
  {
    hide Text.Trim, Text.Trimmed, Text.Currency, Stores.GoodStore, Ledger.PlanTransfer, Ledger.TransferPlan, AllMade, NothingMade,
         NoneBooked, Ledger.PlanEvents, PlanLives, BookedIn, Ledger.Record, ValidTransfer, GoodPlan;
    PlanAgainstStore(rows, cmd, now);
    TransferIsBatch(rows, cmd, now);
    SuccessBooks(rows, PlanEvents(PlanTransfer(cmd).value, now));
    PlanAgainstStore(Transfer(rows, cmd, now).rows, cmd, now);
  }

  /** The case in which a command writes its currency, and white space around it, make no difference. */
  lemma CurrencyInAnyCase(rows: Rows, cmd: TransferCommand, currency: string, now: Time)
    requires SameText(Trim(cmd.currency), Trim(currency))
    ensures Transfer(rows, cmd, now) == Transfer(rows, cmd.(currency := currency), now)
  {
    hide Text.Trim, Text.Trimmed, Text.Currency, Ledger.TransferPlan, SameText, Ledger.PlanTransfer;
    CurrencyExactly(cmd.currency, currency);
    PlanOfCommand(cmd);
    PlanOfCommand(cmd.(currency := currency));
    CurrencyBlank(cmd.currency);
    CurrencyBlank(currency);
  }
}
