/**
 Ledger transactions and transfer bookings (core/modules/ledger/domain/entity/ledger.go and
 transfer_booking.go). The service wraps every failure of these constructors as one validation error.
 */
module Entities {
  import opened Text
  import opened Postings

  datatype EntryInput = EntryInput(accountID: string, currency: string, amount: int)
  datatype Entry = Entry(transactionID: string, accountID: string, currency: string, amount: int, createdAt: Time)
  datatype LedgerTransaction = LedgerTransaction(transactionID: string, currency: string, createdAt: Time, entries: seq<Entry>)

  /** An entry with an account and an amount, in the (non-blank) currency c. */
  predicate EntryIn(e: EntryInput, c: string) {
    Trim(e.accountID) != "" && Currency(e.currency) == c && c != "" && e.amount != 0
  }

  function Total(entries: seq<EntryInput>): int {
    if entries == [] then 0 else Total(entries[..|entries| - 1]) + entries[|entries| - 1].amount
  }

  /** A transaction's entries: at least two, each valid, one currency, and summing to zero. */
  predicate Balanced(entries: seq<EntryInput>) {
    && |entries| >= 2
    && (forall i | 0 <= i < |entries| :: EntryIn(entries[i], Currency(entries[0].currency)))
    && Total(entries) == 0
  }

  function EntryOf(tx: string, e: EntryInput, now: Time): Entry {
    Entry(tx, Trim(e.accountID), Currency(e.currency), e.amount, now)
  }

  /** NewLedgerTransaction: succeeds exactly on a named, balanced set of entries, and keeps them in order */
  method NewLedgerTransaction(transactionID: string, entries: seq<EntryInput>, now: Time)
    returns (r: Result<LedgerTransaction>)
    ensures r.Ok? <==> Trim(transactionID) != "" && Balanced(entries)
    ensures r.Err? ==> r.error == Validation
    ensures r.Ok? ==>
              && r.value.transactionID == Trim(transactionID) && r.value.createdAt == now
              && |r.value.entries| == |entries|
              && (forall i | 0 <= i < |entries| :: r.value.entries[i] == EntryOf(Trim(transactionID), entries[i], now))
              && r.value.currency == Currency(entries[0].currency)
  {
    hide Text.Trim, Text.Currency, Text.Trimmed, Text.IsUpper;
    var tx := Trim(transactionID);
    if tx == "" || |entries| < 2 {
      return Err(Validation);
    }
    var sum, currency := 0, "";
    var made: seq<Entry> := [];
    for i := 0 to |entries|
      invariant sum == Total(entries[..i])
      invariant |made| == i && forall j | 0 <= j < i :: made[j] == EntryOf(tx, entries[j], now)
      invariant forall j | 0 <= j < i :: EntryIn(entries[j], currency)
      invariant i > 0 ==> currency == Currency(entries[0].currency) && currency != ""
      invariant i == 0 ==> currency == ""
    {
      assert entries[..i + 1][..i] == entries[..i];
      var e := entries[i];
      if Trim(e.accountID) == "" || Currency(e.currency) == "" || e.amount == 0 {
        assert !EntryIn(entries[i], Currency(entries[0].currency));
        return Err(Validation);
      }
      if currency == "" {
        currency := Currency(e.currency);
      } else if currency != Currency(e.currency) {
        assert !EntryIn(entries[i], Currency(entries[0].currency));
        return Err(Validation);
      }
      sum := sum + e.amount;
      made := made + [EntryOf(tx, e, now)];
    }
    assert entries[..|entries|] == entries;
    if sum != 0 {
      return Err(Validation);
    }
    r := Ok(LedgerTransaction(tx, currency, now, made));
  }

  datatype TransferBooking = TransferBooking(from: string, to: string, currency: string, amount: int) {
    function LedgerEntries(): (entries: seq<EntryInput>) {
      [EntryInput(from, currency, -amount), EntryInput(to, currency, amount)]
    }
  }

  /** NewTransferBooking */
  function NewTransferBooking(from: string, to: string, currency: string, amount: int): (r: Result<TransferBooking>)
    ensures r.Ok? ==> Balanced(r.value.LedgerEntries())
    ensures r.Err? ==> r.error == Validation
  {
    if Trim(from) == "" || Trim(to) == "" || Trim(from) == Trim(to) || Currency(currency) == "" || amount <= 0
    then Err(Validation)
    else
      assert Total([EntryInput(Trim(from), Currency(currency), -amount)]) == -amount by {
        assert Total([]) == 0;
      }
      var b := TransferBooking(Trim(from), Trim(to), Currency(currency), amount);
      assert b.LedgerEntries()[..1] == [EntryInput(Trim(from), Currency(currency), -amount)];
      Ok(b)
  }
}
