/** The fee policy of core/shared/finance/stripe_fee.go, in the 64-bit arithmetic it is computed in. */
module Fees {

  const MAX := 0x7FFF_FFFF_FFFF_FFFF
  const MIN := -0x8000_0000_0000_0000
  const RANGE := 0x1_0000_0000_0000_0000

  predicate IsInt64(x: int) { MIN <= x <= MAX }

  /** What an int64 operation leaves of a result that does not fit. */
  function Wrap(x: int): (w: int)
    ensures IsInt64(w)
    ensures IsInt64(x) ==> w == x
    ensures exists k :: w == x - k * RANGE
  {
    var w := (x - MIN) % RANGE + MIN;
    assert w == x - ((x - MIN) / RANGE) * RANGE;
    w
  }

  /** Wrapping in between changes nothing. */
  lemma WrapTwice(x: int, y: int)
    ensures Wrap(Wrap(x) + y) == Wrap(x + y)
  {
    var k :| Wrap(x) == x - k * RANGE;
    var i :| Wrap(Wrap(x) + y) == Wrap(x) + y - i * RANGE;
    var j :| Wrap(x + y) == x + y - j * RANGE;
    assert Wrap(Wrap(x) + y) - Wrap(x + y) == (j - k - i) * RANGE;
  }

  /** Go's division, towards zero */
  function Quotient(x: int, d: int): (q: int)
    requires d > 0
  {
    if x >= 0 then x / d else -((-x) / d)
  }

  datatype FeeError = AmountNotPositive | RateNegative | FlatNegative | Overflow
  datatype FeeResult = Ok(fee: int) | Err(error: FeeError)

  datatype StripeFeePolicy = StripeFeePolicy(rateBPS: int, flatAmount: int)

  predicate IsPolicy(p: StripeFeePolicy) { IsInt64(p.rateBPS) && IsInt64(p.flatAmount) }

  /** Compute */
  function Compute(p: StripeFeePolicy, amount: int): (r: FeeResult)
    requires IsPolicy(p) && IsInt64(amount)
  {
    if amount <= 0 then Err(AmountNotPositive)
    else if p.rateBPS < 0 then Err(RateNegative)
    else if p.flatAmount < 0 then Err(FlatNegative)
    else
      var rateFee := if p.rateBPS > 0 then Quotient(Wrap(Wrap(amount * p.rateBPS) + 9999), 10000) else 0;
      var totalFee := Wrap(rateFee + p.flatAmount);
      if totalFee < 0 then Err(Overflow) else Ok(totalFee)
  }

  /** The inputs Compute does not reject outright. */
  predicate Valid(p: StripeFeePolicy, amount: int) {
    IsPolicy(p) && 0 < amount <= MAX && p.rateBPS >= 0 && p.flatAmount >= 0
  }

  /** `fee` is the flat amount plus the share of the amount, rounded up to a whole unit. */
  predicate IsFee(p: StripeFeePolicy, amount: int, fee: int) {
    (fee - p.flatAmount - 1) * 10000 < amount * p.rateBPS <= (fee - p.flatAmount) * 10000
  }

  /** The fee in unbounded arithmetic. */
  function TrueFee(p: StripeFeePolicy, amount: int): (fee: int)
    ensures IsFee(p, amount, fee)
  {
    (amount * p.rateBPS + 9999) / 10000 + p.flatAmount
  }

  lemma FeeIsUnique(p: StripeFeePolicy, amount: int, f: int, g: int)
    requires IsFee(p, amount, f) && IsFee(p, amount, g)
    ensures f == g
  {
  }

  /** The scaled amount can be rounded up within int64. */
  predicate Fits(p: StripeFeePolicy, amount: int) { amount * p.rateBPS + 9999 <= MAX }

  lemma Unfold(p: StripeFeePolicy, amount: int)
    requires Valid(p, amount)
    ensures amount * p.rateBPS >= 0
    ensures Compute(p, amount) ==
            var total := Wrap(Quotient(Wrap(amount * p.rateBPS + 9999), 10000) + p.flatAmount);
            if total < 0 then Err(Overflow) else Ok(total)
  {
    hide Wrap;
    WrapTwice(amount * p.rateBPS, 9999);
    ProductNotNegative(amount, p.rateBPS);
  }

  lemma ProductNotNegative(a: int, b: int)
    requires a >= 0 && b >= 0
    ensures a * b >= 0
  {
  }

  /** Where the scaled amount fits, Compute is exact: an error if and only if the fee does not fit, and else the fee. */
  lemma ExactWhereItFits(p: StripeFeePolicy, amount: int)
    requires Valid(p, amount) && Fits(p, amount)
    ensures Compute(p, amount) == if TrueFee(p, amount) > MAX then Err(Overflow) else Ok(TrueFee(p, amount))
  {
    Unfold(p, amount);
    var total := TrueFee(p, amount);
    WrapAbove(total);
  }

  /** A sum of two int64 values that is too large wraps to a negative value. */
  lemma WrapAbove(x: int)
    requires 0 <= x <= 2 * MAX
    ensures Wrap(x) < 0 <==> x > MAX
  {
    var k :| Wrap(x) == x - k * RANGE;
  }

  /** Where it does not fit, no answer is right: whatever fee comes out is too small. */
  lemma TooSmallElsewhere(p: StripeFeePolicy, amount: int)
    requires Valid(p, amount) && !Fits(p, amount)
    ensures Compute(p, amount).Ok? ==> Compute(p, amount).fee < TrueFee(p, amount)
  {
    Unfold(p, amount);
    var scaled := amount * p.rateBPS + 9999;
    var w := Wrap(scaled);
    var k :| w == scaled - k * RANGE;
    assert k >= 1;
    var q := Quotient(w, 10000);
    assert q < scaled / 10000;
    SumOrError(q, p.flatAmount);
  }

  lemma SumOrError(q: int, flat: int)
    requires -MAX <= q <= MAX && 0 <= flat <= MAX
    ensures Wrap(q + flat) >= 0 ==> Wrap(q + flat) == q + flat
  {
    if q + flat > MAX { WrapAbove(q + flat); }
  }

  /** So Compute yields the fee of the policy exactly when both the scaled amount and that fee fit. */
  lemma ComputeExactly(p: StripeFeePolicy, amount: int)
    requires Valid(p, amount)
    ensures Compute(p, amount).Ok? && IsFee(p, amount, Compute(p, amount).fee) <==> Fits(p, amount) && TrueFee(p, amount) <= MAX
  {
    hide Compute, TrueFee, Fits, IsFee;
    if Fits(p, amount) { ExactWhereItFits(p, amount); } else { TooSmallElsewhere(p, amount); }
    if Compute(p, amount).Ok? && IsFee(p, amount, Compute(p, amount).fee) {
      FeeIsUnique(p, amount, Compute(p, amount).fee, TrueFee(p, amount));
    }
  }

  /** What is refused outright, and as what: the amount is looked at first, then the rate, then the flat amount. */
  lemma RefusalsExactly(p: StripeFeePolicy, amount: int)
    requires IsPolicy(p) && IsInt64(amount)
    ensures Compute(p, amount) == Err(AmountNotPositive) <==> amount <= 0
    ensures Compute(p, amount) == Err(RateNegative) <==> amount > 0 && p.rateBPS < 0
    ensures Compute(p, amount) == Err(FlatNegative) <==> amount > 0 && p.rateBPS >= 0 && p.flatAmount < 0
  {
    hide Wrap, Quotient;
  }

  /** The overflow check does not see the product wrap: a huge amount goes through free of charge. */
  lemma OverflowUnseen()
    ensures var p, amount := StripeFeePolicy(4, 0), 0x4000_0000_0000_0000;
            Valid(p, amount) && Compute(p, amount) == Ok(0) && TrueFee(p, amount) == 1_844_674_407_370_956
  {
    var amount := 0x4000_0000_0000_0000;
    assert amount * 4 == RANGE;
    assert Wrap(RANGE) == 0;
  }

  lemma ProductGrows(a: int, b: int, rate: int)
    requires a <= b && rate >= 0
    ensures a * rate <= b * rate
  {
  }

  /** Where a larger amount is charged rightly, so is a smaller one, and no more. */
  lemma FeeIsMonotone(p: StripeFeePolicy, a: int, b: int)
    requires Valid(p, a) && a <= b <= MAX && Fits(p, b) && Compute(p, b).Ok?
    ensures Fits(p, a) && Compute(p, a).Ok? && Compute(p, a).fee <= Compute(p, b).fee
  {
    hide Compute;
    ProductGrows(a, b, p.rateBPS);
    ExactWhereItFits(p, a);
    ExactWhereItFits(p, b);
  }

  /** Splitting an amount never lowers the fee. */
  lemma SplittingCostsMore(p: StripeFeePolicy, a: int, b: int)
    requires Valid(p, a) && Valid(p, b) && a + b <= MAX && Fits(p, a + b) && Compute(p, a + b).Ok?
    ensures Compute(p, a).Ok? && Compute(p, b).Ok?
    ensures Compute(p, a).fee + Compute(p, b).fee >= Compute(p, a + b).fee
  {
    hide Compute;
    FeeIsMonotone(p, a, a + b);
    FeeIsMonotone(p, b, a + b);
    ExactWhereItFits(p, a);
    ExactWhereItFits(p, b);
    ExactWhereItFits(p, a + b);
    Distributes(a, b, p.rateBPS);
  }

  lemma Distributes(a: int, b: int, rate: int)
    ensures (a + b) * rate == a * rate + b * rate
  {
  }

  /** Division is towards zero: a product that wraps around to -1 counts for nothing, not for minus one. */
  lemma WrappedToMinusOne()
    ensures var p, amount := StripeFeePolicy(16, 7), 0x1000_0000_0000_0000 - 625;
            Valid(p, amount) && Compute(p, amount) == Ok(7)
  {
    var amount := 0x1000_0000_0000_0000 - 625;
    assert amount * 16 + 9999 == RANGE - 1;
    WrapTwice(amount * 16, 9999);
    assert Wrap(RANGE - 1) == -1;
    assert Quotient(-1, 10000) == 0;
  }
}
