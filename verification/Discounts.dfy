/** Properties of the discount arithmetic. */
module Discounts {
  import opened Types
  import opened CreditService

  /** What every credit issued by the services satisfies. */
  predicate WellFormed(c: Credit) {
    && (c.amount.Some? ==> c.amount.value >= 0)
    && (c.percent.Some? ==> 0 <= c.percent.value <= 100)
    && (c.cap.Some? ==> c.cap.value >= 0)
  }

  /** What a credit lets `d` be off a price: no more than the price, the amount of a fixed credit, and the percentage
      and the cap of a percent credit. */
  predicate Allowed(c: Credit, price: int, d: int) {
    && d <= price
    && (c.kind == FixedAmount ==> d <= if c.amount.Some? then c.amount.value else 0)
    && (c.kind == Percent ==>
          && 100 * d <= price * (if c.percent.Some? then c.percent.value else 0)
          && (c.percent.Some? && c.cap.Some? ==> d <= c.cap.value))
  }

  /** The discount is the largest that the credit allows. */
  lemma {:induction false} EstimateIsLargest(c: Credit, price: int)
    requires WellFormed(c) && price >= 0
    ensures Allowed(c, price, EstimateDiscount(c, price))
    ensures forall d :: Allowed(c, price, d) ==> d <= EstimateDiscount(c, price)
  {
    if c.kind == Percent && c.percent.Some? {
      var x := price * c.percent.value;
      assert x >= 0;
      assert 100 * (x / 100) <= x;
      forall d | Allowed(c, price, d) ensures d <= EstimateDiscount(c, price) {
        assert 100 * d <= x ==> d <= x / 100;
      }
    }
  }

  lemma PercentBounds(price: int, price': int, percent: int)
    requires 0 <= price <= price' && 0 <= percent <= 100
    ensures 0 <= price * percent / 100 <= price
    ensures price * percent / 100 <= price' * percent / 100 <= price * percent / 100 + (price' - price)
  {
    var d := price' - price;
    assert 0 <= price * percent <= 100 * price;
    assert price' * percent == price * percent + d * percent;
    assert 0 <= d * percent <= 100 * d;
  }

  /** A discount lies between nothing and the price; a higher price never gets a smaller discount nor
      ends up cheaper. */
  lemma {:induction false} EstimateBounds(c: Credit, price: int, price': int)
    requires WellFormed(c) && 0 <= price <= price'
    ensures 0 <= EstimateDiscount(c, price) <= price
    ensures EstimateDiscount(c, price) <= EstimateDiscount(c, price') <= EstimateDiscount(c, price) + (price' - price)
  {
    if c.kind == Percent && c.percent.Some? {
      PercentBounds(price, price', c.percent.value);
    }
  }

  /** The best amount is the largest estimate, or 0 when none is positive. */
  lemma {:induction false} BestAmountIsMaximum(credits: seq<Credit>, price: int)
    ensures forall c :: c in credits ==> EstimateDiscount(c, price) <= BestAmount(credits, price)
    ensures BestAmount(credits, price) == 0
      || exists c :: c in credits && EstimateDiscount(c, price) == BestAmount(credits, price)
    ensures BestAmount(credits, price) >= 0
  {
    if |credits| > 0 {
      var n := |credits| - 1;
      BestAmountIsMaximum(credits[..n], price);
      assert credits == credits[..n] + [credits[n]];
      if BestAmount(credits[..n], price) != 0 {
        var c :| c in credits[..n] && EstimateDiscount(c, price) == BestAmount(credits[..n], price);
        assert c in credits;
      }
    }
  }

  /** The amount does not depend on the order of the list, nor on repetitions. */
  lemma BestAmountIgnoresOrder(xs: seq<Credit>, ys: seq<Credit>, price: int)
    requires forall c :: c in xs <==> c in ys
    ensures BestAmount(xs, price) == BestAmount(ys, price)
  {
    BestAmountIsMaximum(xs, price);
    BestAmountIsMaximum(ys, price);
  }

  /** Both the best discount and the net price are nondecreasing in the price. */
  lemma {:induction false} BestAmountBounds(credits: seq<Credit>, price: int, price': int)
    requires (forall c :: c in credits ==> WellFormed(c)) && 0 <= price <= price'
    ensures 0 <= BestAmount(credits, price) <= price
    ensures BestAmount(credits, price) <= BestAmount(credits, price')
    ensures price - BestAmount(credits, price) <= price' - BestAmount(credits, price')
  {
    if |credits| > 0 {
      var n := |credits| - 1;
      BestAmountBounds(credits[..n], price, price');
      EstimateBounds(credits[n], price, price');
    }
  }

  // ---- The floating-point quotient ---------------------------------------------------------------

  function Exp2(e: int): real
    decreases if e < 0 then -e else e
  {
    if e == 0 then 1.0 else if e > 0 then 2.0 * Exp2(e - 1) else Exp2(e + 1) / 2.0
  }

  const TWO53 := 0x20_0000_0000_0000
  const TWO46 := 0x4000_0000_0000

  predicate Dyadic(v: real, m: int, e: int) {
    -TWO53 < m < TWO53 && -1074 <= e <= 971 && v == m as real * Exp2(e)
  }

  /** The finite binary64 values of IEEE 754-2019, section 3.3. */
  ghost predicate IsBinary64(v: real) {
    exists m, e :: Dyadic(v, m, e)
  }

  function Distance(x: real, y: real): real { if x <= y then y - x else x - y }

  /** `v` is a correctly rounded `x` under round-to-nearest (section 4.3.1), whatever the tie rule. */
  ghost predicate Rounds(x: real, v: real) {
    IsBinary64(v) && forall w :: IsBinary64(w) ==> Distance(v, x) <= Distance(w, x)
  }

  /** Python's `int()` of a float. */
  function Trunc(v: real): int {
    if v >= 0.0 then v.Floor else -((-v).Floor)
  }

  lemma NegatedBinary64(v: real)
    requires IsBinary64(v)
    ensures IsBinary64(-v)
  {
    var m, e :| Dyadic(v, m, e);
    assert Dyadic(-v, -m, e);
  }

  lemma NegatedRounds(x: real, v: real)
    requires Rounds(x, v)
    ensures Rounds(-x, -v)
  {
    NegatedBinary64(v);
    forall w | IsBinary64(w) ensures Distance(-v, -x) <= Distance(w, -x) {
      NegatedBinary64(w);
      assert Distance(v, x) <= Distance(-w, x);
    }
  }

  lemma IntegerIsBinary64(k: int)
    requires -TWO53 < k < TWO53
    ensures IsBinary64(k as real)
  {
    assert Exp2(0) == 1.0;
    assert Dyadic(k as real, k, 0);
  }

  /** A small number has a binary64 value within 1/128 of it. */
  lemma NearbyBinary64(x: real) returns (w: real)
    requires 0.0 <= x < TWO46 as real
    ensures IsBinary64(w) && Distance(w, x) <= 1.0 / 128.0
  {
    var f := (x * 128.0).Floor;
    w := f as real / 128.0;
    SmallestStep();
    assert 0.0 <= x * 128.0 < TWO53 as real;
    assert Dyadic(w, f, -7);
  }

  lemma RoundedQuotient(a: int, v: real)
    requires 0 <= a < 100 * TWO46 && Rounds(a as real / 100.0, v)
    ensures v >= 0.0 && v.Floor == a / 100
  {
    hide IsBinary64;
    var x, k := a as real / 100.0, a / 100;
    assert 100 * k <= a <= 100 * k + 99;
    assert k as real <= x <= k as real + 0.99;
    IntegerIsBinary64(k);
    var w := NearbyBinary64(x);
  }

  lemma SmallestStep()
    ensures Exp2(-7) == 1.0 / 128.0
  {
    assert Exp2(-1) == 0.5;
    assert Exp2(-2) == 0.25;
    assert Exp2(-3) == 0.125;
    assert Exp2(-4) == 1.0 / 16.0;
    assert Exp2(-5) == 1.0 / 32.0;
    assert Exp2(-6) == 1.0 / 64.0;
  }

  /** The correctly rounded float quotient by 100 truncates to the exact integer quotient, for every
      product below 100 * 2^46 in size; prices below 2^31 and percentages up to 100 are far inside. */
  lemma FloatDivisionIsExact(a: int, v: real)
    requires -100 * TWO46 < a < 100 * TWO46 && Rounds(a as real / 100.0, v)
    ensures Trunc(v) == TruncDiv(a, 100)
  {
    if a >= 0 {
      RoundedQuotient(a, v);
    } else {
      NegatedRounds(a as real / 100.0, v);
      assert -(a as real / 100.0) == (-a) as real / 100.0;
      RoundedQuotient(-a, -v);
      if v >= 0.0 {
        assert v == 0.0;
      }
    }
  }

  lemma FloatPercentageIsExact(price: int, percent: int, v: real)
    requires 0 <= price < 0x8000_0000 && 0 <= percent <= 100
    requires Rounds((price * percent) as real / 100.0, v)
    ensures Trunc(v) == price * percent / 100
  {
    assert 0 <= price * percent <= 100 * price;
    FloatDivisionIsExact(price * percent, v);
  }

  /** So the discount of a percent credit is the truncated float, or the cap if that is less. */
  lemma {:induction false} FloatEstimateIsExact(c: Credit, price: int, v: real)
    requires WellFormed(c) && c.kind == Percent && c.percent.Some? && 0 <= price < 0x8000_0000
    requires Rounds((price * c.percent.value) as real / 100.0, v)
    ensures EstimateDiscount(c, price) == if c.cap.Some? && c.cap.value < Trunc(v) then c.cap.value else Trunc(v)
  {
    hide Rounds, Trunc;
    FloatPercentageIsExact(price, c.percent.value, v);
    PercentBounds(price, price, c.percent.value);
  }
}
