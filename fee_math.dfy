/** Fee arithmetic: `calculate_fee` and the floor basis-point share that every
    fee and split amount in the program is built from. */
module FeeMath {
  import opened Base

  /** floor(amount * bps / 10000): the part of `amount` that `bps` basis
      points stand for, rounded down. */
  function BpsShare(amount: nat, bps: nat): (r: nat)
    ensures r * BPS_DENOMINATOR as int <= amount * bps < (r + 1) * BPS_DENOMINATOR as int
  {
    amount * bps / BPS_DENOMINATOR as int
  }

  /** `calculate_fee`: the product is formed in a 128-bit intermediate, which
      cannot overflow for a u64 amount and a u16 rate; the quotient must fit
      back into a u64, otherwise the call fails with Overflow. */
  function CalculateFee(amount: U64, feeBps: U16): (r: Result<U64>)
    ensures r.Ok? <==> BpsShare(amount, feeBps) <= U64_MAX
    ensures r.Ok? ==> r.value == BpsShare(amount, feeBps)
    ensures r.Err? ==> r.error == Overflow
  {
    var product := amount * feeBps;
    assert product <= U128_MAX by {
      MulMono(amount, U64_MAX, feeBps);
      MulMono(feeBps, U16_MAX, U64_MAX);
    }
    var fee := product / BPS_DENOMINATOR as int;
    if fee > U64_MAX then Err(Overflow) else Ok(fee)
  }

  lemma MulMono(x: nat, y: nat, k: nat)
    requires x <= y
    ensures x * k <= y * k
  {
  }

  lemma MulStrict(x: nat, y: nat, k: nat)
    requires x < y && k >= 1
    ensures k * x < k * y
  {
  }

  /** Division by a positive factor preserves order. */
  lemma MulCancel(x: int, y: int, d: nat)
    requires d > 0
    ensures x * d <= y * d ==> x <= y
    ensures x * d < y * d ==> x < y
  {
    if y + 1 <= x {
      assert x * d - (y + 1) * d == (x - (y + 1)) * d;
    }
    if y <= x {
      assert x * d - y * d == (x - y) * d;
    }
  }

  /** A rate of at most 100% never fails and never charges more than the
      amount itself. */
  lemma FeeWithinAmount(amount: U64, feeBps: U16)
    requires feeBps <= BPS_DENOMINATOR
    ensures CalculateFee(amount, feeBps).Ok?
    ensures CalculateFee(amount, feeBps).value <= amount
  {
    ShareAtMost(amount, feeBps);
  }

  lemma ShareAtMost(amount: nat, bps: nat)
    requires bps <= BPS_DENOMINATOR
    ensures BpsShare(amount, bps) <= amount
  {
    var r := BpsShare(amount, bps);
    MulMono(bps, BPS_DENOMINATOR, amount);
    assert r * BPS_DENOMINATOR as int <= amount * BPS_DENOMINATOR as int;
    MulCancel(r, amount, BPS_DENOMINATOR);
  }

  /** A zero rate gives a zero share and a full rate gives the whole amount. */
  lemma ShareExtremes(amount: nat)
    ensures BpsShare(amount, 0) == 0
    ensures BpsShare(amount, BPS_DENOMINATOR) == amount
  {
  }

  /** The share is monotonic non-decreasing in the rate. */
  lemma ShareMonotonic(amount: nat, b1: nat, b2: nat)
    requires b1 <= b2
    ensures BpsShare(amount, b1) <= BpsShare(amount, b2)
  {
    var r1, r2 := BpsShare(amount, b1), BpsShare(amount, b2);
    MulMono(b1, b2, amount);
    assert r1 * BPS_DENOMINATOR as int < (r2 + 1) * BPS_DENOMINATOR as int;
    MulCancel(r1, r2 + 1, BPS_DENOMINATOR);
  }

  /** Rounding down twice loses at least as much as rounding down once. */
  lemma ShareSuperadditive(amount: nat, b1: nat, b2: nat)
    ensures BpsShare(amount, b1) + BpsShare(amount, b2) <= BpsShare(amount, b1 + b2)
  {
    var r1, r2, r := BpsShare(amount, b1), BpsShare(amount, b2), BpsShare(amount, b1 + b2);
    var d := BPS_DENOMINATOR as int;
    assert amount * (b1 + b2) == amount * b1 + amount * b2;
    assert (r1 + r2) * d == r1 * d + r2 * d;
    assert (r1 + r2) * d < (r + 1) * d;
    MulCancel(r1 + r2, r + 1, d);
  }

  /** Charging the rate on each of n equal payments gives at most the fee on
      their total, and falls short of it by less than n base units. */
  lemma ShareScaled(amount: nat, bps: nat, n: nat)
    requires n >= 1
    ensures n * BpsShare(amount, bps) <= BpsShare(n * amount, bps)
    ensures BpsShare(n * amount, bps) < n * BpsShare(amount, bps) + n
  {
    var p := amount * bps;
    assert n * amount * bps == n * p;
    FloorScale(p, BpsShare(amount, bps), BpsShare(n * amount, bps), n, BPS_DENOMINATOR);
  }

  /** If q = floor(p / d) and s = floor(n * p / d), then n * q <= s < n * q + n. */
  lemma FloorScale(p: nat, q: nat, s: nat, n: nat, d: nat)
    requires n >= 1 && d >= 1
    requires q * d <= p < (q + 1) * d
    requires s * d <= n * p < (s + 1) * d
    ensures n * q <= s < n * q + n
  {
    MulMono(q * d, p, n);
    assert q * d * n == (n * q) * d;
    MulStrict(p, (q + 1) * d, n);
    assert n * ((q + 1) * d) == (n * q + n) * d;
    MulCancel(n * q, s + 1, d);
    MulCancel(s, n * q + n, d);
  }
}
