/** Split sets: `validate_splits` and `compute_split_amounts`, each a loop over
    the splits, with the reference definitions they are proved against. */
module Splits {
  import opened Base
  import opened FeeMath

  /** One entitlement: a recipient and its weight in basis points. */
  datatype Split = Split(recipient: Pubkey, bps: U16)

  /** Sum of the weights, accumulated from the left. */
  function SumBps(splits: seq<Split>): nat
  {
    if |splits| == 0 then 0 else SumBps(splits[..|splits| - 1]) + splits[|splits| - 1].bps
  }

  function Recipients(splits: seq<Split>): set<Pubkey>
  {
    set i | 0 <= i < |splits| :: splits[i].recipient
  }

  predicate DistinctRecipients(splits: seq<Split>)
  {
    forall i, j :: 0 <= i < j < |splits| ==> splits[i].recipient != splits[j].recipient
  }

  /** A valid split set: 1..=8 entries, no default recipient, every weight at
      most 10000, pairwise distinct recipients, weights summing to exactly
      10000. */
  predicate ValidSplits(splits: seq<Split>)
  {
    && 1 <= |splits| <= MAX_SPLITS
    && (forall i :: 0 <= i < |splits| ==> splits[i].recipient != DEFAULT_PUBKEY)
    && (forall i :: 0 <= i < |splits| ==> splits[i].bps <= BPS_DENOMINATOR)
    && DistinctRecipients(splits)
    && SumBps(splits) == BPS_DENOMINATOR as int
  }

  /** `validate_splits`: one pass over the splits with a running weight sum and
      a set of recipients seen so far. Every rejection is InvalidSplits. */
  method ValidateSplits(splits: seq<Split>) returns (r: Outcome)
    ensures r.Pass? <==> ValidSplits(splits)
    ensures r.Fail? ==> r.error == InvalidSplits
  {
    if |splits| == 0 {
      return Fail(InvalidSplits);
    }
    if |splits| > MAX_SPLITS {
      return Fail(InvalidSplits);
    }
    var sum: U32 := 0;
    var recipients: set<Pubkey> := {};
    var i := 0;
    while i < |splits|
      invariant 0 <= i <= |splits|
      invariant sum == SumBps(splits[..i]) <= i * BPS_DENOMINATOR as int
      invariant recipients == Recipients(splits[..i])
      invariant forall k :: 0 <= k < i ==> splits[k].recipient != DEFAULT_PUBKEY
      invariant forall k :: 0 <= k < i ==> splits[k].bps <= BPS_DENOMINATOR
      invariant DistinctRecipients(splits[..i])
    {
      var split := splits[i];
      ValidationStep(splits, i);
      if split.recipient == DEFAULT_PUBKEY {
        return Fail(InvalidSplits);
      }
      if split.bps > BPS_DENOMINATOR {
        return Fail(InvalidSplits);
      }
      // The u32 checked_add cannot overflow: at most 8 terms of at most 10000.
      sum := sum + split.bps;
      if split.recipient in recipients {
        return Fail(InvalidSplits);
      }
      recipients := recipients + {split.recipient};
      i := i + 1;
    }
    assert splits[..i] == splits;
    if sum != BPS_DENOMINATOR as int {
      return Fail(InvalidSplits);
    }
    return Pass;
  }

  /** What one more split adds to the running weight sum and the recipients
      seen; a recipient seen before makes the whole set non-distinct. */
  lemma ValidationStep(splits: seq<Split>, i: nat)
    requires i < |splits|
    ensures SumBps(splits[..i + 1]) == SumBps(splits[..i]) + splits[i].bps
    ensures Recipients(splits[..i + 1]) == Recipients(splits[..i]) + {splits[i].recipient}
    ensures DistinctRecipients(splits[..i]) && splits[i].recipient !in Recipients(splits[..i]) ==>
              DistinctRecipients(splits[..i + 1])
    ensures splits[i].recipient in Recipients(splits[..i]) ==> !DistinctRecipients(splits)
  {
    assert splits[..i + 1][..i] == splits[..i];
    if splits[i].recipient in Recipients(splits[..i]) {
      var k :| 0 <= k < i && splits[k].recipient == splits[i].recipient;
      assert splits[k].recipient == splits[i].recipient;
    }
  }

  /** Every weight's floor share of `total`, position by position. */
  function Shares(total: nat, splits: seq<Split>): (r: seq<nat>)
    ensures |r| == |splits|
    ensures forall i :: 0 <= i < |splits| ==> r[i] == BpsShare(total, splits[i].bps)
  {
    seq(|splits|, i requires 0 <= i < |splits| => BpsShare(total, splits[i].bps))
  }

  /** The distribution `compute_split_amounts` promises: every split but the
      last gets its floor share, the last gets what is left of `total`. */
  function SplitAmounts(total: nat, splits: seq<Split>): (r: seq<int>)
    requires |splits| >= 1
    ensures |r| == |splits|
    ensures ValidSplits(splits) ==> forall i :: 0 <= i < |r| ==> 0 <= r[i] <= total
  {
    var firsts := Shares(total, splits[..|splits| - 1]);
    FirstsFit(total, splits);
    firsts + [total - Sum(firsts)]
  }

  /** For a valid set, the floor shares of all splits but the last, and their
      sum, stay within `total`. */
  lemma FirstsFit(total: nat, splits: seq<Split>)
    requires |splits| >= 1
    ensures var firsts := Shares(total, splits[..|splits| - 1]);
      ValidSplits(splits) ==>
        && 0 <= Sum(firsts) <= total
        && forall i :: 0 <= i < |firsts| ==> firsts[i] <= total
  {
    if ValidSplits(splits) {
      var init := splits[..|splits| - 1];
      var firsts := Shares(total, init);
      SharesSumAtMost(total, init);
      SumBpsPrefix(splits, |splits| - 1);
      ShareAtMost(total, SumBps(init));
      SumNonNegative(firsts);
      forall i | 0 <= i < |firsts|
        ensures firsts[i] <= total
      {
        ShareAtMost(total, splits[i].bps);
      }
    }
  }

  lemma {:induction false} SumBpsPrefix(splits: seq<Split>, n: nat)
    requires n <= |splits|
    ensures SumBps(splits[..n]) <= SumBps(splits)
  {
    if n < |splits| {
      assert splits[..|splits| - 1][..n] == splits[..n];
      SumBpsPrefix(splits[..|splits| - 1], n);
    } else {
      assert splits[..n] == splits;
    }
  }

  /** The floor shares of a prefix add up to no more than the share of the
      prefix's total weight. */
  lemma {:induction false} SharesSumAtMost(total: nat, splits: seq<Split>)
    ensures Sum(Shares(total, splits)) <= BpsShare(total, SumBps(splits))
  {
    if |splits| > 0 {
      var init := splits[..|splits| - 1];
      assert Shares(total, splits)[..|splits| - 1] == Shares(total, init);
      SharesSumAtMost(total, init);
      ShareSuperadditive(total, SumBps(init), splits[|splits| - 1].bps);
    }
  }

  /** For a valid split set the amounts have one entry per split, each but the
      last is its floor share, the last is the remainder, they sum to exactly
      `total` and none exceeds it. */
  lemma SplitAmountsConserve(total: nat, splits: seq<Split>)
    requires ValidSplits(splits)
    ensures var a := SplitAmounts(total, splits);
      && |a| == |splits|
      && (forall i :: 0 <= i < |splits| - 1 ==> a[i] == BpsShare(total, splits[i].bps))
      && a[|splits| - 1] == total - Sum(a[..|splits| - 1])
      && Sum(a) == total
      && (forall i :: 0 <= i < |a| ==> 0 <= a[i] <= total)
  {
    var n := |splits|;
    var init := splits[..n - 1];
    var firsts := Shares(total, init);
    var a := SplitAmounts(total, splits);
    assert a[..n - 1] == firsts;
    SharesSumAtMost(total, init);
    SumBpsPrefix(splits, n - 1);
    ShareAtMost(total, SumBps(init));
    SumAppend(firsts, [total - Sum(firsts)]);
    assert Sum([total - Sum(firsts)]) == total - Sum(firsts) by {
      assert [total - Sum(firsts)][..0] == [];
    }
    SumNonNegative(firsts);
    forall i | 0 <= i < n - 1
      ensures a[i] <= total
    {
      ShareAtMost(total, splits[i].bps);
    }
  }

  /** The floor shares lose less than one unit each: ten thousand times their
      sum is at most `total` times the summed weights, and falls short of it
      by at most 9999 per split. */
  lemma {:induction false} SharesBounds(total: nat, splits: seq<Split>)
    ensures 10_000 * Sum(Shares(total, splits)) <= total * SumBps(splits)
    ensures total * SumBps(splits) <= 10_000 * Sum(Shares(total, splits)) + 9_999 * |splits|
  {
    if |splits| > 0 {
      var n := |splits| - 1;
      var init := splits[..n];
      var b := splits[n].bps;
      var share := BpsShare(total, b);
      SharesBounds(total, init);
      assert Shares(total, splits) == Shares(total, init) + [share];
      SumAppend(Shares(total, init), [share]);
      assert Sum([share]) == share by {
        assert [share][..0] == [];
      }
      assert total * SumBps(splits) == total * SumBps(init) + total * b;
    }
  }

  /** The rounding bias of the remainder rule: the last recipient gets at
      least its own floor share and at most `|splits| - 1` units more. */
  lemma LastShareBias(total: nat, splits: seq<Split>)
    requires ValidSplits(splits)
    ensures var a := SplitAmounts(total, splits);
      var last := BpsShare(total, splits[|splits| - 1].bps);
      last <= a[|splits| - 1] <= last + |splits| - 1
  {
    var n := |splits|;
    var init := splits[..n - 1];
    var b := splits[n - 1].bps;
    assert SumBps(init) + b == 10_000;
    SharesBounds(total, init);
    BiasProducts(total, SumBps(init), b, BpsShare(total, b), Sum(Shares(total, init)), n);
  }

  /** LastShareBias on plain numbers: `x` and `b` are the leading and the last
      weights, `last` the last weight's floor share and `s` the sum of the
      leading floor shares. */
  lemma BiasProducts(total: nat, x: nat, b: nat, last: nat, s: int, n: nat)
    requires n >= 1 && x + b == 10_000
    requires 10_000 * s <= total * x <= 10_000 * s + 9_999 * (n - 1)
    requires last * 10_000 <= total * b < (last + 1) * 10_000
    ensures last <= total - s <= last + n - 1
  {
    assert total * x + total * b == 10_000 * total;
    BiasArithmetic(total, s, total * x, total * b, last, n);
  }

  /** The linear core of LastShareBias, with the products `p` and `q` of
      `total` and the weights given as plain numbers. */
  lemma BiasArithmetic(total: int, s: int, p: int, q: int, last: int, n: int)
    requires n >= 1
    requires 10_000 * s <= p <= 10_000 * s + 9_999 * (n - 1)
    requires p + q == 10_000 * total
    requires 10_000 * last <= q < 10_000 * last + 10_000
    ensures last <= total - s <= last + n - 1
  {
  }

  lemma SharesAppend(total: nat, splits: seq<Split>, i: nat)
    requires i < |splits|
    ensures Shares(total, splits[..i + 1]) == Shares(total, splits[..i]) + [BpsShare(total, splits[i].bps)]
  {
  }

  /** One step of the allocation loop on a valid set: from the shares so far
      and their sum, the next floor share fits in `total`, extends the shares,
      and keeps their sum within `total`. */
  lemma NextShare(total: nat, splits: seq<Split>, i: nat, amounts: seq<int>, soFar: int)
    requires ValidSplits(splits) && i < |splits| - 1
    requires amounts == Shares(total, splits[..i]) && soFar == Sum(amounts)
    ensures var share := BpsShare(total, splits[i].bps);
      && share <= total
      && amounts + [share] == Shares(total, splits[..i + 1])
      && soFar + share == Sum(amounts + [share]) <= total
  {
    var share := BpsShare(total, splits[i].bps);
    ShareAtMost(total, splits[i].bps);
    SharesAppend(total, splits, i);
    SumAppend(amounts, [share]);
    assert Sum([share]) == share by {
      assert [share][..0] == [];
    }
    SharesSumAtMost(total, splits[..i + 1]);
    SumBpsPrefix(splits, i + 1);
    ShareMonotonic(total, SumBps(splits[..i + 1]), BPS_DENOMINATOR);
    ShareExtremes(total);
  }

  /** After the allocation loop on a valid set: the remainder lies in
      [0, total], and appending it to the leading shares gives the amounts
      `SplitAmounts` promises, which sum to `total`. */
  lemma LastStep(total: nat, splits: seq<Split>)
    requires ValidSplits(splits)
    ensures var firsts := Shares(total, splits[..|splits| - 1]);
      && 0 <= total - Sum(firsts) <= total
      && firsts + [total - Sum(firsts)] == SplitAmounts(total, splits)
      && Sum(SplitAmounts(total, splits)) == total
  {
    FirstsFit(total, splits);
    SplitAmountsConserve(total, splits);
  }

  /** `compute_split_amounts`: validates the set, then walks it, giving every
      split but the last its floor share (a 128-bit product narrowed back to
      64 bits) and accumulating what was allocated; the last split receives
      the remainder. The narrowing, the checked addition, the checked
      subtraction and the closing sum check never fail on a valid set. */
  method ComputeSplitAmounts(total: U64, splits: seq<Split>) returns (r: Result<seq<U64>>)
    ensures r.Ok? <==> ValidSplits(splits)
    ensures r.Err? ==> r.error == InvalidSplits
    ensures r.Ok? ==> r.value == SplitAmounts(total, splits)
  {
    var v := ValidateSplits(splits);
    if v.Fail? {
      return Err(v.error);
    }
    var n := |splits|;
    var amounts: seq<U64> := [];
    var allocatedSoFar: U64 := 0;
    var i := 0;
    while i < n - 1
      invariant 0 <= i <= n - 1
      invariant amounts == Shares(total, splits[..i])
      invariant allocatedSoFar == Sum(amounts)
    {
      NextShare(total, splits, i, amounts, allocatedSoFar);
      var amount := AsU64(BpsShare(total, splits[i].bps));
      allocatedSoFar := allocatedSoFar + amount;
      amounts := amounts + [amount];
      i := i + 1;
    }
    assert amounts == Shares(total, splits[..n - 1]);
    LastStep(total, splits);
    var last := total - allocatedSoFar;
    amounts := amounts + [last];
    assert amounts == SplitAmounts(total, splits);
    if Sum(amounts) != total {
      return Err(Overflow);
    }
    return Ok(amounts);
  }

  /** Two-way split 9000/1000 of 100 USDC. */
  lemma TwoWayExample(r1: Pubkey, r2: Pubkey)
    ensures SplitAmounts(100_000_000, [Split(r1, 9000), Split(r2, 1000)]) == [90_000_000, 10_000_000]
  {
    var f := Shares(100_000_000, [Split(r1, 9000)]);
    assert f == [90_000_000];
    assert Sum(f) == 90_000_000 by {
      assert f[..0] == [];
    }
  }

  /** Three-way split 9000/700/300 of 100 USDC. */
  lemma ThreeWayExample(r1: Pubkey, r2: Pubkey, r3: Pubkey)
    ensures SplitAmounts(100_000_000, [Split(r1, 9000), Split(r2, 700), Split(r3, 300)])
         == [90_000_000, 7_000_000, 3_000_000]
  {
    var splits := [Split(r1, 9000), Split(r2, 700), Split(r3, 300)];
    assert splits[..2] == [Split(r1, 9000), Split(r2, 700)];
    var f := Shares(100_000_000, splits[..2]);
    assert f == [90_000_000, 7_000_000];
    assert f[..1] == [90_000_000];
    assert f[..1][..0] == [];
    assert Sum(f[..1]) == 90_000_000;
    assert Sum(f) == 97_000_000;
  }

  /** The rounding remainder lands on the last recipient: 3333/3333/3334 of 100. */
  lemma RoundingExample(r1: Pubkey, r2: Pubkey, r3: Pubkey)
    ensures SplitAmounts(100, [Split(r1, 3333), Split(r2, 3333), Split(r3, 3334)]) == [33, 33, 34]
  {
    var splits := [Split(r1, 3333), Split(r2, 3333), Split(r3, 3334)];
    assert splits[..2] == [Split(r1, 3333), Split(r2, 3333)];
    var f := Shares(100, splits[..2]);
    assert f == [33, 33];
    assert f[..1] == [33];
    assert f[..1][..0] == [];
    assert Sum(f[..1]) == 33;
    assert Sum(f) == 66;
  }
}
