/** End-to-end runs of the instructions on fresh records: a five-worker pool
    drained release by release, and a refund tried before and after its
    deadline. */
module Scenarios {
  import opened Base
  import opened FeeMath
  import opened Splits
  import opened Deadlines
  import opened Config
  import Pool
  import Escrow

  /** A pool of five 1 USDC payments at a 10% fee is funded with 5.5 USDC;
      five releases of 1.1 USDC each empty it exactly, and a sixth is refused
      with MaxReleasesReached. */
  method FiveWorkerPool(client: Pubkey, authority: Pubkey, treasury: Pubkey, worker: Pubkey,
                        workerAccount: Pubkey, treasuryAccount: Pubkey, now: I64)
    returns (funded: U64, releases: seq<Result<seq<TokenCall>>>, sixth: Result<seq<TokenCall>>,
             released: U64, left: int)
    requires authority != DEFAULT_PUBKEY && treasury != DEFAULT_PUBKEY
    requires workerAccount != treasuryAccount
    ensures funded == 5_500_000
    ensures |releases| == 5
    ensures forall i :: 0 <= i < 5 ==> releases[i].Ok? && Moved(releases[i].value) == 1_100_000
    ensures sixth == Err(MaxReleasesReached)
    ensures released == 5_500_000 && left == 0
  {
    var config := new PlatformConfig(client, treasury);
    Pool.FiveWorkerBudget();
    var created := Pool.PoolEscrowAccount.Create(config, client, 1, 7, 8, 1_000_000, 5, 1000, authority, None, now);
    var pool := created.value;
    funded := pool.totalFunded;
    var paid := pool.Fund(client, TokenAccount(9, client, 7), now);
    var workerTokens := TokenAccount(workerAccount, worker, 7);
    var treasuryTokens := TokenAccount(treasuryAccount, treasury, 7);
    releases := [];
    var i := 0;
    while i < 5
      invariant 0 <= i <= 5 && |releases| == i && config.treasury == treasury
      invariant pool.Valid() && pool.status in {Pool.Funded, Pool.Active}
      invariant pool.releaseCount == i && pool.totalFunded == 5_500_000
      invariant pool.paymentPerWorker == 1_000_000 && pool.platformFeeBps == 1000
      invariant pool.mint == 7 && pool.maxReleases == 5 && pool.releaseAuthority == authority && pool.deadline == None
      invariant forall k :: 0 <= k < i ==> releases[k].Ok? && Moved(releases[k].value) == 1_100_000
    {
      var r := pool.PartialRelease(authority, config, workerTokens, treasuryTokens, now);
      releases := releases + [r];
      i := i + 1;
    }
    sixth := pool.PartialRelease(authority, config, workerTokens, treasuryTokens, now);
    released := pool.totalReleased;
    left := pool.totalFunded - pool.totalReleased;
  }

  /** A funded escrow with a deadline: the payer's refund at the deadline is
      refused with DeadlineNotPassed, one second later it succeeds and
      returns the whole amount. */
  method RefundAroundDeadline(payer: Pubkey, recipient: Pubkey, payerAccount: Pubkey, now: I64)
    returns (early: Result<seq<TokenCall>>, late: Result<seq<TokenCall>>)
    requires recipient != DEFAULT_PUBKEY
    requires now + 2 * MAX_ESCROW_DURATION <= I64_MAX
    ensures early == Err(DeadlineNotPassed)
    ensures late.Ok? && Moved(late.value) == 50_000_000
  {
    var config := new PlatformConfig(payer, 1);
    var deadline := now + 100;
    WindowBounds(now);
    var splits := [Split(recipient, 10_000)];
    assert ValidSplits(splits) by {
      assert splits[..0] == [];
    }
    var created := Escrow.EscrowAccount.Create(config, payer, 1, 7, 8, 50_000_000, splits, Some(deadline), now);
    var escrow := created.value;
    var payerTokens := TokenAccount(payerAccount, payer, 7);
    var funding := escrow.Fund(payer, payerTokens, now);
    early := escrow.Refund(payer, payerTokens, deadline);
    late := escrow.Refund(payer, payerTokens, deadline + 1);
    assert late.value[..0] == [];
  }
}
