/** The pool escrow for multi-worker tasks: a client funds a fixed budget of
    `max_releases` payments plus the platform fee on that budget, a release
    authority pays one worker (and the fee on that payment) per release, and
    the client takes back what is left when the pool is closed. */
module Pool {
  import opened Base
  import opened FeeMath
  import opened Deadlines
  import opened Config

  datatype PoolEscrowStatus = Created | Funded | Active | Closed

  /** What one release moves out of the vault: the worker's payment and the
      platform fee on it. */
  function ReleaseCost(paymentPerWorker: nat, feeBps: nat): nat
  {
    paymentPerWorker + BpsShare(paymentPerWorker, feeBps)
  }

  /** The amount a pool is funded with: `max_releases` payments plus the fee
      on their total, each step checked against u64 overflow. */
  function PoolBudget(paymentPerWorker: U64, maxReleases: U64, feeBps: U16): (r: Result<U64>)
    ensures r.Ok? <==> paymentPerWorker * maxReleases <= U64_MAX
                       && paymentPerWorker * maxReleases + BpsShare(paymentPerWorker * maxReleases, feeBps) <= U64_MAX
    ensures r.Ok? ==> r.value == paymentPerWorker * maxReleases + BpsShare(paymentPerWorker * maxReleases, feeBps)
    ensures r.Err? ==> r.error == Overflow
  {
    var budget := paymentPerWorker * maxReleases;
    if budget > U64_MAX then Err(Overflow)
    else
      match CalculateFee(budget, feeBps)
      case Err(e) => Err(e)
      case Ok(fee) => if budget + fee > U64_MAX then Err(Overflow) else Ok(budget + fee)
  }

  /** The budget always covers every release: after `done` < `max` releases
      one more still fits, because the fee on each payment, rounded down,
      adds up to no more than the fee on the whole budget. */
  lemma ReleasesFit(paymentPerWorker: nat, maxReleases: nat, feeBps: nat, done: nat)
    requires done < maxReleases
    ensures (done + 1) * ReleaseCost(paymentPerWorker, feeBps)
         <= paymentPerWorker * maxReleases + BpsShare(paymentPerWorker * maxReleases, feeBps)
  {
    var cost := ReleaseCost(paymentPerWorker, feeBps);
    var fee := BpsShare(paymentPerWorker, feeBps);
    MulMono(done + 1, maxReleases, cost);
    assert maxReleases * cost == maxReleases * paymentPerWorker + maxReleases * fee;
    ShareScaled(paymentPerWorker, feeBps, maxReleases);
    assert maxReleases * paymentPerWorker == paymentPerWorker * maxReleases;
  }

  /** On a metered pool with releases left, the next release is affordable,
      its cost fits in a u64, and the released total after it is again a
      whole number of releases. */
  lemma ReleaseArithmetic(paymentPerWorker: nat, maxReleases: nat, feeBps: nat, done: nat,
                          released: nat, funded: nat)
    requires done < maxReleases
    requires released == done * ReleaseCost(paymentPerWorker, feeBps)
    requires funded == paymentPerWorker * maxReleases + BpsShare(paymentPerWorker * maxReleases, feeBps)
    ensures released + ReleaseCost(paymentPerWorker, feeBps) <= funded
    ensures released + ReleaseCost(paymentPerWorker, feeBps) == (done + 1) * ReleaseCost(paymentPerWorker, feeBps)
    ensures BpsShare(paymentPerWorker, feeBps) <= ReleaseCost(paymentPerWorker, feeBps) <= funded
  {
    var cost := ReleaseCost(paymentPerWorker, feeBps);
    ReleasesFit(paymentPerWorker, maxReleases, feeBps, done);
    assert (done + 1) * cost == done * cost + cost;
    MulMono(1, done + 1, cost);
  }

  /** The metering invariant on values: the funded amount is the budget,
      every release so far cost the same, the count never exceeds its
      maximum, and no more was released than funded. */
  predicate Metered(paymentPerWorker: nat, maxReleases: nat, feeBps: nat, funded: nat, released: nat, count: nat)
  {
    && funded == paymentPerWorker * maxReleases + BpsShare(paymentPerWorker * maxReleases, feeBps)
    && released == count * ReleaseCost(paymentPerWorker, feeBps)
    && count <= maxReleases
    && released <= funded
  }

  /** One more release on a metered pool with releases left is affordable
      and leaves the pool metered. */
  lemma MeteredStep(paymentPerWorker: nat, maxReleases: nat, feeBps: nat, funded: nat, released: nat, count: nat)
    requires Metered(paymentPerWorker, maxReleases, feeBps, funded, released, count)
    requires count < maxReleases
    ensures released + ReleaseCost(paymentPerWorker, feeBps) <= funded
    ensures BpsShare(paymentPerWorker, feeBps) <= ReleaseCost(paymentPerWorker, feeBps) <= funded
    ensures Metered(paymentPerWorker, maxReleases, feeBps, funded,
                    released + ReleaseCost(paymentPerWorker, feeBps), count + 1)
  {
    ReleaseArithmetic(paymentPerWorker, maxReleases, feeBps, count, released, funded);
  }

  /** Once all releases are made, what stays in the vault is the rounding
      difference between the fee on the budget and the fees on the releases:
      fewer than `max_releases` base units. */
  lemma LeftoverAfterAllReleases(paymentPerWorker: nat, maxReleases: nat, feeBps: nat)
    requires maxReleases >= 1
    ensures var funded := paymentPerWorker * maxReleases + BpsShare(paymentPerWorker * maxReleases, feeBps);
      var released := maxReleases * ReleaseCost(paymentPerWorker, feeBps);
      0 <= funded - released < maxReleases
  {
    var fee := BpsShare(paymentPerWorker, feeBps);
    assert maxReleases * ReleaseCost(paymentPerWorker, feeBps) == maxReleases * paymentPerWorker + maxReleases * fee;
    ShareScaled(paymentPerWorker, feeBps, maxReleases);
    assert maxReleases * paymentPerWorker == paymentPerWorker * maxReleases;
  }

  /** Five workers at 1 USDC with a 10% fee: the pool is funded with 5.5 USDC,
      and each release costs 1.1 USDC. */
  lemma FiveWorkerBudget()
    ensures PoolBudget(1_000_000, 5, 1000) == Ok(5_500_000)
    ensures ReleaseCost(1_000_000, 1000) == 1_100_000
  {
  }

  class PoolEscrowAccount {
    const escrowId: U64
    const client: Pubkey
    const mint: Pubkey
    const vault: Pubkey
    const paymentPerWorker: U64
    const maxReleases: U64
    const totalFunded: U64
    const platformFeeBps: U16
    const releaseAuthority: Pubkey
    const createdAt: I64
    const deadline: Option<I64>
    var totalReleased: U64
    var releaseCount: U64
    var status: PoolEscrowStatus
    var fundedAt: Option<I64>
    var closedAt: Option<I64>

    /** The metering invariant: the funded amount is the budget of
        `create_pool_escrow`, every release so far cost the same, the count
        never exceeds its maximum, and no more was released than funded. */
    predicate Valid()
      reads this
    {
      && paymentPerWorker >= MIN_ESCROW_AMOUNT
      && 1 <= maxReleases <= MAX_POOL_WORKERS
      && platformFeeBps <= BPS_DENOMINATOR
      && releaseAuthority != DEFAULT_PUBKEY
      && Metered(paymentPerWorker, maxReleases, platformFeeBps, totalFunded, totalReleased, releaseCount)
      && (fundedAt.None? <==> status == Created)
      && (status in {Created, Funded} ==> releaseCount == 0)
      && (status == Active ==> releaseCount >= 1)
      && (closedAt.Some? <==> status == Closed)
    }

    constructor (escrowId: U64, client: Pubkey, mint: Pubkey, vault: Pubkey, paymentPerWorker: U64,
                 maxReleases: U64, totalFunded: U64, platformFeeBps: U16, releaseAuthority: Pubkey,
                 deadline: Option<I64>, now: I64)
      ensures this.escrowId == escrowId && this.client == client && this.mint == mint && this.vault == vault
      ensures this.paymentPerWorker == paymentPerWorker && this.maxReleases == maxReleases
      ensures this.totalFunded == totalFunded && this.platformFeeBps == platformFeeBps
      ensures this.releaseAuthority == releaseAuthority && this.deadline == deadline && createdAt == now
      ensures totalReleased == 0 && releaseCount == 0 && status == Created
      ensures fundedAt == None && closedAt == None
    {
      this.escrowId := escrowId;
      this.client := client;
      this.mint := mint;
      this.vault := vault;
      this.paymentPerWorker := paymentPerWorker;
      this.maxReleases := maxReleases;
      this.totalFunded := totalFunded;
      this.platformFeeBps := platformFeeBps;
      this.releaseAuthority := releaseAuthority;
      this.deadline := deadline;
      createdAt := now;
      totalReleased := 0;
      releaseCount := 0;
      status := Created;
      fundedAt := None;
      closedAt := None;
    }

    /** `create_pool_escrow`: the checks in their order, then the budget. */
    static method Create(config: PlatformConfig, client: Pubkey, escrowId: U64, mint: Pubkey, vault: Pubkey,
                         paymentPerWorker: U64, maxReleases: U64, platformFeeBps: U16,
                         releaseAuthority: Pubkey, deadline: Option<I64>, now: I64)
      returns (r: Result<PoolEscrowAccount>)
      ensures config.paused ==> r == Err(PlatformPaused)
      ensures !config.paused && paymentPerWorker < MIN_ESCROW_AMOUNT ==> r == Err(AmountTooSmall)
      ensures !config.paused && paymentPerWorker >= MIN_ESCROW_AMOUNT
              && !(1 <= maxReleases <= MAX_POOL_WORKERS) ==>
                r == Err(InvalidMaxReleases)
      ensures !config.paused && paymentPerWorker >= MIN_ESCROW_AMOUNT && 1 <= maxReleases <= MAX_POOL_WORKERS
              && platformFeeBps > BPS_DENOMINATOR ==>
                r == Err(InvalidPercentage)
      ensures !config.paused && paymentPerWorker >= MIN_ESCROW_AMOUNT && 1 <= maxReleases <= MAX_POOL_WORKERS
              && platformFeeBps <= BPS_DENOMINATOR && releaseAuthority == DEFAULT_PUBKEY ==>
                r == Err(InvalidReleaseAuthority)
      ensures !config.paused && paymentPerWorker >= MIN_ESCROW_AMOUNT && 1 <= maxReleases <= MAX_POOL_WORKERS
              && platformFeeBps <= BPS_DENOMINATOR && releaseAuthority != DEFAULT_PUBKEY
              && ValidateOptionalDeadline(now, deadline).Fail? ==>
                r == Err(ValidateOptionalDeadline(now, deadline).error)
      ensures !config.paused && paymentPerWorker >= MIN_ESCROW_AMOUNT && 1 <= maxReleases <= MAX_POOL_WORKERS
              && platformFeeBps <= BPS_DENOMINATOR && releaseAuthority != DEFAULT_PUBKEY
              && ValidateOptionalDeadline(now, deadline).Pass?
              && PoolBudget(paymentPerWorker, maxReleases, platformFeeBps).Err? ==>
                r == Err(Overflow)
      ensures r.Ok? <==> && !config.paused && paymentPerWorker >= MIN_ESCROW_AMOUNT
                         && 1 <= maxReleases <= MAX_POOL_WORKERS && platformFeeBps <= BPS_DENOMINATOR
                         && releaseAuthority != DEFAULT_PUBKEY
                         && ValidateOptionalDeadline(now, deadline).Pass?
                         && PoolBudget(paymentPerWorker, maxReleases, platformFeeBps).Ok?
      ensures r.Ok? ==> fresh(r.value) && r.value.Valid() && r.value.status == Created
      ensures r.Ok? ==> r.value.totalFunded == PoolBudget(paymentPerWorker, maxReleases, platformFeeBps).value
      ensures r.Ok? ==> r.value.totalReleased == 0 && r.value.releaseCount == 0
      ensures r.Ok? ==> r.value.client == client && r.value.releaseAuthority == releaseAuthority
      ensures r.Ok? ==> r.value.paymentPerWorker == paymentPerWorker && r.value.maxReleases == maxReleases
      ensures r.Ok? ==> r.value.platformFeeBps == platformFeeBps && r.value.deadline == deadline
      ensures r.Ok? ==> r.value.mint == mint && r.value.vault == vault && r.value.escrowId == escrowId
    {
      if config.paused {
        return Err(PlatformPaused);
      }
      if paymentPerWorker < MIN_ESCROW_AMOUNT {
        return Err(AmountTooSmall);
      }
      if !(maxReleases >= 1 && maxReleases <= MAX_POOL_WORKERS) {
        return Err(InvalidMaxReleases);
      }
      if platformFeeBps > BPS_DENOMINATOR {
        return Err(InvalidPercentage);
      }
      if releaseAuthority == DEFAULT_PUBKEY {
        return Err(InvalidReleaseAuthority);
      }
      var window := ValidateOptionalDeadline(now, deadline);
      if window.Fail? {
        return Err(window.error);
      }
      var budget := PoolBudget(paymentPerWorker, maxReleases, platformFeeBps);
      if budget.Err? {
        return Err(budget.error);
      }
      var pool := new PoolEscrowAccount(escrowId, client, mint, vault, paymentPerWorker, maxReleases,
                                        budget.value, platformFeeBps, releaseAuthority, deadline, now);
      return Ok(pool);
    }

    /** `fund_pool_escrow`: the client moves the whole budget into the vault,
        from a token account of the pool's mint that the client holds. */
    method Fund(caller: Pubkey, clientTokenAccount: TokenAccount, now: I64) returns (r: Result<seq<TokenCall>>)
      modifies this`status, this`fundedAt
      ensures caller != client ==> r == Err(Unauthorized)
      ensures caller == client && TokenConstraint(clientTokenAccount, client, mint).Some? ==>
                r == Err(TokenConstraint(clientTokenAccount, client, mint).value)
      ensures caller == client && TokenConstraint(clientTokenAccount, client, mint) == None
              && old(status) != Created ==>
                r == Err(InvalidStatus)
      ensures r.Ok? <==> caller == client && TokenConstraint(clientTokenAccount, client, mint) == None
                         && old(status) == Created
      ensures r.Ok? ==> clientTokenAccount.owner == client && clientTokenAccount.mint == mint
      ensures r.Ok? ==> r.value == [Transfer(totalFunded, clientTokenAccount.key, vault)]
      ensures r.Ok? ==> status == Funded && fundedAt == Some(now)
      ensures r.Err? ==> status == old(status) && fundedAt == old(fundedAt)
      ensures old(Valid()) ==> Valid()
    {
      if caller != client {
        return Err(Unauthorized);
      }
      var held := TokenConstraint(clientTokenAccount, client, mint);
      if held.Some? {
        return Err(held.value);
      }
      if status != Created {
        return Err(InvalidStatus);
      }
      var calls := [Transfer(totalFunded, clientTokenAccount.key, vault)];
      status := Funded;
      fundedAt := Some(now);
      return Ok(calls);
    }

    /** The first check of `partial_release` that fails, in the order they are
        made (the constraints on the worker's and then the treasury's token
        account first, each field's `constraint` before its `token::mint`),
        before any arithmetic. */
    function ReleaseRejection(caller: Pubkey, config: PlatformConfig, workerTokenAccount: TokenAccount,
                              treasuryTokenAccount: TokenAccount, now: I64): Option<EscrowError>
      reads this, config
    {
      if workerTokenAccount.key == treasuryTokenAccount.key then Some(DuplicateAccounts)
      else if workerTokenAccount.mint != mint then Some(ConstraintTokenMint)
      else if treasuryTokenAccount.owner != config.treasury then Some(InvalidTreasury)
      else if treasuryTokenAccount.mint != mint then Some(ConstraintTokenMint)
      else if status !in {Funded, Active} then Some(InvalidStatus)
      else if caller != releaseAuthority then Some(Unauthorized)
      else if deadline.Some? && IsDeadlinePassed(now, deadline.value) then Some(DeadlinePassed)
      else if releaseCount >= maxReleases then Some(MaxReleasesReached)
      else None
    }

    /** `partial_release`: pays one worker and the fee on that payment to the
        treasury, skipping a zero transfer. On a valid pool that passes the
        checks, the arithmetic never fails and the funds always suffice. */
    method PartialRelease(caller: Pubkey, config: PlatformConfig, workerTokenAccount: TokenAccount,
                          treasuryTokenAccount: TokenAccount, now: I64)
      returns (r: Result<seq<TokenCall>>)
      modifies this`totalReleased, this`releaseCount, this`status
      ensures var e := old(ReleaseRejection(caller, config, workerTokenAccount, treasuryTokenAccount, now));
        e.Some? ==> r == Err(e.value)
      ensures r.Ok? ==> old(ReleaseRejection(caller, config, workerTokenAccount, treasuryTokenAccount, now)) == None
      ensures old(Valid()) && old(ReleaseRejection(caller, config, workerTokenAccount, treasuryTokenAccount, now)) == None ==>
                r.Ok?
      ensures r == Err(InsufficientFunds) ==>
                0 <= totalFunded - totalReleased < ReleaseCost(paymentPerWorker, platformFeeBps)
      ensures old(ReleaseRejection(caller, config, workerTokenAccount, treasuryTokenAccount, now)) == None
              && ReleaseCost(paymentPerWorker, platformFeeBps) <= U64_MAX && old(totalReleased) <= totalFunded
              && totalFunded - old(totalReleased) < ReleaseCost(paymentPerWorker, platformFeeBps) ==>
                r == Err(InsufficientFunds)
      ensures r.Ok? ==> totalReleased == old(totalReleased) + ReleaseCost(paymentPerWorker, platformFeeBps)
      ensures r.Ok? ==> releaseCount == old(releaseCount) + 1 && status == Active
      ensures r.Ok? ==> workerTokenAccount.mint == mint && treasuryTokenAccount.mint == mint
      ensures r.Ok? ==> treasuryTokenAccount.owner == config.treasury
      ensures r.Ok? && config.Valid() ==> treasuryTokenAccount.owner != DEFAULT_PUBKEY
      ensures r.Ok? ==> r.value == ReleaseCalls(paymentPerWorker, BpsShare(paymentPerWorker, platformFeeBps),
                                                vault, workerTokenAccount.key, treasuryTokenAccount.key)
      ensures r.Ok? ==> Moved(r.value) == ReleaseCost(paymentPerWorker, platformFeeBps)
      ensures r.Err? ==> totalReleased == old(totalReleased) && releaseCount == old(releaseCount)
                         && status == old(status)
      ensures old(Valid()) ==> Valid()
    {
      var rejection := ReleaseRejection(caller, config, workerTokenAccount, treasuryTokenAccount, now);
      if rejection.Some? {
        return Err(rejection.value);
      }
      if Valid() {
        MeteredStep(paymentPerWorker, maxReleases, platformFeeBps, totalFunded, totalReleased, releaseCount);
      }
      var workerAmount := paymentPerWorker;
      var feeResult := CalculateFee(workerAmount, platformFeeBps);
      if feeResult.Err? {
        return Err(feeResult.error);
      }
      var platformFee := feeResult.value;
      if workerAmount + platformFee > U64_MAX {
        return Err(Overflow);
      }
      var totalRelease: U64 := workerAmount + platformFee;
      if totalReleased > totalFunded {
        return Err(Overflow);
      }
      var remaining := totalFunded - totalReleased;
      if remaining < totalRelease {
        return Err(InsufficientFunds);
      }
      var calls := ReleaseCalls(workerAmount, platformFee, vault, workerTokenAccount.key, treasuryTokenAccount.key);
      if totalReleased + totalRelease > U64_MAX {
        return Err(Overflow);
      }
      if releaseCount + 1 > U64_MAX {
        return Err(Overflow);
      }
      MovedRelease(workerAmount, platformFee, vault, workerTokenAccount.key, treasuryTokenAccount.key);
      totalReleased := totalReleased + totalRelease;
      releaseCount := releaseCount + 1;
      status := Active;
      return Ok(calls);
    }

    /** `close_pool_escrow`: the client takes back whatever has not been
        released, into a token account of the pool's mint that the client
        holds, skipping a zero transfer, and the pool is closed. On a valid
        pool the subtraction never fails. */
    method ClosePool(caller: Pubkey, clientTokenAccount: TokenAccount, now: I64) returns (r: Result<seq<TokenCall>>)
      modifies this`status, this`closedAt
      ensures caller != client ==> r == Err(Unauthorized)
      ensures caller == client && TokenConstraint(clientTokenAccount, client, mint).Some? ==>
                r == Err(TokenConstraint(clientTokenAccount, client, mint).value)
      ensures caller == client && TokenConstraint(clientTokenAccount, client, mint) == None
              && old(status) !in {Funded, Active} ==>
                r == Err(InvalidStatus)
      ensures caller == client && TokenConstraint(clientTokenAccount, client, mint) == None
              && old(status) in {Funded, Active} && totalReleased > totalFunded ==>
                r == Err(Overflow)
      ensures r.Ok? <==> caller == client && TokenConstraint(clientTokenAccount, client, mint) == None
                         && old(status) in {Funded, Active} && totalReleased <= totalFunded
      ensures r.Ok? ==> clientTokenAccount.owner == client && clientTokenAccount.mint == mint
      ensures r.Ok? ==> r.value == (if totalFunded - totalReleased > 0
                                   then [Transfer(totalFunded - totalReleased, vault, clientTokenAccount.key)]
                                   else [])
      ensures r.Ok? ==> Moved(r.value) == totalFunded - totalReleased
      ensures r.Ok? ==> status == Closed && closedAt == Some(now)
      ensures r.Err? ==> status == old(status) && closedAt == old(closedAt)
      ensures old(Valid()) ==>
                (r.Ok? <==> caller == client && TokenConstraint(clientTokenAccount, client, mint) == None
                            && old(status) in {Funded, Active})
      ensures old(Valid()) ==> Valid()
    {
      if caller != client {
        return Err(Unauthorized);
      }
      var held := TokenConstraint(clientTokenAccount, client, mint);
      if held.Some? {
        return Err(held.value);
      }
      if status != Funded && status != Active {
        return Err(InvalidStatus);
      }
      if totalReleased > totalFunded {
        return Err(Overflow);
      }
      var remaining := totalFunded - totalReleased;
      var calls: seq<TokenCall> := [];
      if remaining > 0 {
        calls := [Transfer(remaining, vault, clientTokenAccount.key)];
        assert calls[..0] == [];
      }
      status := Closed;
      closedAt := Some(now);
      return Ok(calls);
    }
  }

  /** The transfers of one release: the payment to the worker, then the fee
      to the treasury, each left out when it is zero. */
  function ReleaseCalls(workerAmount: U64, platformFee: U64, vault: Pubkey, worker: Pubkey, treasury: Pubkey)
    : seq<TokenCall>
  {
    (if workerAmount > 0 then [Transfer(workerAmount, vault, worker)] else [])
    + (if platformFee > 0 then [Transfer(platformFee, vault, treasury)] else [])
  }

  /** The transfers of a release move exactly the payment plus the fee. */
  lemma MovedRelease(workerAmount: U64, platformFee: U64, vault: Pubkey, worker: Pubkey, treasury: Pubkey)
    ensures Moved(ReleaseCalls(workerAmount, platformFee, vault, worker, treasury)) == workerAmount + platformFee
  {
    var a: seq<TokenCall> := if workerAmount > 0 then [Transfer(workerAmount, vault, worker)] else [];
    var b: seq<TokenCall> := if platformFee > 0 then [Transfer(platformFee, vault, treasury)] else [];
    assert Moved(a) == workerAmount by {
      if workerAmount > 0 {
        assert a[..0] == [];
      }
    }
    if platformFee > 0 {
      assert (a + b)[..|a + b| - 1] == a;
    } else {
      assert a + b == a;
    }
  }
}
