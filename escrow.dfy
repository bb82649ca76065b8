/** The split escrow record and its instructions: create, fund, approve,
    settle, refund, freeze, the two admin resolutions, cancel and close.
    Account-context constraints (`has_one = payer`, `has_one = admin`) run
    before an instruction's body, so their Unauthorized comes first. */
module Escrow {
  import opened Base
  import opened Splits
  import opened Settlement
  import opened Deadlines
  import opened Config

  datatype EscrowStatus = Created | Funded | Approved | Settled | Refunded | Frozen

  /** The status changes the instructions make. */
  predicate Step(from: EscrowStatus, to: EscrowStatus)
  {
    || (from == Created && to == Funded)
    || (from == Funded && to == Approved)
    || (from in {Funded, Approved} && to in {Settled, Refunded, Frozen})
    || (from == Frozen && to in {Settled, Refunded})
  }

  /** How far along its life an escrow is; every step goes strictly forward. */
  function Rank(s: EscrowStatus): (r: nat)
    ensures s == Created <==> r == 0
    ensures s in {Settled, Refunded} <==> r == 4
  {
    match s
    case Created => 0
    case Funded => 1
    case Approved => 2
    case Frozen => 3
    case Settled => 4
    case Refunded => 4
  }

  predicate Terminal(s: EscrowStatus)
  {
    s == Settled || s == Refunded
  }

  lemma StepGoesForward(from: EscrowStatus, to: EscrowStatus)
    requires Step(from, to)
    ensures Rank(from) < Rank(to)
    ensures !Terminal(from)
    ensures to != Created
  {
  }

  /** A sequence of statuses the instructions can pass through, one step at a time. */
  predicate IsRun(run: seq<EscrowStatus>)
  {
    forall i :: 0 <= i < |run| - 1 ==> Step(run[i], run[i + 1])
  }

  /** A run of one or more steps ends strictly further along than it began,
      so no status is ever re-entered and nothing leaves Settled or Refunded. */
  lemma {:induction false} RunGoesForward(run: seq<EscrowStatus>)
    requires |run| >= 2 && IsRun(run)
    ensures Rank(run[0]) < Rank(run[|run| - 1])
    ensures run[|run| - 1] != run[0]
    ensures !Terminal(run[0])
  {
    var n := |run|;
    StepGoesForward(run[n - 2], run[n - 1]);
    if n > 2 {
      var init := run[..n - 1];
      assert IsRun(init) by {
        forall i | 0 <= i < |init| - 1 ensures Step(init[i], init[i + 1]) {
          assert Step(run[i], run[i + 1]);
        }
      }
      RunGoesForward(init);
    }
  }

  class EscrowAccount {
    const escrowId: U64
    const payer: Pubkey
    const mint: Pubkey
    const vault: Pubkey
    const totalAmount: U64
    const splits: seq<Split>
    const createdAt: I64
    const deadline: Option<I64>
    const version: nat
    var status: EscrowStatus
    var fundedAt: Option<I64>
    var approvedAt: Option<I64>
    var settledAt: Option<I64>
    var refundedAt: Option<I64>
    var frozenAt: Option<I64>

    /** What every record the program writes satisfies: an amount of at least
        the minimum, a valid split set, version 2, and timestamps that agree
        with the status (Frozen, Settled and Refunded records were funded). */
    predicate Valid()
      reads this
    {
      && totalAmount >= MIN_ESCROW_AMOUNT
      && ValidSplits(splits)
      && version == 2
      && (fundedAt.None? <==> status == Created)
      && (status == Approved ==> approvedAt.Some?)
      && (approvedAt.Some? ==> status in {Approved, Settled, Refunded, Frozen})
      && (settledAt.Some? <==> status == Settled)
      && (refundedAt.Some? <==> status == Refunded)
      && (status == Frozen ==> frozenAt.Some?)
      && (frozenAt.Some? ==> status in {Frozen, Settled, Refunded})
    }

    constructor (escrowId: U64, payer: Pubkey, mint: Pubkey, vault: Pubkey, totalAmount: U64,
                 splits: seq<Split>, deadline: Option<I64>, now: I64)
      ensures this.escrowId == escrowId && this.payer == payer && this.mint == mint && this.vault == vault
      ensures this.totalAmount == totalAmount && this.splits == splits && this.deadline == deadline
      ensures createdAt == now && version == 2 && status == Created
      ensures fundedAt == None && approvedAt == None && settledAt == None
      ensures refundedAt == None && frozenAt == None
    {
      this.escrowId := escrowId;
      this.payer := payer;
      this.mint := mint;
      this.vault := vault;
      this.totalAmount := totalAmount;
      this.splits := splits;
      this.deadline := deadline;
      createdAt := now;
      version := 2;
      status := Created;
      fundedAt := None;
      approvedAt := None;
      settledAt := None;
      refundedAt := None;
      frozenAt := None;
    }

    /** `create_escrow`: not while paused, at least the minimum amount, an
        optional deadline inside the window, and a valid split set. */
    static method Create(config: PlatformConfig, payer: Pubkey, escrowId: U64, mint: Pubkey, vault: Pubkey,
                         totalAmount: U64, splits: seq<Split>, deadline: Option<I64>, now: I64)
      returns (r: Result<EscrowAccount>)
      ensures config.paused ==> r == Err(PlatformPaused)
      ensures !config.paused && totalAmount < MIN_ESCROW_AMOUNT ==> r == Err(AmountTooSmall)
      ensures !config.paused && totalAmount >= MIN_ESCROW_AMOUNT && ValidateOptionalDeadline(now, deadline).Fail? ==>
                r == Err(ValidateOptionalDeadline(now, deadline).error)
      ensures !config.paused && totalAmount >= MIN_ESCROW_AMOUNT && ValidateOptionalDeadline(now, deadline).Pass?
              && !ValidSplits(splits) ==>
                r == Err(InvalidSplits)
      ensures r.Ok? <==> !config.paused && totalAmount >= MIN_ESCROW_AMOUNT
                         && ValidateOptionalDeadline(now, deadline).Pass? && ValidSplits(splits)
      ensures r.Ok? ==> fresh(r.value) && r.value.Valid() && r.value.status == Created
      ensures r.Ok? ==> r.value.payer == payer && r.value.totalAmount == totalAmount
      ensures r.Ok? ==> r.value.splits == splits && r.value.deadline == deadline
      ensures r.Ok? ==> r.value.mint == mint && r.value.vault == vault && r.value.escrowId == escrowId
      ensures r.Ok? ==> r.value.createdAt == now
    {
      if config.paused {
        return Err(PlatformPaused);
      }
      if totalAmount < MIN_ESCROW_AMOUNT {
        return Err(AmountTooSmall);
      }
      var window := ValidateOptionalDeadline(now, deadline);
      if window.Fail? {
        return Err(window.error);
      }
      var valid := ValidateSplits(splits);
      if valid.Fail? {
        return Err(valid.error);
      }
      var escrow := new EscrowAccount(escrowId, payer, mint, vault, totalAmount, splits, deadline, now);
      return Ok(escrow);
    }

    /** `fund_escrow`: the payer moves the whole amount into the vault, from
        a token account of the escrow's mint that the payer holds. */
    method Fund(caller: Pubkey, payerTokenAccount: TokenAccount, now: I64) returns (r: Result<seq<TokenCall>>)
      modifies this`status, this`fundedAt
      ensures caller != payer ==> r == Err(Unauthorized)
      ensures caller == payer && TokenConstraint(payerTokenAccount, payer, mint).Some? ==>
                r == Err(TokenConstraint(payerTokenAccount, payer, mint).value)
      ensures caller == payer && TokenConstraint(payerTokenAccount, payer, mint) == None
              && old(status) != Created ==>
                r == Err(InvalidStatus)
      ensures r.Ok? <==> caller == payer && TokenConstraint(payerTokenAccount, payer, mint) == None
                         && old(status) == Created
      ensures r.Ok? ==> payerTokenAccount.owner == payer && payerTokenAccount.mint == mint
      ensures r.Ok? ==> r.value == [Transfer(totalAmount, payerTokenAccount.key, vault)]
      ensures r.Ok? ==> status == Funded && fundedAt == Some(now) && Step(old(status), status)
      ensures r.Err? ==> status == old(status) && fundedAt == old(fundedAt)
      ensures old(Valid()) ==> Valid()
    {
      if caller != payer {
        return Err(Unauthorized);
      }
      var held := TokenConstraint(payerTokenAccount, payer, mint);
      if held.Some? {
        return Err(held.value);
      }
      if status != Created {
        return Err(InvalidStatus);
      }
      var calls := [Transfer(totalAmount, payerTokenAccount.key, vault)];
      status := Funded;
      fundedAt := Some(now);
      return Ok(calls);
    }

    /** `approve_escrow`: the payer marks a funded escrow approved. */
    method Approve(caller: Pubkey, now: I64) returns (r: Outcome)
      modifies this`status, this`approvedAt
      ensures caller != payer ==> r == Fail(Unauthorized)
      ensures caller == payer && old(status) != Funded ==> r == Fail(InvalidStatus)
      ensures r.Pass? <==> caller == payer && old(status) == Funded
      ensures r.Pass? ==> status == Approved && approvedAt == Some(now) && Step(old(status), status)
      ensures r.Fail? ==> status == old(status) && approvedAt == old(approvedAt)
      ensures old(Valid()) ==> Valid()
    {
      if caller != payer {
        return Fail(Unauthorized);
      }
      if status != Funded {
        return Fail(InvalidStatus);
      }
      status := Approved;
      approvedAt := Some(now);
      return Pass;
    }

    /** `settle_escrow`: the payer releases a funded or approved escrow to
        the recipients of its stored split set, through `accounts`. On a
        valid record the split set never fails, so the only rejections left
        are the destination checks. */
    method Settle(caller: Pubkey, accounts: seq<RemainingAccount>, now: I64) returns (r: Result<seq<TokenCall>>)
      modifies this`status, this`settledAt
      ensures caller != payer ==> r == Err(Unauthorized)
      ensures caller == payer && old(status) !in {Funded, Approved} ==> r == Err(InvalidStatus)
      ensures caller == payer && old(status) in {Funded, Approved} && r.Err? ==>
                PayOutRejects(splits, mint, vault, accounts, r.error)
      ensures r.Ok? <==> caller == payer && old(status) in {Funded, Approved}
                         && ValidSplits(splits) && AccountsMatch(accounts, splits, mint, vault)
      ensures r.Ok? ==> r.value == Payouts(SplitAmounts(totalAmount, splits), accounts, vault)
      ensures r.Ok? ==> Moved(r.value) == totalAmount
      ensures r.Ok? ==> status == Settled && settledAt == Some(now) && Step(old(status), status)
      ensures r.Err? ==> status == old(status) && settledAt == old(settledAt)
      ensures old(Valid()) && r.Err? ==> r.error != InvalidSplits
      ensures old(Valid()) ==> Valid()
    {
      if caller != payer {
        return Err(Unauthorized);
      }
      if status != Approved && status != Funded {
        return Err(InvalidStatus);
      }
      var paid := PayOut(totalAmount, splits, mint, vault, accounts);
      if paid.Err? {
        return Err(paid.error);
      }
      status := Settled;
      settledAt := Some(now);
      return Ok(paid.value);
    }

    /** `refund_escrow`: once the deadline has strictly passed, the payer
        takes the whole amount back, into a token account of the escrow's
        mint that the payer holds; an escrow without a deadline cannot be
        refunded this way. */
    method Refund(caller: Pubkey, payerTokenAccount: TokenAccount, now: I64) returns (r: Result<seq<TokenCall>>)
      modifies this`status, this`refundedAt
      ensures caller != payer ==> r == Err(Unauthorized)
      ensures caller == payer && TokenConstraint(payerTokenAccount, payer, mint).Some? ==>
                r == Err(TokenConstraint(payerTokenAccount, payer, mint).value)
      ensures caller == payer && TokenConstraint(payerTokenAccount, payer, mint) == None
              && old(status) !in {Funded, Approved} ==>
                r == Err(InvalidStatus)
      ensures caller == payer && TokenConstraint(payerTokenAccount, payer, mint) == None
              && old(status) in {Funded, Approved} && deadline.None? ==>
                r == Err(NoDeadlineSet)
      ensures caller == payer && TokenConstraint(payerTokenAccount, payer, mint) == None
              && old(status) in {Funded, Approved} && deadline.Some? && !IsDeadlinePassed(now, deadline.value) ==>
                r == Err(DeadlineNotPassed)
      ensures r.Ok? <==> caller == payer && TokenConstraint(payerTokenAccount, payer, mint) == None
                         && old(status) in {Funded, Approved}
                         && deadline.Some? && IsDeadlinePassed(now, deadline.value)
      ensures r.Ok? ==> payerTokenAccount.owner == payer && payerTokenAccount.mint == mint
      ensures r.Ok? ==> r.value == [Transfer(totalAmount, vault, payerTokenAccount.key)]
      ensures r.Ok? ==> status == Refunded && refundedAt == Some(now) && Step(old(status), status)
      ensures r.Err? ==> status == old(status) && refundedAt == old(refundedAt)
      ensures old(Valid()) ==> Valid()
    {
      if caller != payer {
        return Err(Unauthorized);
      }
      var held := TokenConstraint(payerTokenAccount, payer, mint);
      if held.Some? {
        return Err(held.value);
      }
      if status != Funded && status != Approved {
        return Err(InvalidStatus);
      }
      if deadline.None? {
        return Err(NoDeadlineSet);
      }
      if !IsDeadlinePassed(now, deadline.value) {
        return Err(DeadlineNotPassed);
      }
      var calls := [Transfer(totalAmount, vault, payerTokenAccount.key)];
      status := Refunded;
      refundedAt := Some(now);
      return Ok(calls);
    }

    /** `freeze_escrow`: the payer, the platform admin or any split recipient
        puts a funded or approved escrow into dispute. The status is checked
        before the caller. */
    method Freeze(caller: Pubkey, config: PlatformConfig, now: I64) returns (r: Outcome)
      modifies this`status, this`frozenAt
      ensures old(status) !in {Funded, Approved} ==> r == Fail(InvalidStatus)
      ensures old(status) in {Funded, Approved}
              && !(caller == payer || caller == config.admin || caller in Recipients(splits)) ==>
                r == Fail(Unauthorized)
      ensures r.Pass? <==> old(status) in {Funded, Approved}
                           && (caller == payer || caller == config.admin || caller in Recipients(splits))
      ensures r.Pass? ==> status == Frozen && frozenAt == Some(now) && Step(old(status), status)
      ensures r.Fail? ==> status == old(status) && frozenAt == old(frozenAt)
      ensures old(Valid()) ==> Valid()
    {
      if status != Funded && status != Approved {
        return Fail(InvalidStatus);
      }
      var isRecipient := caller in Recipients(splits);
      if !(caller == payer || caller == config.admin || isRecipient) {
        return Fail(Unauthorized);
      }
      status := Frozen;
      frozenAt := Some(now);
      return Pass;
    }

    /** `admin_refund_to_payer`: the platform admin returns a frozen escrow's
        whole amount to the payer, into a token account of the escrow's mint
        that the payer holds. */
    method AdminRefundToPayer(caller: Pubkey, config: PlatformConfig, payerTokenAccount: TokenAccount, now: I64)
      returns (r: Result<seq<TokenCall>>)
      modifies this`status, this`refundedAt
      ensures caller != config.admin ==> r == Err(Unauthorized)
      ensures caller == config.admin && TokenConstraint(payerTokenAccount, payer, mint).Some? ==>
                r == Err(TokenConstraint(payerTokenAccount, payer, mint).value)
      ensures caller == config.admin && TokenConstraint(payerTokenAccount, payer, mint) == None
              && old(status) != Frozen ==>
                r == Err(InvalidStatus)
      ensures r.Ok? <==> caller == config.admin && TokenConstraint(payerTokenAccount, payer, mint) == None
                         && old(status) == Frozen
      ensures r.Ok? ==> payerTokenAccount.owner == payer && payerTokenAccount.mint == mint
      ensures r.Ok? ==> r.value == [Transfer(totalAmount, vault, payerTokenAccount.key)]
      ensures r.Ok? ==> status == Refunded && refundedAt == Some(now) && Step(old(status), status)
      ensures r.Err? ==> status == old(status) && refundedAt == old(refundedAt)
      ensures old(Valid()) ==> Valid()
    {
      if caller != config.admin {
        return Err(Unauthorized);
      }
      var held := TokenConstraint(payerTokenAccount, payer, mint);
      if held.Some? {
        return Err(held.value);
      }
      if status != Frozen {
        return Err(InvalidStatus);
      }
      var calls := [Transfer(totalAmount, vault, payerTokenAccount.key)];
      status := Refunded;
      refundedAt := Some(now);
      return Ok(calls);
    }

    /** `admin_settle_with_splits`: the platform admin settles a frozen
        escrow by a split set of its own choosing. The stored split set is
        left as it was. */
    method AdminSettleWithSplits(caller: Pubkey, config: PlatformConfig, newSplits: seq<Split>,
                                 accounts: seq<RemainingAccount>, now: I64)
      returns (r: Result<seq<TokenCall>>)
      modifies this`status, this`settledAt
      ensures caller != config.admin ==> r == Err(Unauthorized)
      ensures caller == config.admin && old(status) != Frozen ==> r == Err(InvalidStatus)
      ensures caller == config.admin && old(status) == Frozen && r.Err? ==>
                PayOutRejects(newSplits, mint, vault, accounts, r.error)
      ensures r.Ok? <==> caller == config.admin && old(status) == Frozen
                         && ValidSplits(newSplits) && AccountsMatch(accounts, newSplits, mint, vault)
      ensures r.Ok? ==> r.value == Payouts(SplitAmounts(totalAmount, newSplits), accounts, vault)
      ensures r.Ok? ==> Moved(r.value) == totalAmount
      ensures r.Ok? ==> status == Settled && settledAt == Some(now) && Step(old(status), status)
      ensures r.Err? ==> status == old(status) && settledAt == old(settledAt)
      ensures old(Valid()) ==> Valid()
    {
      if caller != config.admin {
        return Err(Unauthorized);
      }
      if status != Frozen {
        return Err(InvalidStatus);
      }
      var valid := ValidateSplits(newSplits);
      if valid.Fail? {
        return Err(valid.error);
      }
      var paid := PayOut(totalAmount, newSplits, mint, vault, accounts);
      if paid.Err? {
        return Err(paid.error);
      }
      status := Settled;
      settledAt := Some(now);
      return Ok(paid.value);
    }

    /** `cancel_escrow`: the payer closes the empty vault of an unfunded
        escrow, its rent going to the payer. */
    method Cancel(caller: Pubkey, vaultBalance: U64) returns (r: Result<seq<TokenCall>>)
      ensures caller != payer ==> r == Err(Unauthorized)
      ensures caller == payer && status != Created ==> r == Err(InvalidStatus)
      ensures caller == payer && status == Created && vaultBalance != 0 ==> r == Err(VaultNotEmpty)
      ensures r.Ok? <==> caller == payer && status == Created && vaultBalance == 0
      ensures r.Ok? ==> r.value == [CloseAccount(vault, payer)] && Moved(r.value) == 0
    {
      if caller != payer {
        return Err(Unauthorized);
      }
      if status != Created {
        return Err(InvalidStatus);
      }
      if vaultBalance != 0 {
        return Err(VaultNotEmpty);
      }
      var calls := [CloseAccount(vault, payer)];
      assert calls[..0] == [];
      return Ok(calls);
    }

    /** `close_escrow`: the payer closes the empty vault of a settled or
        refunded escrow, its rent going to the payer. */
    method Close(caller: Pubkey, vaultBalance: U64) returns (r: Result<seq<TokenCall>>)
      ensures caller != payer ==> r == Err(Unauthorized)
      ensures caller == payer && !Terminal(status) ==> r == Err(InvalidStatus)
      ensures caller == payer && Terminal(status) && vaultBalance != 0 ==> r == Err(VaultNotEmpty)
      ensures r.Ok? <==> caller == payer && Terminal(status) && vaultBalance == 0
      ensures r.Ok? ==> r.value == [CloseAccount(vault, payer)] && Moved(r.value) == 0
    {
      if caller != payer {
        return Err(Unauthorized);
      }
      if status != Settled && status != Refunded {
        return Err(InvalidStatus);
      }
      if vaultBalance != 0 {
        return Err(VaultNotEmpty);
      }
      var calls := [CloseAccount(vault, payer)];
      assert calls[..0] == [];
      return Ok(calls);
    }
  }

  /** A valid frozen, settled or refunded record was funded. */
  lemma ResolvedWasFunded(e: EscrowAccount)
    requires e.Valid() && e.status in {Frozen, Settled, Refunded}
    ensures e.fundedAt.Some?
  {
  }
}
