/** The payout step shared by `settle_escrow` and `admin_settle_with_splits`:
    compute the split amounts, check the caller-supplied destination token
    accounts position by position, then issue one transfer out of the vault
    per split with a non-zero amount. */
module Settlement {
  import opened Base
  import opened FeeMath
  import opened Splits

  /** A destination passed as a remaining account: its address, whether it was
      passed writable, whether the token program owns it, and the mint and
      owner recorded in its token-account data. */
  datatype RemainingAccount = RemainingAccount(
    key: Pubkey,
    isWritable: bool,
    ownedByTokenProgram: bool,
    mint: Pubkey,
    owner: Pubkey)

  function Keys(accounts: seq<RemainingAccount>): set<Pubkey>
  {
    set i | 0 <= i < |accounts| :: accounts[i].key
  }

  /** The error the i-th destination raises, given those before it, in the
      order the checks are made; None when it passes. */
  function AccountError(accounts: seq<RemainingAccount>, splits: seq<Split>, mint: Pubkey,
                        vault: Pubkey, i: nat): Option<EscrowError>
    requires i < |accounts| && i < |splits|
  {
    var a := accounts[i];
    if !a.isWritable then Some(Unauthorized)
    else if a.key in Keys(accounts[..i]) then Some(DuplicateAccounts)
    else if a.key == vault then Some(DuplicateAccounts)
    else if !a.ownedByTokenProgram then Some(InvalidVault)
    else if a.mint != mint then Some(InvalidMint)
    else if a.owner != splits[i].recipient then Some(InvalidRecipientTokenAccount)
    else None
  }

  /** The destinations an honest caller supplies: one per split, all writable
      token accounts of the escrow's mint, pairwise distinct, none of them the
      vault, the i-th owned by the i-th recipient. */
  predicate AccountsMatch(accounts: seq<RemainingAccount>, splits: seq<Split>, mint: Pubkey, vault: Pubkey)
  {
    && |accounts| == |splits|
    && (forall i :: 0 <= i < |accounts| ==>
          && accounts[i].isWritable
          && accounts[i].ownedByTokenProgram
          && accounts[i].key != vault
          && accounts[i].mint == mint
          && accounts[i].owner == splits[i].recipient)
    && (forall i, j :: 0 <= i < j < |accounts| ==> accounts[i].key != accounts[j].key)
  }

  /** `e` is the error of the first destination that fails. */
  predicate FirstAccountError(accounts: seq<RemainingAccount>, splits: seq<Split>, mint: Pubkey,
                              vault: Pubkey, e: EscrowError)
    requires |accounts| == |splits|
  {
    exists k :: 0 <= k < |accounts| && AccountError(accounts, splits, mint, vault, k) == Some(e)
      && forall j :: 0 <= j < k ==> AccountError(accounts, splits, mint, vault, j) == None
  }

  /** Position-by-position checks pass exactly when the destinations match. */
  lemma AccountErrorsMatch(accounts: seq<RemainingAccount>, splits: seq<Split>, mint: Pubkey, vault: Pubkey)
    requires |accounts| == |splits|
    ensures (forall i :: 0 <= i < |accounts| ==> AccountError(accounts, splits, mint, vault, i) == None)
        <==> AccountsMatch(accounts, splits, mint, vault)
  {
    if forall i :: 0 <= i < |accounts| ==> AccountError(accounts, splits, mint, vault, i) == None {
      forall i, j | 0 <= i < j < |accounts|
        ensures accounts[i].key != accounts[j].key
      {
        assert AccountError(accounts, splits, mint, vault, j) == None;
        assert accounts[..j][i] == accounts[i];
      }
      forall i | 0 <= i < |accounts|
        ensures accounts[i].isWritable && accounts[i].ownedByTokenProgram && accounts[i].key != vault
        ensures accounts[i].mint == mint && accounts[i].owner == splits[i].recipient
      {
        assert AccountError(accounts, splits, mint, vault, i) == None;
      }
    }
    if AccountsMatch(accounts, splits, mint, vault) {
      forall i | 0 <= i < |accounts|
        ensures AccountError(accounts, splits, mint, vault, i) == None
      {
        NotInEarlierKeys(accounts, i);
      }
    }
  }

  lemma NotInEarlierKeys(accounts: seq<RemainingAccount>, i: nat)
    requires i < |accounts|
    requires forall j :: 0 <= j < i ==> accounts[j].key != accounts[i].key
    ensures accounts[i].key !in Keys(accounts[..i])
  {
    forall k | k in Keys(accounts[..i]) ensures k != accounts[i].key {
      var j :| 0 <= j < i && accounts[..i][j].key == k;
      assert accounts[j].key == k;
    }
  }

  /** The destination-checking loop: a set of keys seen so far, and the
      checks of each destination in order. */
  method CheckAccounts(accounts: seq<RemainingAccount>, splits: seq<Split>, mint: Pubkey, vault: Pubkey)
    returns (r: Outcome)
    requires |accounts| == |splits|
    ensures r.Pass? <==> AccountsMatch(accounts, splits, mint, vault)
    ensures r.Fail? ==> FirstAccountError(accounts, splits, mint, vault, r.error)
  {
    AccountErrorsMatch(accounts, splits, mint, vault);
    var seen: set<Pubkey> := {};
    var i := 0;
    while i < |accounts|
      invariant 0 <= i <= |accounts|
      invariant seen == Keys(accounts[..i])
      invariant forall j :: 0 <= j < i ==> AccountError(accounts, splits, mint, vault, j) == None
    {
      var a := accounts[i];
      assert accounts[..i + 1] == accounts[..i] + [a];
      if !a.isWritable {
        assert AccountError(accounts, splits, mint, vault, i) == Some(Unauthorized);
        return Fail(Unauthorized);
      }
      if a.key in seen {
        assert AccountError(accounts, splits, mint, vault, i) == Some(DuplicateAccounts);
        return Fail(DuplicateAccounts);
      }
      seen := seen + {a.key};
      if a.key == vault {
        assert AccountError(accounts, splits, mint, vault, i) == Some(DuplicateAccounts);
        return Fail(DuplicateAccounts);
      }
      if !a.ownedByTokenProgram {
        assert AccountError(accounts, splits, mint, vault, i) == Some(InvalidVault);
        return Fail(InvalidVault);
      }
      if a.mint != mint {
        assert AccountError(accounts, splits, mint, vault, i) == Some(InvalidMint);
        return Fail(InvalidMint);
      }
      if a.owner != splits[i].recipient {
        assert AccountError(accounts, splits, mint, vault, i) == Some(InvalidRecipientTokenAccount);
        return Fail(InvalidRecipientTokenAccount);
      }
      i := i + 1;
    }
    return Pass;
  }

  /** The transfers out of `vault` that pay `amounts` to the destinations,
      skipping zero amounts. */
  function Payouts(amounts: seq<U64>, accounts: seq<RemainingAccount>, vault: Pubkey): seq<TokenCall>
    requires |amounts| == |accounts|
  {
    if |amounts| == 0 then []
    else
      var n := |amounts| - 1;
      Payouts(amounts[..n], accounts[..n], vault)
        + (if amounts[n] == 0 then [] else [Transfer(amounts[n], vault, accounts[n].key)])
  }

  /** The payouts move exactly the sum of the amounts. */
  lemma {:induction false} PayoutsMoveAmounts(amounts: seq<U64>, accounts: seq<RemainingAccount>, vault: Pubkey)
    requires |amounts| == |accounts|
    ensures Moved(Payouts(amounts, accounts, vault)) == Sum(amounts)
  {
    if |amounts| > 0 {
      var n := |amounts| - 1;
      var init := Payouts(amounts[..n], accounts[..n], vault);
      PayoutsMoveAmounts(amounts[..n], accounts[..n], vault);
      if amounts[n] != 0 {
        var last := [Transfer(amounts[n], vault, accounts[n].key)];
        assert (init + last)[..|init + last| - 1] == init;
      } else {
        assert init + [] == init;
      }
    }
  }

  /** Every payout is a non-zero transfer out of the vault to one of the
      destinations. */
  lemma {:induction false} PayoutsFromVault(amounts: seq<U64>, accounts: seq<RemainingAccount>, vault: Pubkey)
    requires |amounts| == |accounts|
    ensures forall c :: c in Payouts(amounts, accounts, vault) ==>
              c.Transfer? && c.amount > 0 && c.from == vault && c.to in Keys(accounts)
  {
    if |amounts| > 0 {
      var n := |amounts| - 1;
      PayoutsFromVault(amounts[..n], accounts[..n], vault);
      assert Keys(accounts[..n]) <= Keys(accounts) by {
        forall k | k in Keys(accounts[..n]) ensures k in Keys(accounts) {
          var j :| 0 <= j < n && accounts[..n][j].key == k;
          assert accounts[j].key == k;
        }
      }
    }
  }

  /** The per-split transfer loop: one transfer out of the vault per
      non-zero amount, to the destination at the same position. */
  method IssuePayouts(amounts: seq<U64>, accounts: seq<RemainingAccount>, vault: Pubkey)
    returns (calls: seq<TokenCall>)
    requires |amounts| == |accounts|
    ensures calls == Payouts(amounts, accounts, vault)
  {
    calls := [];
    for i := 0 to |amounts|
      invariant calls == Payouts(amounts[..i], accounts[..i], vault)
    {
      assert amounts[..i + 1][..i] == amounts[..i];
      assert accounts[..i + 1][..i] == accounts[..i];
      if amounts[i] == 0 {
        continue;
      }
      calls := calls + [Transfer(amounts[i], vault, accounts[i].key)];
    }
    assert amounts[..|amounts|] == amounts;
    assert accounts[..|amounts|] == accounts;
  }

  /** The errors a payout may fail with, in the order they are checked: the
      split set, then the destination count, then the first destination that
      fails its checks. */
  predicate PayOutRejects(splits: seq<Split>, mint: Pubkey, vault: Pubkey, accounts: seq<RemainingAccount>,
                          e: EscrowError)
  {
    || (!ValidSplits(splits) && e == InvalidSplits)
    || (ValidSplits(splits) && |accounts| != |splits| && e == InvalidRemainingAccounts)
    || (ValidSplits(splits) && |accounts| == |splits| && FirstAccountError(accounts, splits, mint, vault, e))
  }

  /** Compute the amounts, check the destinations, then issue the transfers:
      every check happens before the first transfer, so a failure issues
      nothing. On success the transfers move exactly `total`. */
  method PayOut(total: U64, splits: seq<Split>, mint: Pubkey, vault: Pubkey, accounts: seq<RemainingAccount>)
    returns (r: Result<seq<TokenCall>>)
    ensures r.Ok? <==> ValidSplits(splits) && AccountsMatch(accounts, splits, mint, vault)
    ensures !ValidSplits(splits) ==> r == Err(InvalidSplits)
    ensures ValidSplits(splits) && |accounts| != |splits| ==> r == Err(InvalidRemainingAccounts)
    ensures ValidSplits(splits) && |accounts| == |splits| && r.Err? ==>
              FirstAccountError(accounts, splits, mint, vault, r.error)
    ensures r.Err? ==> PayOutRejects(splits, mint, vault, accounts, r.error)
    ensures r.Ok? ==> |splits| >= 1 && r.value == Payouts(SplitAmounts(total, splits), accounts, vault)
    ensures r.Ok? ==> Moved(r.value) == total
  {
    var computed := ComputeSplitAmounts(total, splits);
    if computed.Err? {
      return Err(computed.error);
    }
    var amounts := computed.value;
    if |accounts| != |splits| {
      return Err(InvalidRemainingAccounts);
    }
    var checked := CheckAccounts(accounts, splits, mint, vault);
    if checked.Fail? {
      return Err(checked.error);
    }
    var calls := IssuePayouts(amounts, accounts, vault);
    PayoutsTotal(total, splits, accounts, vault);
    return Ok(calls);
  }

  /** On a valid split set the payouts move exactly `total` out of the vault. */
  lemma PayoutsTotal(total: U64, splits: seq<Split>, accounts: seq<RemainingAccount>, vault: Pubkey)
    requires ValidSplits(splits) && |accounts| == |splits|
    ensures Moved(Payouts(SplitAmounts(total, splits), accounts, vault)) == total
  {
    SplitAmountsConserve(total, splits);
    PayoutsMoveAmounts(SplitAmounts(total, splits), accounts, vault);
  }
}
