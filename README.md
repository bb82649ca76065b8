# Escrow settlement engine, modelled in Dafny

This project models the settlement engine of a Solana escrow program. It
covers five parts:

- **Fee and split arithmetic.** A platform fee is taken in basis points of an
  amount. A split set of 1 to 8 recipients, with distinct recipients and
  weights summing to 10,000 bps, divides an escrowed total. Every recipient
  except the last gets the rounded-down share. The last gets the remainder.
- **The escrow record.** Its lifecycle is Created → Funded → (Approved) →
  Settled or Refunded, with a Frozen dispute hold that an admin resolves. A
  settlement checks one token account per split, in order, and pays each
  split its amount.
- **The pool escrow record.** It is funded once with
  `payment × max_releases + fee(payment × max_releases)`. A release
  authority then draws metered releases of `payment + fee(payment)`, until the
  release count or the funds run out. The client closes the pool and gets
  back what is left.
- **The platform configuration.** It holds the admin, the treasury and the
  pause flag, with a two-step admin transfer (propose, then accept).
- **The test suite's reference models.** These are a five-state transition
  table, a two-party basis-point split, admin dispute resolutions on a
  fixed-amount escrow, deadline validation, and the admin-transfer model.

Each instruction of the program is one method:

- Inputs are the caller's key, the clock's `now`, and the keys and facts
  about the accounts the instruction is given.
- A method changes only the record fields the instruction writes (its
  `modifies` frames name those fields).
- On success it returns the token-program calls it would issue, as a sequence
  of `TokenCall` values.
- On failure it returns the error and leaves the record unchanged, because a
  failed Solana transaction rolls back as a whole.

The account constraints Anchor checks before an instruction body runs are
checked first, in the model's code too. Examples are `has_one = payer`, and
the `token::authority` and `token::mint` constraints on the token accounts an
instruction pays from or into. A token account named in an account context
is a `TokenAccount` value: its key, its owner and its mint. A failed
`token::authority` gives Anchor's ConstraintTokenOwner and a failed
`token::mint` its ConstraintTokenMint, so every refund, fund and close
contract states that the account used is held by the payer (or client) and
is of the record's mint.

Integers are unbounded in Dafny. The program's `u16`, `u64` and `i64` fields
are subset types with their exact ranges. Each `checked_*` operation of the
program is either written out with its `Overflow` error path or proved
unable to overflow. Four are of the second kind:

- the `sum.checked_add` of `validate_splits` (src/lib.rs:700), since at most
  8 weights of at most 10,000 each are added, far below the u32 limit;
- the `checked_sub` of `compute_split_amounts` (src/lib.rs:715), since the
  leading shares sum to at most the total (Splits.FirstsFit);
- its `allocated.checked_add` (src/lib.rs:726), for the same reason;
- its closing `try_fold` (src/lib.rs:730), since the amounts sum to exactly
  the total (Splits.SplitAmountsConserve).

In these four the model uses plain arithmetic whose range the verifier
proves.

Files:

- `base.dfy`: widths, constants, error codes, and the `Result`, `Outcome`,
  `TokenAccount` and `TokenCall` types.
- `fee_math.dfy`: `calculate_fee` and the floor-share lemmas.
- `splits.dfy`: `validate_splits` and `compute_split_amounts`.
- `settlement.dfy`: the remaining-account checks and the payout loop shared by
  `settle` and `admin_settle_with_splits`.
- `deadlines.dfy`: deadline validation and the passed-deadline test.
- `config.dfy`: the configuration instructions.
- `escrow.dfy`: the escrow record and its instructions.
- `pool.dfy`: the pool record and its instructions.
- `dispute_model.dfy`: the test suite's reference lifecycle and dispute
  models.
- `scenarios.dfy`: two end-to-end runs.

## Model

| member | source | states |
|---|---|---|
| FeeMath.CalculateFee | src/lib.rs:677-688 | The fee is floor(amount × bps / 10000). The result is Ok exactly when that fits in u64; otherwise it is Overflow. |
| FeeMath.FeeWithinAmount | src/lib.rs:677-688 | At a rate of at most 10,000 bps the fee never fails and never exceeds the amount. |
| FeeMath.BpsShare | src/lib.rs:677-688 | The share r is the floor quotient: r·10000 ≤ amount·bps < (r+1)·10000. |
| FeeMath.ShareAtMost | src/lib.rs:677-688 | A share at no more than 100% is at most the amount. |
| FeeMath.ShareExtremes | tests/escrow_tests.rs:27-48 | 0 bps gives 0; 10,000 bps gives the whole amount. |
| FeeMath.ShareMonotonic | src/lib.rs:677-688 | The fee does not decrease as the rate rises. |
| FeeMath.ShareSuperadditive | src/lib.rs:708-733 | The floor shares of two weights add up to no more than the share of their sum. This is why the rounded shares never exceed the total. |
| FeeMath.ShareScaled | src/lib.rs:509-513 | n single-release fees are at most the fee on n times the payment, and fall short of it by less than n. |
| Splits.ValidateSplits | src/lib.rs:690-706 | The result is Pass exactly when the set has 1..8 entries, no default recipient, no weight above 10,000, distinct recipients, and weights summing to exactly 10,000. Every failure is InvalidSplits. |
| Splits.SplitAmounts | src/lib.rs:708-733 | One amount per split. For a valid set each amount lies in [0, total]. |
| Splits.FirstsFit | src/lib.rs:711-726 | For a valid set, the amounts before the last add up to no more than the total. So the last recipient's subtraction does not underflow. |
| Splits.SharesSumAtMost | src/lib.rs:720-727 | The floor shares sum to at most the share of the summed weights. |
| Splits.SplitAmountsConserve | src/lib.rs:708-733 | For a valid set the amounts sum exactly to the total. Each lies in [0, total]. |
| Splits.SharesBounds | src/lib.rs:720-727 | The floored shares of the leading splits lose less than one unit each: 10000·Σshares ≤ total·Σbps ≤ 10000·Σshares + 9999·count. |
| Splits.LastShareBias | src/lib.rs:713-733 | For a valid set the last recipient, who takes the remainder, gets at least its own floor share and at most split count − 1 more. |
| Splits.ComputeSplitAmounts | src/lib.rs:708-733 | It re-validates the set: InvalidSplits exactly when the set is invalid. Otherwise it returns the amounts the loop computes: floor shares, with the remainder to the last recipient. |
| Splits.TwoWayExample | src/lib.rs:1384-1396 | A 90/10 split of 100 USDC gives 90 and 10 USDC. |
| Splits.ThreeWayExample | src/lib.rs:1398-1411 | A 90/7/3 split of 100 USDC gives 90, 7 and 3 USDC. |
| Splits.RoundingExample | src/lib.rs:1414-1425 | A 3333/3333/3334 split of 100 units gives 33, 33 and 34. The remainder goes to the last. |
| Settlement.AccountErrorsMatch | src/lib.rs:200-217 | No per-account error anywhere is the same as the accounts matching. They match when keys are distinct and not the vault, and each account is writable, owned by the token program, of the escrow's mint, and held by its split's recipient. |
| Settlement.CheckAccounts | src/lib.rs:200-217 | The loop passes exactly when the accounts match the splits. Otherwise it fails with the first offending account's first error. The checks run in the order Unauthorized (not writable), DuplicateAccounts, InvalidVault (not a token account), InvalidMint, InvalidRecipientTokenAccount. |
| Settlement.PayoutsMoveAmounts | src/lib.rs:231-248 | The transfer loop moves exactly the sum of the amounts. |
| Settlement.PayoutsFromVault | src/lib.rs:231-248 | Every transfer the loop issues is non-zero, leaves the vault, and goes to one of the supplied destinations. |
| Settlement.IssuePayouts | src/lib.rs:231-248 | The loop issues the transfers that Payouts describes, in split order. |
| Settlement.PayOut | src/lib.rs:198-248 | The result is Ok exactly when the splits are valid and the accounts match. The errors, in order, are InvalidSplits, InvalidRemainingAccounts on a count mismatch, then the first account error. On success it moves exactly the total. |
| Settlement.PayoutsTotal | src/lib.rs:231-248 | Paying out the split amounts of a valid set moves exactly the total. |
| Deadlines.ValidateDeadline | tests/escrow_tests.rs:369-379 | The result is Pass exactly when now < deadline ≤ now + one year and that sum fits in i64. The errors are DeadlineInPast, Overflow and DeadlineTooFar, in that order. |
| Deadlines.ValidateOptionalDeadline | src/lib.rs:123-128 | Passes exactly when there is no deadline, or the deadline is after now, now + one year fits in i64 and the deadline is at most now + one year. A deadline at or before now is DeadlineInPast; otherwise an overflowing now + one year is Overflow; otherwise a later deadline is DeadlineTooFar. |
| Deadlines.WindowBounds | tests/escrow_tests.rs:382-418 | now+1 and now+one year are accepted. now is DeadlineInPast. now+one year+1 is DeadlineTooFar. |
| Deadlines.AcceptedWithinYear | tests/escrow_tests.rs:369-379 | Every accepted deadline lies in (now, now + 31,536,000]. |
| Deadlines.WindowExamples | tests/escrow_tests.rs:390-426 | At now = 1.7e9, one second in the past is DeadlineInPast and a hundred years ahead is DeadlineTooFar. |
| Deadlines.DeadlineStrict | tests/escrow_tests.rs:208-228 | The passed test is strict: the deadline itself has not passed; one second later it has. |
| Config.PlatformConfig.Initialize | src/lib.rs:52-61 | A default treasury fails with InvalidTreasury. Otherwise the config has the caller as admin, is unpaused, and has no pending admin. |
| Config.PlatformConfig.UpdateConfig | src/lib.rs:64-78 | Unauthorized for anyone but the admin. InvalidTreasury for a default treasury. Otherwise it sets exactly the supplied fields, and the admin and pending admin are untouched. |
| Config.PlatformConfig.ProposeAdmin | src/lib.rs:81-86 | Only the admin may propose, and only a non-default key (InvalidAdmin). Success records it as pending and leaves the admin alone. |
| Config.PlatformConfig.AcceptAdmin | src/lib.rs:89-96 | NoPendingAdmin without a proposal, Unauthorized for anyone but the proposed key. Success makes the caller admin and clears the proposal. |
| Config.PlatformConfig.CancelAdminTransfer | src/lib.rs:99-104 | Only the admin may cancel, and only a pending transfer (NoPendingAdmin). Success clears it. |
| Config.HandOver | tests/escrow_tests.rs:790-882 | Propose then accept hands the admin role to the new key. A second accept by the same key then fails with NoPendingAdmin, and the old admin's re-proposal fails with Unauthorized. |
| Escrow.Rank | src/lib.rs:810 | A progress measure over the six statuses, defined by the model for StepGoesForward and RunGoesForward. Rank 0 is Created alone; rank 4 is Settled and Refunded alone. |
| Escrow.StepGoesForward | src/lib.rs:173-416 | Every status change the instructions make raises the rank. Nothing leaves Settled or Refunded, and nothing returns to Created. |
| Escrow.RunGoesForward | src/lib.rs:173-416 | Along any run of status changes the status never repeats and never goes back. |
| Escrow.EscrowAccount.Create | src/lib.rs:112-151 | The errors, in order: PlatformPaused, AmountTooSmall, the deadline errors, InvalidSplits. Success gives a fresh Created record holding the given fields and satisfying the record invariant. |
| Escrow.EscrowAccount.Fund | src/lib.rs:154-170 | Only the payer (Unauthorized). Then the context's payer token account must be held by the payer (ConstraintTokenOwner) and be of the escrow's mint (ConstraintTokenMint), as src/lib.rs:985 requires. Only from Created (InvalidStatus). Success requests one transfer of the whole total from that account into the vault and moves to Funded. |
| Escrow.EscrowAccount.Approve | src/lib.rs:173-180 | Only the payer, only from Funded. Success moves to Approved with its timestamp. |
| Escrow.EscrowAccount.Settle | src/lib.rs:184-254 | Only the payer, only from Funded or Approved. Then the payout checks, where a stored valid split set never yields InvalidSplits. Success pays SplitAmounts, moves exactly the total, and marks the record Settled. A failure changes nothing. |
| Escrow.EscrowAccount.Refund | src/lib.rs:257-291 | Only the payer. The destination must be held by the payer and be of the escrow's mint (src/lib.rs:1034): ConstraintTokenOwner, then ConstraintTokenMint. Only from Funded or Approved. NoDeadlineSet without a deadline; DeadlineNotPassed unless now > deadline. Success returns the whole total to that payer-held account and marks Refunded. |
| Escrow.EscrowAccount.Freeze | src/lib.rs:298-313 | The status is checked first (Funded or Approved), then the caller: the payer, the admin or a split recipient. Success marks Frozen. |
| Escrow.EscrowAccount.AdminRefundToPayer | src/lib.rs:316-345 | Only the admin. The destination must be held by the escrow's payer and be of its mint (src/lib.rs:1067): ConstraintTokenOwner, then ConstraintTokenMint. Only from Frozen. Success returns the whole total to that payer-held account and marks Refunded. |
| Escrow.EscrowAccount.AdminSettleWithSplits | src/lib.rs:348-416 | Only the admin, only from Frozen. The admin's split set is validated and the accounts are checked against it. Success pays the new split's amounts, moves exactly the total, and marks Settled. |
| Escrow.EscrowAccount.Cancel | src/lib.rs:419-446 | Only the payer, only from Created, only with an empty vault (VaultNotEmpty). Success closes the vault to the payer and moves nothing. |
| Escrow.EscrowAccount.Close | src/lib.rs:449-479 | Only the payer, only from Settled or Refunded, only with an empty vault. Success closes the vault to the payer. |
| Escrow.ResolvedWasFunded | src/lib.rs:768-786 | A valid record that is Frozen, Settled or Refunded has a funding time. |
| Pool.PoolBudget | src/lib.rs:509-513 | The budget is payment × max + fee(payment × max). It fails with Overflow exactly when a checked step overflows. |
| Pool.ReleasesFit | src/lib.rs:569-579 | Any number of releases up to max_releases costs at most the funded budget. |
| Pool.ReleaseArithmetic | src/lib.rs:569-626 | Before the last release, one more release still fits in the budget. Its cost is at least its fee and at most the budget. |
| Pool.MeteredStep | src/lib.rs:569-626 | On a metered pool with releases left, one more release is affordable, and afterwards the pool is metered again with one more release counted. |
| Pool.LeftoverAfterAllReleases | src/lib.rs:631-669 | After all releases the client's refund is in [0, max_releases). That is the rounding the per-release fee loses. |
| Pool.FiveWorkerBudget | src/lib.rs:509-513 | Five 1 USDC payments at 10% fund 5.5 USDC, and one release costs 1.1 USDC. |
| Pool.PoolEscrowAccount.Create | src/lib.rs:486-535 | The errors, in order: PlatformPaused, AmountTooSmall, InvalidMaxReleases, InvalidPercentage, InvalidReleaseAuthority, the deadline errors, Overflow. Success gives a fresh Created pool whose budget is PoolBudget and that satisfies the metering invariant. |
| Pool.PoolEscrowAccount.Fund | src/lib.rs:538-554 | Only the client. The source must be held by the client and be of the pool's mint (src/lib.rs:1172): ConstraintTokenOwner, then ConstraintTokenMint. Only from Created. Success requests the whole budget from that account into the vault and moves to Funded. |
| Pool.PoolEscrowAccount.PartialRelease | src/lib.rs:557-628 | It fails with the first rejection ReleaseRejection names. These are the account constraints of src/lib.rs:1192-1203 (distinct worker and treasury accounts, the worker account of the pool's mint, the treasury account held by the configured treasury and of the pool's mint), then the caller, the status, the deadline and max releases. When none applies and the cost fits in u64, it fails with InsufficientFunds exactly when the unreleased funds are below payment + fee. On a valid pool no release within max releases is refused for funds. Success pays the worker and the treasury from accounts of the pool's mint, the treasury's held by the configured treasury (never the default key on a valid configuration). It moves exactly payment + fee and counts one more release. The invariant `released ≤ funded`, `count ≤ max` is kept. |
| Pool.PoolEscrowAccount.ClosePool | src/lib.rs:631-669 | Only the client. The destination must be held by the client and be of the pool's mint (src/lib.rs:1223): ConstraintTokenOwner, then ConstraintTokenMint. Only from Funded or Active. Success refunds exactly funded − released to that client-held account and marks Closed. On a valid pool it never underflows. |
| Pool.MovedRelease | src/lib.rs:590-616 | A release's calls move the worker amount plus the fee. |
| DisputeModel.TableGoesForward | tests/escrow_tests.rs:74-111 | The table has only forward edges and nothing out of Released or Refunded. Created leads only to Funded. |
| DisputeModel.ProgramFollowsTable | tests/escrow_tests.rs:74-88 | Every program status change other than approval is a table edge. Every table edge is made by some program status change. |
| DisputeModel.CalculateSplitBps | tests/escrow_tests.rs:123-133 | Defined exactly up to 100%. The worker gets the floor share and the two parts add up to the amount. |
| DisputeModel.SplitExtremes | tests/escrow_tests.rs:144-157 | 0% gives everything to the client; 100% gives everything to the worker. |
| DisputeModel.HalfSplitEven | tests/escrow_tests.rs:159-165 | An even amount split at 50% gives both parties the same. |
| DisputeModel.SplitExamples | tests/escrow_tests.rs:599-627 | A 50% and a 70% split of 10 USDC give 5/5 and 7/3 USDC. |
| DisputeModel.TwoWaySettlementMatches | src/lib.rs:708-733 | A two-entry split set in the program divides an amount exactly as the reference split does. |
| DisputeModel.DisputedEscrow.AdminReleaseToWorker | tests/escrow_tests.rs:508-518 | Only from Frozen (InvalidStatus), only if funded (NotFunded). Success pays the whole amount to the worker along a table edge. |
| DisputeModel.DisputedEscrow.AdminRefundToClient | tests/escrow_tests.rs:520-530 | Only from Frozen, only if funded. Success refunds the whole amount along a table edge. |
| DisputeModel.DisputedEscrow.AdminSplitFunds | tests/escrow_tests.rs:532-546 | Only from Frozen, only if funded, only up to 100% (InvalidPercentage). Success divides the whole amount as CalculateSplitBps does. |
| Scenarios.FiveWorkerPool | src/lib.rs:557-628 | A 5 × 1 USDC pool at 10% funds 5.5 USDC. Five releases of 1.1 USDC empty it exactly. A sixth is MaxReleasesReached. |
| Scenarios.RefundAroundDeadline | src/lib.rs:257-291 | A refund at the deadline is DeadlineNotPassed. One second later it returns the whole 50 USDC. |

## Left out

- Token-program calls are not executed. The model returns them as
  `TokenCall` values (transfer amount, source, destination; account close).
  Whether a transfer succeeds depends on balances the model does not track.
- The only part of a vault's balance the model uses is the balance passed to
  cancel and close.
- The clock is the `now` parameter. Signer verification is the `caller`
  parameter.
- Program-derived addresses, seeds, bumps and account sizes are not
  modelled. Neither is Anchor's `init` and rent.
- Account keys are natural numbers, with 0 standing for the default key.
- Token accounts that fail to deserialize are not modelled. Each remaining
  account is given as already-read facts: key, writable flag, owning program,
  mint and owner.
- The `has_one = vault` and `has_one = mint` constraints are not modelled.
  No such mismatch can be expressed, because a record's vault and mint are
  the ones it is given. The vault's own `seeds` constraint is not modelled
  either.
- The order of Anchor's generated checks is not part of this repository.
  The model assumes three things about it:
  - accounts are validated in the order their fields are declared;
  - within a field, a `constraint = …` comes before its `token::` checks;
  - `token::authority` is compared before `token::mint`.
- Reclaiming the record account itself (`close = payer`, `close = client`) is
  not modelled. Only the vault's `CloseAccount` call is.
- Event emission, `msg!` logging and error messages are left out. Errors are
  a closed enumeration.
- The floating-point property tests in the test files are not modelled,
  because floating point is outside the model.
- The randomized property tests and their input generators are not modelled.
  Their pool fee rounding bound appears as FeeMath.ShareScaled and
  Pool.LeftoverAfterAllReleases.
- The test suite's authorization helpers and duplicate-account helpers are
  not separate members. Their checks appear as the guards in the
  instruction bodies that return Unauthorized, and in the account checks.
- The program has no NotFunded check on admin overrides. The documented
  design asks for one. The model follows the code and proves instead that a
  valid Frozen record was always funded (Escrow.ResolvedWasFunded).
- The reference dispute model charges no platform fee. Its resolutions divide
  the whole escrowed amount. This is the one fee policy the model uses.
- Deadlines.ValidateDeadline: computing now + one year may overflow i64.
  That case returns Overflow, as the code does, although every later deadline
  would be out of range anyway.
- Pool records have no freeze or dispute path, and none is added.
- Pool.PoolEscrowAccount.PartialRelease: a per-call zero worker amount
  cannot occur, because the payment is at least the minimum. The model keeps
  the code's skip of a zero fee transfer.
