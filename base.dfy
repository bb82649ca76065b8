/** Shared vocabulary of the settlement engine: fixed-width integers, account
    identities, the closed error type, and the token-program calls the engine
    asks the host ledger to perform. */
module Base {

  const U16_MAX: int := 0xFFFF
  const U32_MAX: int := 0xFFFF_FFFF
  const U64_MAX: int := 0xFFFF_FFFF_FFFF_FFFF
  const U128_MAX: int := 0xFFFF_FFFF_FFFF_FFFF_FFFF_FFFF_FFFF_FFFF
  const I64_MIN: int := -0x8000_0000_0000_0000
  const I64_MAX: int := 0x7FFF_FFFF_FFFF_FFFF

  type U16 = x: int | 0 <= x <= U16_MAX
  type U32 = x: int | 0 <= x <= U32_MAX
  type U64 = x: int | 0 <= x <= U64_MAX
  type I64 = x: int | I64_MIN <= x <= I64_MAX

  /** Protocol constants. */
  const MIN_ESCROW_AMOUNT: U64 := 1_000_000
  const BPS_DENOMINATOR: U16 := 10_000
  const MAX_POOL_WORKERS: U64 := 10_000
  const MAX_ESCROW_DURATION: I64 := 365 * 24 * 60 * 60
  const MAX_SPLITS: nat := 8

  /** An account identity. Keys are compared only for equality; 0 stands for
      the all-zero default key. */
  type Pubkey = nat
  const DEFAULT_PUBKEY: Pubkey := 0

  /** Rust's truncating `x as u64` conversion. */
  function AsU64(x: nat): (r: U64)
    ensures x <= U64_MAX ==> r == x
  {
    x % (U64_MAX + 1)
  }

  /** The program's error codes, plus NotFunded, which only the fixed-fee
      dispute model raises, and the two errors Anchor itself raises for a
      failed `token::authority` or `token::mint` account constraint. */
  datatype EscrowError =
    | InvalidStatus
    | Unauthorized
    | InsufficientFunds
    | DeadlineNotPassed
    | NoDeadlineSet
    | InvalidPercentage
    | AmountTooSmall
    | Overflow
    | PlatformPaused
    | InvalidVault
    | InvalidMint
    | InvalidTreasury
    | VaultNotEmpty
    | InvalidAdmin
    | NoPendingAdmin
    | DeadlineInPast
    | DeadlineTooFar
    | DuplicateAccounts
    | InvalidMaxReleases
    | MaxReleasesReached
    | InvalidReleaseAuthority
    | DeadlinePassed
    | InvalidSplits
    | InvalidRecipientTokenAccount
    | InvalidRemainingAccounts
    | NotFunded
    | ConstraintTokenOwner
    | ConstraintTokenMint

  datatype Option<T> = None | Some(value: T)

  datatype Result<T> = Ok(value: T) | Err(error: EscrowError)

  /** The result of an operation that returns nothing on success. */
  datatype Outcome = Pass | Fail(error: EscrowError)

  /** A token account named in an instruction's account context: its address
      and the owner and mint recorded in its token-account data. */
  datatype TokenAccount = TokenAccount(key: Pubkey, owner: Pubkey, mint: Pubkey)

  /** The error of the constraint `token::mint = mint, token::authority =
      owner` on `a`, or None when `a` is held by `owner` and of mint `mint`;
      Anchor compares the owner first. */
  function TokenConstraint(a: TokenAccount, owner: Pubkey, mint: Pubkey): (r: Option<EscrowError>)
    ensures r == None <==> a.owner == owner && a.mint == mint
    ensures a.owner != owner ==> r == Some(ConstraintTokenOwner)
    ensures a.owner == owner && a.mint != mint ==> r == Some(ConstraintTokenMint)
  {
    if a.owner != owner then Some(ConstraintTokenOwner)
    else if a.mint != mint then Some(ConstraintTokenMint)
    else None
  }

  /** A request to the token program: move `amount` from one token account to
      another, or close a (drained) token account, sending its rent to
      `destination`. */
  datatype TokenCall =
    | Transfer(amount: U64, from: Pubkey, to: Pubkey)
    | CloseAccount(account: Pubkey, destination: Pubkey)

  /** Total amount moved by a list of token calls. */
  function Moved(calls: seq<TokenCall>): nat
  {
    if |calls| == 0 then 0
    else Moved(calls[..|calls| - 1]) + (match calls[|calls| - 1]
                                       case Transfer(a, _, _) => a
                                       case CloseAccount(_, _) => 0)
  }

  /** Sum of a sequence of amounts, accumulated from the left as the source's
      loops do. */
  function Sum(s: seq<int>): int
  {
    if |s| == 0 then 0 else Sum(s[..|s| - 1]) + s[|s| - 1]
  }

  lemma {:induction false} SumAppend(s: seq<int>, t: seq<int>)
    ensures Sum(s + t) == Sum(s) + Sum(t)
  {
    if |t| == 0 {
      assert s + t == s;
    } else {
      assert (s + t)[..|s + t| - 1] == s + t[..|t| - 1];
      SumAppend(s, t[..|t| - 1]);
    }
  }

  lemma {:induction false} SumNonNegative(s: seq<int>)
    requires forall i :: 0 <= i < |s| ==> s[i] >= 0
    ensures Sum(s) >= 0
  {
    if |s| > 0 {
      SumNonNegative(s[..|s| - 1]);
    }
  }
}
