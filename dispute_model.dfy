/** The test suite's reference models of the escrow lifecycle: the allowed
    transition table over a five-state status, the two-party basis-point
    split, and a fixed-amount escrow that an admin resolves from Frozen by
    paying the worker, refunding the client or splitting between them. None
    of these resolutions charges a fee: the whole escrowed amount is divided. */
module DisputeModel {
  import opened Base
  import opened FeeMath
  import opened Splits
  import Escrow

  /** The five statuses of the reference lifecycle; Released stands for the
      program's Settled, and there is no Approved. */
  datatype Status = Created | Funded | Released | Refunded | Frozen

  /** The allowed-transition table. */
  predicate CanTransition(from: Status, to: Status)
  {
    match (from, to)
    case (Created, Funded) => true
    case (Funded, Released) => true
    case (Funded, Refunded) => true
    case (Funded, Frozen) => true
    case (Frozen, Released) => true
    case (Frozen, Refunded) => true
    case _ => false
  }

  function Order(s: Status): nat
  {
    match s
    case Created => 0
    case Funded => 1
    case Frozen => 2
    case Released => 3
    case Refunded => 3
  }

  /** No backward edge, nothing out of Released or Refunded, nothing into
      Created, and Created leads only to Funded. */
  lemma TableGoesForward(from: Status, to: Status)
    ensures CanTransition(from, to) ==> Order(from) < Order(to)
    ensures from in {Released, Refunded} ==> !CanTransition(from, to)
    ensures CanTransition(from, Created) == false
    ensures CanTransition(Created, to) <==> to == Funded
  {
  }

  /** The program's status as the reference lifecycle sees it: Approved is a
      marked Funded, Settled is Released. */
  function FromProgram(s: Escrow.EscrowStatus): Status
  {
    match s
    case Created => Created
    case Funded => Funded
    case Approved => Funded
    case Settled => Released
    case Refunded => Refunded
    case Frozen => Frozen
  }

  /** Every status change the program makes, other than marking a funded
      escrow approved, is an edge of the table, and every edge of the table
      is made by some status change of the program. */
  lemma ProgramFollowsTable(from: Escrow.EscrowStatus, to: Escrow.EscrowStatus, a: Status, b: Status)
    ensures Escrow.Step(from, to) && to != Escrow.Approved ==> CanTransition(FromProgram(from), FromProgram(to))
    ensures CanTransition(a, b) ==>
              exists f, t :: Escrow.Step(f, t) && FromProgram(f) == a && FromProgram(t) == b
  {
    if CanTransition(a, b) {
      var f, t := ToProgram(a), ToProgram(b);
      assert Escrow.Step(f, t) && FromProgram(f) == a && FromProgram(t) == b;
    }
  }

  function ToProgram(s: Status): Escrow.EscrowStatus
  {
    match s
    case Created => Escrow.Created
    case Funded => Escrow.Funded
    case Released => Escrow.Settled
    case Refunded => Escrow.Refunded
    case Frozen => Escrow.Frozen
  }

  /** `calculate_split_bps`: the worker's floor share of `amount` and the
      client's remainder; undefined above 100%. */
  function CalculateSplitBps(amount: U64, workerBps: nat): (r: Option<(U64, U64)>)
    ensures r.Some? <==> workerBps <= BPS_DENOMINATOR
    ensures r.Some? ==> r.value.0 == BpsShare(amount, workerBps)
    ensures r.Some? ==> r.value.0 + r.value.1 == amount
  {
    if workerBps > BPS_DENOMINATOR as int then None
    else
      ShareAtMost(amount, workerBps);
      var workerAmount := AsU64(BpsShare(amount, workerBps));
      Some((workerAmount, amount - workerAmount))
  }

  /** 0% gives everything to the client, 100% everything to the worker. */
  lemma SplitExtremes(amount: U64)
    ensures CalculateSplitBps(amount, 0) == Some((0, amount))
    ensures CalculateSplitBps(amount, BPS_DENOMINATOR) == Some((amount, 0))
  {
    ShareExtremes(amount);
  }

  /** An even amount split at 50% gives both parties the same. */
  lemma HalfSplitEven(amount: U64)
    requires amount % 2 == 0
    ensures CalculateSplitBps(amount, 5000).Some?
    ensures CalculateSplitBps(amount, 5000).value.0 == CalculateSplitBps(amount, 5000).value.1
  {
    var h := amount / 2;
    assert amount * 5000 == h * BPS_DENOMINATOR as int;
    assert BpsShare(amount, 5000) == h;
  }

  /** The test suite's two concrete divisions of 10 USDC. */
  lemma SplitExamples()
    ensures CalculateSplitBps(10_000_000, 5000) == Some((5_000_000, 5_000_000))
    ensures CalculateSplitBps(10_000_000, 7000) == Some((7_000_000, 3_000_000))
  {
  }

  /** The program's own two-way settlement gives the same division: splitting
      `amount` between a worker at `bps` and a client at the rest with
      `compute_split_amounts` is `calculate_split_bps`. */
  lemma TwoWaySettlementMatches(amount: U64, worker: Pubkey, client: Pubkey, bps: U16)
    requires bps <= BPS_DENOMINATOR
    ensures var splits := [Split(worker, bps), Split(client, BPS_DENOMINATOR - bps)];
      var split := CalculateSplitBps(amount, bps);
      split.Some? && SplitAmounts(amount, splits) == [split.value.0, split.value.1]
  {
    var splits := [Split(worker, bps), Split(client, BPS_DENOMINATOR - bps)];
    assert splits[..1] == [Split(worker, bps)];
    var firsts := Shares(amount, splits[..1]);
    assert firsts == [BpsShare(amount, bps)];
    assert Sum(firsts) == BpsShare(amount, bps) by {
      assert firsts[..0] == [];
    }
  }

  /** The reference escrow: a fixed amount, a status, and whether it was funded. */
  class DisputedEscrow {
    const amount: U64
    var status: Status
    var fundedAt: Option<I64>

    constructor (amount: U64, status: Status, fundedAt: Option<I64>)
      ensures this.amount == amount && this.status == status && this.fundedAt == fundedAt
    {
      this.amount := amount;
      this.status := status;
      this.fundedAt := fundedAt;
    }

    /** `admin_release_to_worker`: the whole amount goes to the worker. */
    method AdminReleaseToWorker() returns (r: Result<U64>)
      modifies this`status
      ensures old(status) != Frozen ==> r == Err(InvalidStatus)
      ensures old(status) == Frozen && fundedAt.None? ==> r == Err(NotFunded)
      ensures r.Ok? <==> old(status) == Frozen && fundedAt.Some?
      ensures r.Ok? ==> r.value == amount && status == Released
      ensures r.Ok? ==> CanTransition(old(status), status)
      ensures r.Err? ==> status == old(status)
    {
      if status != Frozen {
        return Err(InvalidStatus);
      }
      if fundedAt.None? {
        return Err(NotFunded);
      }
      status := Released;
      return Ok(amount);
    }

    /** `admin_refund_to_client`: the whole amount goes back to the client. */
    method AdminRefundToClient() returns (r: Result<U64>)
      modifies this`status
      ensures old(status) != Frozen ==> r == Err(InvalidStatus)
      ensures old(status) == Frozen && fundedAt.None? ==> r == Err(NotFunded)
      ensures r.Ok? <==> old(status) == Frozen && fundedAt.Some?
      ensures r.Ok? ==> r.value == amount && status == Refunded
      ensures r.Ok? ==> CanTransition(old(status), status)
      ensures r.Err? ==> status == old(status)
    {
      if status != Frozen {
        return Err(InvalidStatus);
      }
      if fundedAt.None? {
        return Err(NotFunded);
      }
      status := Refunded;
      return Ok(amount);
    }

    /** `admin_split_funds`: the worker gets `workerBps` of the amount,
        rounded down, the client the rest; both parts add up to the amount. */
    method AdminSplitFunds(workerBps: nat) returns (r: Result<(U64, U64)>)
      modifies this`status
      ensures old(status) != Frozen ==> r == Err(InvalidStatus)
      ensures old(status) == Frozen && fundedAt.None? ==> r == Err(NotFunded)
      ensures old(status) == Frozen && fundedAt.Some? && workerBps > BPS_DENOMINATOR ==> r == Err(InvalidPercentage)
      ensures r.Ok? <==> old(status) == Frozen && fundedAt.Some? && workerBps <= BPS_DENOMINATOR
      ensures r.Ok? ==> Some(r.value) == CalculateSplitBps(amount, workerBps)
      ensures r.Ok? ==> r.value.0 + r.value.1 == amount && status == Released
      ensures r.Ok? ==> CanTransition(old(status), status)
      ensures r.Err? ==> status == old(status)
    {
      if status != Frozen {
        return Err(InvalidStatus);
      }
      if fundedAt.None? {
        return Err(NotFunded);
      }
      if workerBps > BPS_DENOMINATOR as int {
        return Err(InvalidPercentage);
      }
      ShareAtMost(amount, workerBps);
      var workerAmount := AsU64(amount * workerBps / BPS_DENOMINATOR as int);
      var clientAmount := amount - workerAmount;
      status := Released;
      return Ok((workerAmount, clientAmount));
    }
  }
}
