/** Evaluation runs: the status machine, the entity's validity rules, and lease claims. */
module Runs {
  import opened Outcome

  datatype RunStatus = Queued | Preparing | Running | Evaluating | Completed | Failed | Cancelled {

    predicate Terminal() {
      this in {Completed, Failed, Cancelled}
    }

    /** The statuses a worker may claim, renew or cancel from. */
    predicate Active() {
      this in {Queued, Preparing, Running, Evaluating}
    }

    /** Statuses in which the service keeps a lease on the row. */
    predicate Leased() {
      this in {Preparing, Running, Evaluating}
    }

    /** Position on the forward chain; every terminal status is last. */
    function Rank(): nat {
      match this
      case Queued => 0
      case Preparing => 1
      case Running => 2
      case Evaluating => 3
      case _ => 4
    }
  }

  /** The edges of the status machine. */
  function Transitions(current: RunStatus): set<RunStatus>
  {
    match current
    case Queued => {Preparing, Failed, Cancelled}
    case Preparing => {Running, Failed, Cancelled}
    case Running => {Evaluating, Failed, Cancelled}
    case Evaluating => {Completed, Failed, Cancelled}
    case _ => {}
  }

  predicate Identifier(value: string) {
    0 < |value| <= 128
  }

  /** A run row; a valid one is also the `EvaluationRun` entity. Times are microseconds. */
  datatype Run = Run(
    id: string,
    tenantId: string,
    projectId: string,
    suiteVersion: string,
    seed: int,
    idempotencyKey: string,
    status: RunStatus,
    attempt: int,
    fencingToken: int,
    leaseOwner: Option<string>,
    leaseExpiresAt: Option<int>,
    createdAt: int,
    updatedAt: int,
    version: int)
  {
    /** Python truthiness of the optional owner: absent and empty are both false. */
    predicate HasOwner() {
      leaseOwner.Some? && leaseOwner.value != ""
    }

    /** What constructing an `EvaluationRun` accepts. */
    predicate Valid() {
      && Identifier(id) && Identifier(tenantId) && Identifier(projectId)
      && Identifier(suiteVersion) && Identifier(idempotencyKey)
      && seed >= 0 && attempt >= 0 && fencingToken >= 0
      && version >= 1
      && (HasOwner() <==> leaseExpiresAt.Some?)
      && (status.Terminal() ==> !HasOwner())
    }
  }

  /** Rebuilding the entity from its row, which raises when the row breaks a rule. */
  function FromRow(row: Run): Result<Run>
  {
    if row.Valid() then Ok(row) else Err(ValueError)
  }

  /** A run as the service creates it: queued, never claimed, no lease. */
  predicate ServiceFresh(run: Run)
  {
    && run.Valid()
    && run.status == Queued
    && run.attempt == 0 && run.fencingToken == 0
    && run.leaseOwner == None && run.leaseExpiresAt == None
    && run.version == 1
  }

  /** What a worker keeps after a claim; it may be stale at any later time. */
  datatype LeaseClaim = LeaseClaim(run: Run, owner: string, fencingToken: int)

  /** A caller-supplied time, which may lack a timezone. */
  datatype Moment = Moment(at: int, aware: bool)

  const SECOND := 1_000_000
  const MILLISECOND := 1_000

  /** What `_validate_lease` accepts. */
  predicate LeaseArgumentsOk(owner: string, now: Moment, leaseSeconds: int)
  {
    && 0 < |owner| <= 128
    && now.aware
    && 1 <= leaseSeconds <= 3600
  }
}
