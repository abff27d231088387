/** What each statement of the run repository does to the tables. */
module RunTable {
  import opened Outcome
  import opened Ordering
  import opened Runs
  import opened Database
  import opened Replies

  // ----- row updates -----

  predicate Claimable(row: Run, tenant: string, now: int)
  {
    && row.tenantId == tenant
    && row.status.Active()
    && (row.status == Queued || (row.leaseExpiresAt.Some? && row.leaseExpiresAt.value <= now))
  }

  function ClaimRow(row: Run, owner: string, now: int, leaseSeconds: int): Run
  {
    row.(status := Preparing,
         leaseOwner := Some(owner),
         leaseExpiresAt := Some(now + leaseSeconds * SECOND),
         attempt := row.attempt + 1,
         fencingToken := row.fencingToken + 1,
         version := row.version + 1,
         updatedAt := now)
  }

  /** The lease conditions shared by the heartbeat and transition updates. */
  predicate HeldBy(row: Run, tenant: string, claim: LeaseClaim, now: int)
  {
    && row.tenantId == tenant
    && row.leaseOwner == Some(claim.owner)
    && row.fencingToken == claim.fencingToken
    && row.leaseExpiresAt.Some? && row.leaseExpiresAt.value > now
  }

  function RenewRow(row: Run, now: int, leaseSeconds: int): Run
  {
    row.(leaseExpiresAt := Some(now + leaseSeconds * SECOND), updatedAt := now, version := row.version + 1)
  }

  function MoveRow(row: Run, target: RunStatus, now: int): Run
  {
    var moved := row.(status := target, updatedAt := now, version := row.version + 1);
    if target.Terminal() then moved.(leaseOwner := None, leaseExpiresAt := None) else moved
  }

  function CancelRow(row: Run, now: int): Run
  {
    row.(status := Cancelled, leaseOwner := None, leaseExpiresAt := None, updatedAt := now, version := row.version + 1)
  }

  function PutRun(db: Db, row: Run): Db
  {
    db.(runs := db.runs[row.id := row])
  }

  // ----- statements -----

  predicate OwnRun(db: Db, tenant: string, id: string)
  {
    id in db.runs && db.runs[id].tenantId == tenant
  }

  function GetRun(db: Db, tenant: string, id: string): Reply
  {
    if !OwnRun(db, tenant, id) then RunFound(None)
    else if db.runs[id].Valid() then RunFound(Some(db.runs[id]))
    else Raised(ValueError)
  }

  /** The rows of a tenant with a given idempotency key, by creation time. */
  function WithKey(db: Db, tenant: string, key: string): map<string, int>
  {
    map id | id in db.runs && db.runs[id].tenantId == tenant && db.runs[id].idempotencyKey == key
      :: db.runs[id].createdAt
  }

  ghost function FindExisting(db: Db, tenant: string, key: string): Option<Run>
  {
    var rows := WithKey(db, tenant, key);
    if rows == map[] then None else Some(db.runs[First(rows)])
  }

  predicate OwnProject(db: Db, tenant: string, id: string)
  {
    id in db.projects && db.projects[id].tenantId == tenant
  }

  /** The two reads of `create_idempotent`: the run with this key, and whether the project exists. */
  ghost function LookupRun(db: Db, tenant: string, key: string, projectId: string): Reply
  {
    match FindExisting(db, tenant, key)
    case Some(row) => if row.Valid() then Looked(Some(row), true) else Raised(ValueError)
    case None => Looked(None, OwnProject(db, tenant, projectId))
  }

  predicate InsertableRun(db: Db, run: Run)
  {
    && run.id !in db.runs
    && run.projectId in db.projects
    && (forall id :: id in db.runs ==>
          db.runs[id].tenantId != run.tenantId || db.runs[id].idempotencyKey != run.idempotencyKey)
  }

  /** The insert and flush of `create_idempotent`, under the table's constraints. */
  function InsertRun(db: Db, tenant: string, run: Run): (Db, Reply)
  {
    if run.tenantId != tenant then (db, Raised(ValueError))
    else if !InsertableRun(db, run) then (db, Raised(IntegrityError))
    else (PutRun(db, run), Created(run))
  }

  /** The whole of `create_idempotent` in one uninterrupted transaction. */
  ghost function CreateIdempotent(db: Db, tenant: string, run: Run): (Db, Reply)
  {
    if run.tenantId != tenant then (db, Raised(ValueError))
    else
      match LookupRun(db, tenant, run.idempotencyKey, run.projectId)
      case Looked(Some(row), _) => (db, Existing(row))
      case Looked(None, false) => (db, Raised(ValueError))
      case Looked(None, true) => InsertRun(db, tenant, run)
      case reply => (db, reply)
  }

  /** The runs a claim may take at `now`, by creation time. */
  function ClaimableRows(db: Db, tenant: string, now: int): map<string, int>
  {
    map id | id in db.runs && Claimable(db.runs[id], tenant, now) :: db.runs[id].createdAt
  }

  ghost function ClaimNext(db: Db, tenant: string, owner: string, now: Moment, leaseSeconds: int): (Db, Reply)
  {
    if !LeaseArgumentsOk(owner, now, leaseSeconds) then (db, Raised(ValueError))
    else
      var rows := ClaimableRows(db, tenant, now.at);
      if rows == map[] then (db, Claimed(None))
      else
        var row := ClaimRow(db.runs[First(rows)], owner, now.at, leaseSeconds);
        if !row.Valid() then (db, Raised(ValueError))
        else (db.(runs := db.runs[First(rows) := row]), Claimed(Some(LeaseClaim(row, owner, row.fencingToken))))
  }

  predicate CanRenew(db: Db, tenant: string, claim: LeaseClaim, now: int)
  {
    && claim.run.id in db.runs
    && HeldBy(db.runs[claim.run.id], tenant, claim, now)
    && db.runs[claim.run.id].status.Active()
  }

  function Heartbeat(db: Db, tenant: string, claim: LeaseClaim, now: Moment, leaseSeconds: int): (Db, Reply)
  {
    if !LeaseArgumentsOk(claim.owner, now, leaseSeconds) then (db, Raised(ValueError))
    else if !CanRenew(db, tenant, claim, now.at) then (db, Flag(false))
    else (db.(runs := db.runs[claim.run.id := RenewRow(db.runs[claim.run.id], now.at, leaseSeconds)]), Flag(true))
  }

  predicate CanMove(db: Db, tenant: string, claim: LeaseClaim, seen: RunStatus, now: int)
  {
    && claim.run.id in db.runs
    && db.runs[claim.run.id].status == seen
    && HeldBy(db.runs[claim.run.id], tenant, claim, now)
  }

  /** The second half of `transition`: the update guarded by the status an earlier read saw. */
  function TransitionUpdate(db: Db, tenant: string, claim: LeaseClaim, seen: RunStatus, target: RunStatus, now: int)
    : (Db, Reply)
  {
    if target !in Transitions(seen) then (db, Raised(ValueError))
    else if !CanMove(db, tenant, claim, seen, now) then (db, Flag(false))
    else (db.(runs := db.runs[claim.run.id := MoveRow(db.runs[claim.run.id], target, now)]), Flag(true))
  }

  /** The whole of `transition` with nothing between its read and its update. */
  function Transition(db: Db, tenant: string, claim: LeaseClaim, target: RunStatus, now: int): (Db, Reply)
  {
    match GetRun(db, tenant, claim.run.id)
    case RunFound(None) => (db, Flag(false))
    case RunFound(Some(current)) => TransitionUpdate(db, tenant, claim, current.status, target, now)
    case reply => (db, reply)
  }

  predicate CanCancel(db: Db, tenant: string, id: string)
  {
    OwnRun(db, tenant, id) && db.runs[id].status.Active()
  }

  /** The second half of `cancel`: the guarded update. */
  function CancelUpdate(db: Db, tenant: string, id: string, now: int): (Db, Reply)
  {
    if !CanCancel(db, tenant, id) then (db, Flag(false))
    else (db.(runs := db.runs[id := CancelRow(db.runs[id], now)]), Flag(true))
  }

  /** The whole of `cancel` with nothing between its read and its update. */
  function Cancel(db: Db, tenant: string, id: string, now: int): (Db, Reply)
  {
    match GetRun(db, tenant, id)
    case RunFound(None) => (db, Flag(false))
    case RunFound(Some(current)) =>
      if current.status == Cancelled then (db, Flag(true))
      else if current.status.Terminal() then (db, Flag(false))
      else CancelUpdate(db, tenant, id, now)
    case reply => (db, reply)
  }
}
