/**
 What each operation of the repositories answers and writes, column by column, over the rows
 themselves; and that the two-step operations are the statements that histories are made of, run one
 right after the other.
 */
module Statements {
  import opened Outcome
  import opened Ordering
  import opened Runs
  import opened Database
  import opened Replies
  import opened History
  import RunTable
  import ProjectTable
  import ArtifactTable

  // ----- claiming -----

  /** Who may be claimed: the tenant's runs that are queued, or that work under a lease that is over. */
  lemma ClaimableExactly(row: Run, tenant: string, now: int)
    ensures RunTable.Claimable(row, tenant, now) <==>
      && row.tenantId == tenant
      && (row.status == Queued
          || (row.status in {Preparing, Running, Evaluating}
              && row.leaseExpiresAt.Some? && row.leaseExpiresAt.value <= now))
  {}

  /** Run `x` was created before run `y`, or at the same time and its identifier sorts first. */
  predicate Older(db: Db, x: string, y: string)
    requires x in db.runs && y in db.runs
  {
    db.runs[x].createdAt < db.runs[y].createdAt || (db.runs[x].createdAt == db.runs[y].createdAt && StringLess(x, y))
  }

  /**
   A claim hands out the claimable run that was created first, and writes its lease; when it hands out
   none, there is none to claim. It raises, and writes nothing, on arguments that are not accepted.
   */
  lemma ClaimTakesOldest(db: Db, tenant: string, owner: string, now: Moment, leaseSeconds: int)
    requires Keyed(db)
    ensures var (db', reply) := RunTable.ClaimNext(db, tenant, owner, now, leaseSeconds);
      var accepted := 0 < |owner| <= 128 && now.aware && 1 <= leaseSeconds <= 3600;
      && (!accepted ==> reply == Raised(ValueError))
      && (accepted ==> (reply == Claimed(None) <==>
                          forall x :: x in db.runs ==> !RunTable.Claimable(db.runs[x], tenant, now.at)))
      && (reply.Raised? || reply == Claimed(None) ==> db' == db)
      && (reply.Raised? || reply.Claimed?)
    ensures var (db', reply) := RunTable.ClaimNext(db, tenant, owner, now, leaseSeconds);
      reply.Claimed? && reply.claim.Some? ==>
        var id := reply.claim.value.run.id;
        && id in db.runs && RunTable.Claimable(db.runs[id], tenant, now.at)
        && (forall x :: x in db.runs && x != id && RunTable.Claimable(db.runs[x], tenant, now.at) ==> Older(db, id, x))
        && var row := db.runs[id].(status := Preparing, leaseOwner := Some(owner),
                                   leaseExpiresAt := Some(now.at + leaseSeconds * 1_000_000),
                                   attempt := db.runs[id].attempt + 1,
                                   fencingToken := db.runs[id].fencingToken + 1,
                                   version := db.runs[id].version + 1, updatedAt := now.at);
           && db' == db.(runs := db.runs[id := row])
           && reply.claim.value == LeaseClaim(row, owner, row.fencingToken)
  {
    var rows := RunTable.ClaimableRows(db, tenant, now.at);
    assert forall x :: x in db.runs && RunTable.Claimable(db.runs[x], tenant, now.at) ==> x in rows;
    if rows != map[] {
      var id := First(rows);
      assert id in rows && db.runs[id].id == id;
      forall x | x in db.runs && x != id && RunTable.Claimable(db.runs[x], tenant, now.at)
        ensures Older(db, id, x)
      {
        assert x in rows && Before(rows, id, x);
      }
    }
  }

  /** From a claim on, the run cannot be claimed again before its lease is over, and can be from then on. */
  lemma ClaimedUntilExpiry(db: Db, tenant: string, owner: string, now: Moment, leaseSeconds: int, at: int)
    requires Keyed(db)
    ensures var (db', reply) := RunTable.ClaimNext(db, tenant, owner, now, leaseSeconds);
      reply.Claimed? && reply.claim.Some? ==>
        var id := reply.claim.value.run.id;
        id in db'.runs
        && (RunTable.Claimable(db'.runs[id], tenant, at) <==> at >= now.at + leaseSeconds * 1_000_000)
  {
    hide RunTable.ClaimNext;
    ClaimTakesOldest(db, tenant, owner, now, leaseSeconds);
  }

  // ----- renewing, moving and cancelling -----

  /** The claim's lease on its run is the current one, and is not over. */
  predicate Leases(db: Db, tenant: string, claim: LeaseClaim, now: int)
  {
    && claim.run.id in db.runs
    && var row := db.runs[claim.run.id];
       && row.tenantId == tenant && row.leaseOwner == Some(claim.owner) && row.fencingToken == claim.fencingToken
       && row.leaseExpiresAt.Some? && now < row.leaseExpiresAt.value
  }

  /** A heartbeat renews exactly a current lease on an unfinished run, and then by its full length. */
  lemma HeartbeatExactly(db: Db, tenant: string, claim: LeaseClaim, now: Moment, leaseSeconds: int)
    ensures var (db', reply) := RunTable.Heartbeat(db, tenant, claim, now, leaseSeconds);
      if !(0 < |claim.owner| <= 128 && now.aware && 1 <= leaseSeconds <= 3600)
      then reply == Raised(ValueError) && db' == db
      else if !Leases(db, tenant, claim, now.at)
              || db.runs[claim.run.id].status !in {Queued, Preparing, Running, Evaluating}
      then reply == Flag(false) && db' == db
      else
        var row := db.runs[claim.run.id];
        && reply == Flag(true)
        && db' == db.(runs := db.runs[claim.run.id := row.(leaseExpiresAt := Some(now.at + leaseSeconds * 1_000_000),
                                                           updatedAt := now.at, version := row.version + 1)])
  {}

  /** After a heartbeat a working run cannot be claimed before the new expiry, and can be from then on. */
  lemma RenewedUntilExpiry(db: Db, tenant: string, claim: LeaseClaim, now: Moment, leaseSeconds: int, at: int)
    requires RunTable.Heartbeat(db, tenant, claim, now, leaseSeconds).1 == Flag(true)
    requires db.runs[claim.run.id].status != Queued
    ensures var db' := RunTable.Heartbeat(db, tenant, claim, now, leaseSeconds).0;
      claim.run.id in db'.runs
      && (RunTable.Claimable(db'.runs[claim.run.id], tenant, at) <==> at >= now.at + leaseSeconds * 1_000_000)
  {
    hide RunTable.Heartbeat;
    HeartbeatExactly(db, tenant, claim, now, leaseSeconds);
  }

  /** The edges of the status machine: one step forward, or a failure or cancel of what is not finished. */
  lemma EdgesExactly(current: RunStatus, target: RunStatus)
    ensures target in Transitions(current) <==>
      || (current, target) in {(Queued, Preparing), (Preparing, Running), (Running, Evaluating),
                               (Evaluating, Completed)}
      || (current in {Queued, Preparing, Running, Evaluating} && target in {Failed, Cancelled})
  {}

  /** A run after a move to `target`: a final status takes the lease away. */
  function Moved(row: Run, target: RunStatus, now: int): Run
  {
    var final := target in {Completed, Failed, Cancelled};
    row.(status := target, updatedAt := now, version := row.version + 1,
         leaseOwner := if final then None else row.leaseOwner,
         leaseExpiresAt := if final then None else row.leaseExpiresAt)
  }

  /** A transition raises off the edges, and otherwise moves the run exactly while the lease is current. */
  lemma TransitionExactly(db: Db, tenant: string, claim: LeaseClaim, target: RunStatus, now: int)
    ensures var (db', reply) := RunTable.Transition(db, tenant, claim, target, now);
      var id := claim.run.id;
      if id !in db.runs || db.runs[id].tenantId != tenant then reply == Flag(false) && db' == db
      else if !db.runs[id].Valid() || target !in Transitions(db.runs[id].status)
      then reply == Raised(ValueError) && db' == db
      else if !Leases(db, tenant, claim, now) then reply == Flag(false) && db' == db
      else reply == Flag(true) && db' == db.(runs := db.runs[id := Moved(db.runs[id], target, now)])
  {}

  /** `transition` is its read and its guarded update, with nothing in between. */
  lemma TransitionIsReadThenUpdate(db: Db, tenant: string, claim: LeaseClaim, target: RunStatus, now: int)
    ensures var (db1, read) := Exec(db, Event(tenant, GetRun(claim.run.id)));
      && db1 == db
      && RunTable.Transition(db, tenant, claim, target, now)
         == match read
            case RunFound(Some(current)) =>
              Exec(db, Event(tenant, TransitionUpdate(claim, current.status, target, now)))
            case RunFound(None) => (db, Flag(false))
            case _ => (db, read)
  {}

  /**
   A cancel answers true exactly for the tenant's runs that are unfinished or already cancelled. It
   makes an unfinished one CANCELLED, without a lease, and changes nothing else.
   */
  lemma CancelExactly(db: Db, tenant: string, id: string, now: int)
    ensures var (db', reply) := RunTable.Cancel(db, tenant, id, now);
      if id !in db.runs || db.runs[id].tenantId != tenant then reply == Flag(false) && db' == db
      else if !db.runs[id].Valid() then reply == Raised(ValueError) && db' == db
      else if db.runs[id].status in {Queued, Preparing, Running, Evaluating} then
        reply == Flag(true) && db' == db.(runs := db.runs[id := Moved(db.runs[id], Cancelled, now)])
      else reply == Flag(db.runs[id].status == Cancelled) && db' == db
  {}

  /** `cancel` is its read and, on an unfinished run, its guarded update, with nothing in between. */
  lemma CancelIsReadThenUpdate(db: Db, tenant: string, id: string, now: int)
    ensures var (db1, read) := Exec(db, Event(tenant, GetRun(id)));
      && db1 == db
      && RunTable.Cancel(db, tenant, id, now)
         == match read
            case RunFound(Some(current)) =>
              if current.status in {Completed, Failed, Cancelled} then (db, Flag(current.status == Cancelled))
              else Exec(db, Event(tenant, CancelUpdate(id, now)))
            case RunFound(None) => (db, Flag(false))
            case _ => (db, read)
  {}

  /** After a cancel that answered true, the run is CANCELLED, no worker can claim it, and no claim can move it. */
  lemma CancelledIsOut(db: Db, tenant: string, id: string, now: int, claim: LeaseClaim, target: RunStatus, at: int)
    requires claim.run.id == id && RunTable.Cancel(db, tenant, id, now).1 == Flag(true)
    ensures var db' := RunTable.Cancel(db, tenant, id, now).0;
      && id in db'.runs && db'.runs[id].status == Cancelled && !RunTable.Claimable(db'.runs[id], tenant, at)
      && RunTable.Transition(db', tenant, claim, target, at).0 == db'
  {
    hide RunTable.Cancel, RunTable.Transition;
    CancelExactly(db, tenant, id, now);
    TransitionExactly(RunTable.Cancel(db, tenant, id, now).0, tenant, claim, target, at);
  }

  // ----- reading and creating -----

  /** A run is found exactly by its own tenant, and raises when its row breaks the entity's rules. */
  lemma GetExactly(db: Db, tenant: string, id: string)
    ensures RunTable.GetRun(db, tenant, id) ==
      if id !in db.runs || db.runs[id].tenantId != tenant then RunFound(None)
      else if db.runs[id].Valid() then RunFound(Some(db.runs[id])) else Raised(ValueError)
  {}

  /** A creation that reports a new run adds exactly that row; every other answer leaves the tables as they were. */
  lemma CreateStores(db: Db, tenant: string, run: Run)
    ensures var (db', reply) := RunTable.CreateIdempotent(db, tenant, run);
      && (reply.Created? <==> db' != db)
      && (reply.Created? ==> reply == Created(run) && run.id !in db.runs && db' == db.(runs := db.runs[run.id := run]))
  {}

  /** An insert is refused for another tenant's run, and by a used identifier, a missing project or a used key. */
  lemma InsertExactly(db: Db, tenant: string, run: Run)
    ensures RunTable.InsertRun(db, tenant, run) ==
      if run.tenantId != tenant then (db, Raised(ValueError))
      else if run.id in db.runs || run.projectId !in db.projects
              || exists x :: x in db.runs && db.runs[x].tenantId == tenant
                             && db.runs[x].idempotencyKey == run.idempotencyKey
      then (db, Raised(IntegrityError))
      else (db.(runs := db.runs[run.id := run]), Created(run))
    ensures run.tenantId != tenant ==> RunTable.CreateIdempotent(db, tenant, run) == (db, Raised(ValueError))
  {}

  /** `create_idempotent` is its lookup and then its insert, with nothing in between. */
  lemma CreateIsLookupThenInsert(db: Db, tenant: string, run: Run)
    requires run.tenantId == tenant
    ensures var (db1, looked) := Exec(db, Event(tenant, LookupRun(run.idempotencyKey, run.projectId)));
      && db1 == db
      && RunTable.CreateIdempotent(db, tenant, run)
         == match looked
            case Looked(None, true) => Exec(db, Event(tenant, InsertRun(run)))
            case Looked(None, false) => (db, Raised(ValueError))
            case Looked(Some(row), _) => (db, Existing(row))
            case _ => (db, looked)
  {}

  /** A run that was just created is there for its tenant to read and, when the service made it, to be claimed. */
  lemma CreatedIsQueued(db: Db, tenant: string, run: Run, now: int)
    requires ServiceFresh(run) && RunTable.CreateIdempotent(db, tenant, run).1.Created?
    ensures var db' := RunTable.CreateIdempotent(db, tenant, run).0;
      && RunTable.GetRun(db', tenant, run.id) == RunFound(Some(run))
      && RunTable.Claimable(db'.runs[run.id], tenant, now)
  {
    CreateStores(db, tenant, run);
  }

  // ----- projects -----

  lemma AddProjectExactly(db: Db, tenant: string, project: Project)
    requires Sound(db)
    ensures var (db', reply) := ProjectTable.AddProject(db, tenant, project);
      if project.tenantId != tenant then reply == Raised(ValueError) && db' == db
      else if project.id in db.projects
              || exists x :: x in db.projects && SameProjectName(db.projects[x], project)
      then reply == Raised(IntegrityError) && db' == db
      else reply == Done && db' == db.(projects := db.projects[project.id := project])
  {}

  lemma GetProjectExactly(db: Db, tenant: string, id: string)
    ensures ProjectTable.GetProject(db, tenant, id) ==
      if id !in db.projects || db.projects[id].tenantId != tenant then ProjectFound(None)
      else if db.projects[id].Valid() then ProjectFound(Some(db.projects[id])) else Raised(ValueError)
  {}

  /** The tenant's projects that sort before `row` by creation time and identifier. */
  function EarlierProjects(db: Db, tenant: string, row: Project): set<string>
  {
    set x | x in db.projects && db.projects[x].tenantId == tenant
            && (db.projects[x].createdAt < row.createdAt
                || (db.projects[x].createdAt == row.createdAt && StringLess(x, row.id)))
  }

  function TenantProjects(db: Db, tenant: string): set<string>
  {
    set x | x in db.projects && db.projects[x].tenantId == tenant
  }

  lemma SeqOfDistinct(ids: seq<string>, members: set<string>)
    requires forall x :: x in ids <==> x in members
    requires forall i, j :: 0 <= i < j < |ids| ==> ids[i] != ids[j]
    ensures |members| == |ids|
  {
    if ids == [] {
      assert members == {};
    } else {
      var init, last := ids[..|ids| - 1], ids[|ids| - 1];
      assert ids == init + [last];
      SeqOfDistinct(init, members - {last});
    }
  }

  /** Of two places in the order of a table, the first is the one whose row sorts first. */
  lemma EarlierPlace(created: map<string, int>, i: nat, k: nat)
    requires i < |InOrder(created)| && k < |InOrder(created)|
    ensures InOrder(created)[i] in created && InOrder(created)[k] in created
    ensures i < k <==> InOrder(created)[i] != InOrder(created)[k]
                       && Before(created, InOrder(created)[i], InOrder(created)[k])
  {
    hide InOrder;
    var ids := InOrder(created);
    InOrderSorts(created);
    assert ids[i] in ids && ids[k] in ids;
    StringLessTotal(ids[i], ids[k]);
    if i < k {
      assert Precedes(created, ids[i], ids[k]);
    } else if k < i {
      assert Precedes(created, ids[k], ids[i]);
    }
  }

  /** The rows of a table that sort before one of them. */
  function SortedBefore(created: map<string, int>, id: string): set<string>
    requires id in created
  {
    set x | x in created && x != id && Before(created, x, id)
  }

  /** In the order of a table, exactly k rows sort before the k-th. */
  lemma RankInOrder(created: map<string, int>, k: nat)
    requires k < |InOrder(created)|
    ensures InOrder(created)[k] in created
    ensures |SortedBefore(created, InOrder(created)[k])| == k
  {
    hide InOrder, Before, Sorted;
    var ids := InOrder(created);
    InOrderSorts(created);
    EarlierPlace(created, k, k);
    forall x
      ensures x in ids[..k] <==> x in SortedBefore(created, ids[k])
    {
      if x in created {
        assert x in ids;
        var i :| 0 <= i < |ids| && ids[i] == x;
        EarlierPlace(created, i, k);
        if x in ids[..k] {
          var j :| 0 <= j < k && ids[j] == x;
          EarlierPlace(created, j, k);
        }
      } else {
        assert forall j :: 0 <= j < k ==> ids[j] in ids;
      }
    }
    forall i, j | 0 <= i < j < k
      ensures ids[i] != ids[j]
    {
      EarlierPlace(created, i, j);
    }
    SeqOfDistinct(ids[..k], SortedBefore(created, ids[k]));
  }

  lemma RowsAt(db: Db, ids: seq<string>)
    requires forall id :: id in ids ==> id in db.projects
    ensures var rows := ProjectTable.RowsOf(db, ids);
      |rows| == |ids| && forall k :: 0 <= k < |ids| ==> ids[k] in ids && rows[k] == db.projects[ids[k]]
  {
    if ids != [] {
      RowsAt(db, ids[1..]);
    }
  }

  lemma EarlierIsBefore(db: Db, tenant: string, id: string)
    requires Keyed(db) && id in ProjectTable.ProjectsByCreation(db, tenant)
    ensures var created := ProjectTable.ProjectsByCreation(db, tenant);
      EarlierProjects(db, tenant, db.projects[id]) == SortedBefore(created, id)
  {
    StringLessTotal(id, id);
  }

  /** The identifiers on a page, and how many of the tenant's projects come before each. */
  lemma PagePlaces(db: Db, tenant: string, limit: nat, offset: nat)
    requires Keyed(db)
    ensures var page := ProjectTable.Page(InOrder(ProjectTable.ProjectsByCreation(db, tenant)), limit, offset);
      var left := |TenantProjects(db, tenant)| - offset;
      && |page| == (if left < 0 then 0 else if left < limit then left else limit)
      && forall k :: 0 <= k < |page| ==>
           page[k] in TenantProjects(db, tenant) && |EarlierProjects(db, tenant, db.projects[page[k]])| == offset + k
  {
    hide InOrder, Sorted;
    var created := ProjectTable.ProjectsByCreation(db, tenant);
    InOrderSorts(created);
    assert created.Keys == TenantProjects(db, tenant);
    assert |created| == |created.Keys|;
    var page := ProjectTable.Page(InOrder(created), limit, offset);
    forall k | 0 <= k < |page|
      ensures page[k] in TenantProjects(db, tenant) && |EarlierProjects(db, tenant, db.projects[page[k]])| == offset + k
    {
      assert page[k] == InOrder(created)[offset + k];
      RankInOrder(created, offset + k);
      EarlierIsBefore(db, tenant, page[k]);
    }
  }

  /**
   A page holds as many of the tenant's projects as the limit and the offset leave, and its k-th entry
   is the one with exactly `offset + k` of the tenant's projects before it by creation time and identifier.
   */
  lemma PageExactly(db: Db, tenant: string, limit: int, offset: int)
    requires Keyed(db)
    ensures var reply := ProjectTable.ListProjects(db, tenant, limit, offset);
      if !(1 <= limit <= 100) || offset < 0 then reply == Raised(ValueError)
      else if reply.ProjectsListed? then
        var left := |TenantProjects(db, tenant)| - offset;
        && |reply.projects| == (if left < 0 then 0 else if left < limit then left else limit)
        && forall k :: 0 <= k < |reply.projects| ==>
             var row := reply.projects[k];
             && row.id in TenantProjects(db, tenant) && row == db.projects[row.id]
             && |EarlierProjects(db, tenant, row)| == offset + k
      else reply == Raised(ValueError) && exists x :: x in TenantProjects(db, tenant) && !db.projects[x].Valid()
  {
    hide InOrder, ProjectTable.Page, EarlierProjects, ProjectTable.ProjectsByCreation, ProjectTable.RowsOf;
    if 1 <= limit <= 100 && offset >= 0 {
      var created := ProjectTable.ProjectsByCreation(db, tenant);
      PagePlaces(db, tenant, limit, offset);
      var page := ProjectTable.Page(InOrder(created), limit, offset);
      RowsAt(db, page);
      var rows := ProjectTable.RowsOf(db, page);
      if p :| p in rows && !p.Valid() {
        var k :| 0 <= k < |rows| && rows[k] == p;
        assert page[k] in TenantProjects(db, tenant);
      }
    }
  }

  /** A rename writes exactly at the expected version, under a name that is neither blank, overlong nor taken. */
  lemma RenameExactly(db: Db, tenant: string, id: string, name: string, expectedVersion: int, now: int)
    requires id in db.projects && db.projects[id].tenantId == tenant && db.projects[id].Valid()
    requires now >= db.projects[id].createdAt
    ensures var (db', reply) := ProjectTable.RenameProject(db, tenant, id, name, expectedVersion, now);
      var p := db.projects[id];
      if !Bounded(name, 200) then reply == Raised(ValueError) && db' == db
      else if p.version != expectedVersion then reply == Flag(false) && db' == db
      else if exists x :: x in db.projects && x != id && SameProjectName(db.projects[x], p.(name := name))
      then reply == Raised(IntegrityError) && db' == db
      else
        && reply == Flag(true)
        && db' == db.(projects := db.projects[id := p.(name := name, updatedAt := now, version := p.version + 1)])
  {}

  /** Renaming what the tenant does not have changes nothing. */
  lemma RenameNeedsOwn(db: Db, tenant: string, id: string, name: string, expectedVersion: int, now: int)
    requires id !in db.projects || db.projects[id].tenantId != tenant
    ensures ProjectTable.RenameProject(db, tenant, id, name, expectedVersion, now) == (db, Flag(false))
  {}

  /** A delete takes the tenant's project, its runs and their artifacts, and nothing else. */
  lemma DeleteExactly(db: Db, tenant: string, id: string)
    requires Sound(db)
    ensures var (db', reply) := ProjectTable.DeleteProject(db, tenant, id);
      if id !in db.projects || db.projects[id].tenantId != tenant then reply == Flag(false) && db' == db
      else
        && reply == Flag(true) && db'.projects == db.projects - {id}
        && (forall r :: r in db'.runs <==> r in db.runs && db.runs[r].projectId != id)
        && (forall r :: r in db'.runs ==> db'.runs[r] == db.runs[r])
        && (forall a :: a in db'.artifacts <==>
              a in db.artifacts && db.runs[db.artifacts[a].runId].projectId != id)
        && (forall a :: a in db'.artifacts ==> db'.artifacts[a] == db.artifacts[a])
  {}

  // ----- artifacts -----

  lemma AddArtifactExactly(db: Db, tenant: string, artifact: Artifact)
    ensures var (db', reply) := ArtifactTable.AddArtifact(db, tenant, artifact);
      if artifact.tenantId != tenant || artifact.runId !in db.runs || db.runs[artifact.runId].tenantId != tenant
      then reply == Raised(ValueError) && db' == db
      else if artifact.id in db.artifacts
              || exists x :: x in db.artifacts && db.artifacts[x].tenantId == artifact.tenantId
                             && db.artifacts[x].objectKey == artifact.objectKey
      then reply == Raised(IntegrityError) && db' == db
      else reply == Done && db' == db.(artifacts := db.artifacts[artifact.id := artifact])
  {}

  /** The tenant's report of that run and format, not marked deleted. */
  predicate Matches(row: Artifact, tenant: string, runId: string, format: string)
  {
    row.tenantId == tenant && row.runId == runId && row.format == format && row.deletedAt == None
  }

  /** Whichever row the engine chooses, it is a matching one that is not marked deleted; none means there is none. */
  lemma GetForRunExactly(db: Db, tenant: string, runId: string, format: string, choice: string)
    ensures var reply := ArtifactTable.GetForRun(db, tenant, runId, format, choice);
      && reply.ArtifactFound?
      && (reply.artifact == None <==>
            forall x :: x in db.artifacts ==> !Matches(db.artifacts[x], tenant, runId, format))
      && (reply.artifact.Some? ==>
            var row := reply.artifact.value;
            Matches(row, tenant, runId, format)
            && exists x :: x in db.artifacts && db.artifacts[x] == row)
  {
    var rows := ArtifactTable.ReportRows(db, tenant, runId, format);
    assert forall x :: x in rows <==> x in db.artifacts && Matches(db.artifacts[x], tenant, runId, format);
    if rows != map[] {
      assert First(rows) in rows;
    }
  }

  /** Marking hides the tenant's row, once. */
  lemma MarkDeletedExactly(db: Db, tenant: string, id: string, now: int)
    ensures var (db', reply) := ArtifactTable.MarkDeleted(db, tenant, id, now);
      if id in db.artifacts && db.artifacts[id].tenantId == tenant && db.artifacts[id].deletedAt == None then
        && reply == Flag(true)
        && db' == db.(artifacts := db.artifacts[id := db.artifacts[id].(deletedAt := Some(now))])
        && ArtifactTable.GetArtifact(db', tenant, id) == ArtifactFound(None)
        && ArtifactTable.MarkDeleted(db', tenant, id, now) == (db', Flag(false))
      else reply == Flag(false) && db' == db
  {}

  /** The publishing transaction adds both rows and completes the run under its current lease, or writes nothing. */
  lemma PublishExactly(db: Db, tenant: string, json: Artifact, markdown: Artifact, claim: LeaseClaim, now: int)
    requires json.tenantId == tenant && markdown.tenantId == tenant
    requires json.runId == claim.run.id && markdown.runId == claim.run.id && json.id != markdown.id
    requires ArtifactTable.FreeArtifact(db, json) && ArtifactTable.FreeArtifact(db, markdown)
    requires json.objectKey != markdown.objectKey
    ensures var (db', reply) := ArtifactTable.Publish(db, tenant, json, markdown, claim, Evaluating, now);
      if Leases(db, tenant, claim, now) && db.runs[claim.run.id].status == Evaluating then
        && reply == Flag(true)
        && db' == Db(db.projects, db.runs[claim.run.id := Moved(db.runs[claim.run.id], Completed, now)],
                     db.artifacts[json.id := json][markdown.id := markdown])
      else reply != Flag(true) && db' == db
  {
    hide ArtifactTable.Publish;
    ArtifactTable.PublishIsAtomic(db, tenant, json, markdown, claim, Evaluating, now);
  }
}
