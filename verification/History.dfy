/**
 Repository statements interleaved by any number of clients and workers, and the histories they
 form. `transition` and `cancel` appear as their guarded updates, which carry whatever an earlier
 read saw, and `create_idempotent` as its reads and its insert; so every interleaving of the
 two-step operations is a history.
 */
module History {
  import opened Outcome
  import opened Runs
  import opened Database
  import opened Replies
  import RunTable
  import ProjectTable
  import ArtifactTable

  datatype Command =
    | AddProject(project: Project)
    | GetProject(projectId: string)
    | ListProjects(limit: int, offset: int)
    | RenameProject(projectId: string, name: string, expectedVersion: int, at: int)
    | DeleteProject(projectId: string)
    | LookupRun(key: string, projectId: string)
    | InsertRun(run: Run)
    | GetRun(runId: string)
    | ClaimNext(owner: string, now: Moment, leaseSeconds: int)
    | Heartbeat(claim: LeaseClaim, now: Moment, leaseSeconds: int)
    | TransitionUpdate(claim: LeaseClaim, seen: RunStatus, target: RunStatus, at: int)
    | CancelUpdate(runId: string, at: int)
    | AddArtifact(artifact: Artifact)
    | GetArtifact(artifactId: string)
    | GetForRun(runId: string, format: string, choice: string)
    | MarkDeleted(artifactId: string, at: int)
    | Publish(json: Artifact, markdown: Artifact, claim: LeaseClaim, seen: RunStatus, at: int)

  /** One statement, run by a repository bound to `tenant`. */
  datatype Event = Event(tenant: string, command: Command)

  type History = seq<Event>

  ghost function Exec(db: Db, e: Event): (Db, Reply)
  {
    match e.command
    case AddProject(p) => ProjectTable.AddProject(db, e.tenant, p)
    case GetProject(id) => (db, ProjectTable.GetProject(db, e.tenant, id))
    case ListProjects(limit, offset) => (db, ProjectTable.ListProjects(db, e.tenant, limit, offset))
    case RenameProject(id, name, version, at) => ProjectTable.RenameProject(db, e.tenant, id, name, version, at)
    case DeleteProject(id) => ProjectTable.DeleteProject(db, e.tenant, id)
    case LookupRun(key, projectId) => (db, RunTable.LookupRun(db, e.tenant, key, projectId))
    case InsertRun(run) => RunTable.InsertRun(db, e.tenant, run)
    case GetRun(id) => (db, RunTable.GetRun(db, e.tenant, id))
    case ClaimNext(owner, now, secs) => RunTable.ClaimNext(db, e.tenant, owner, now, secs)
    case Heartbeat(claim, now, secs) => RunTable.Heartbeat(db, e.tenant, claim, now, secs)
    case TransitionUpdate(claim, seen, target, at) => RunTable.TransitionUpdate(db, e.tenant, claim, seen, target, at)
    case CancelUpdate(id, at) => RunTable.CancelUpdate(db, e.tenant, id, at)
    case AddArtifact(a) => ArtifactTable.AddArtifact(db, e.tenant, a)
    case GetArtifact(id) => (db, ArtifactTable.GetArtifact(db, e.tenant, id))
    case GetForRun(id, format, choice) => (db, ArtifactTable.GetForRun(db, e.tenant, id, format, choice))
    case MarkDeleted(id, at) => ArtifactTable.MarkDeleted(db, e.tenant, id, at)
    case Publish(json, markdown, claim, seen, at) =>
      ArtifactTable.Publish(db, e.tenant, json, markdown, claim, seen, at)
  }

  /** The tables before event `i` of a history that starts from empty tables. */
  ghost function At(h: History, i: nat): Db
    requires i <= |h|
  {
    if i == 0 then EMPTY else Exec(At(h, i - 1), h[i - 1]).0
  }

  ghost function ReplyAt(h: History, i: nat): Reply
    requires i < |h|
  {
    Exec(At(h, i), h[i]).1
  }

  // ----- which histories the service produces -----

  predicate AddsProject(e: Event, id: string)
  {
    e.command.AddProject? && e.command.project.id == id
  }

  predicate InsertsRun(e: Event, id: string)
  {
    e.command.InsertRun? && e.command.run.id == id
  }

  /** `new_id` never returns an identifier twice. */
  ghost predicate FreshIds(h: History)
  {
    && (forall i, j, id :: 0 <= i < j < |h| && AddsProject(h[i], id) ==> !AddsProject(h[j], id))
    && (forall i, j, id :: 0 <= i < j < |h| && InsertsRun(h[i], id) ==> !InsertsRun(h[j], id))
  }

  /** The reads of `create_idempotent` that must have come before its insert. */
  ghost predicate LookedUp(h: History, i: nat, tenant: string, run: Run)
    requires i < |h|
  {
    h[i] == Event(tenant, LookupRun(run.idempotencyKey, run.projectId)) && ReplyAt(h, i) == Looked(None, true)
  }

  ghost predicate GuardedInserts(h: History)
  {
    forall j :: 0 <= j < |h| && h[j].command.InsertRun? && h[j].command.run.tenantId == h[j].tenant ==>
      exists i: nat :: i < j && LookedUp(h, i, h[j].tenant, h[j].command.run)
  }

  /** Histories the repositories can produce. */
  ghost predicate Admissible(h: History)
  {
    FreshIds(h) && GuardedInserts(h)
  }

  /** Every run is created by the service, which always queues a fresh one. */
  ghost predicate ServiceRuns(h: History)
  {
    forall j :: 0 <= j < |h| && h[j].command.InsertRun? ==> ServiceFresh(h[j].command.run)
  }

  // ----- what one statement does to one run -----

  /** The statement succeeded in changing run `id`. */
  predicate Touches(c: Command, reply: Reply, id: string)
  {
    match c
    case ClaimNext(_, _, _) => reply.Claimed? && reply.claim.Some? && reply.claim.value.run.id == id
    case Heartbeat(claim, _, _) => reply == Flag(true) && claim.run.id == id
    case TransitionUpdate(claim, _, _, _) => reply == Flag(true) && claim.run.id == id
    case CancelUpdate(runId, _) => reply == Flag(true) && runId == id
    case Publish(_, _, claim, _, _) => reply == Flag(true) && claim.run.id == id
    case _ => false
  }

  /** The condition under which the statement may change `row`. */
  predicate Guard(tenant: string, c: Command, row: Run)
  {
    match c
    case ClaimNext(owner, now, secs) => RunTable.Claimable(row, tenant, now.at) && LeaseArgumentsOk(owner, now, secs)
    case Heartbeat(claim, now, secs) =>
      RunTable.HeldBy(row, tenant, claim, now.at) && row.status.Active() && LeaseArgumentsOk(claim.owner, now, secs)
    case TransitionUpdate(claim, seen, target, at) =>
      RunTable.HeldBy(row, tenant, claim, at) && row.status == seen && target in Transitions(seen)
    case CancelUpdate(_, _) => row.tenantId == tenant && row.status.Active()
    case Publish(_, _, claim, seen, at) =>
      RunTable.HeldBy(row, tenant, claim, at) && row.status == seen && Completed in Transitions(seen)
    case _ => false
  }

  function Updated(c: Command, row: Run): Run
  {
    match c
    case ClaimNext(owner, now, secs) => RunTable.ClaimRow(row, owner, now.at, secs)
    case Heartbeat(_, now, secs) => RunTable.RenewRow(row, now.at, secs)
    case TransitionUpdate(_, _, target, at) => RunTable.MoveRow(row, target, at)
    case CancelUpdate(_, at) => RunTable.CancelRow(row, at)
    case Publish(_, _, _, _, at) => RunTable.MoveRow(row, Completed, at)
    case _ => row
  }

  /** `PublishIsAtomic` at an event. */
  lemma UnfoldPublish(db: Db, e: Event)
    ensures e.command.Publish? ==>
      var Publish(json, markdown, claim, seen, at) := e.command;
      var (db', reply) := ArtifactTable.Publish(db, e.tenant, json, markdown, claim, seen, at);
      if ArtifactTable.CanPublish(db, e.tenant, json, markdown, claim, seen, at)
      then reply == Flag(true) && db' == Db(db.projects,
                                            db.runs[claim.run.id :=
                                                    RunTable.MoveRow(db.runs[claim.run.id], Completed, at)],
                                            db.artifacts[json.id := json][markdown.id := markdown])
      else reply != Flag(true) && db' == db
  {
    if e.command.Publish? {
      var Publish(json, markdown, claim, seen, at) := e.command;
      ArtifactTable.PublishIsAtomic(db, e.tenant, json, markdown, claim, seen, at);
    }
  }

  /** A statement either changes a run, by its own rule and with a successful reply, or leaves the row alone. */
  lemma StepRun(db: Db, e: Event, id: string)
    requires Keyed(db) && id in db.runs
    ensures var (db', reply) := Exec(db, e);
      && (id in db'.runs || e.command.DeleteProject?)
      && (Touches(e.command, reply, id) ==>
            id in db'.runs && Guard(e.tenant, e.command, db.runs[id])
            && db'.runs[id] == Updated(e.command, db.runs[id]))
      && (id in db'.runs && !Touches(e.command, reply, id) ==> db'.runs[id] == db.runs[id])
  {
    UnfoldPublish(db, e);
    hide ArtifactTable.Publish, ArtifactTable.GetForRun, ProjectTable.ListProjects, RunTable.LookupRun;
    match e.command
    case ClaimNext(owner, now, secs) =>
    case Heartbeat(claim, now, secs) =>
    case TransitionUpdate(claim, seen, target, at) =>
    case CancelUpdate(runId, at) =>
    case Publish(json, markdown, claim, seen, at) =>
    case DeleteProject(projectId) =>
    case _ =>
  }

  /** A run that was not there before is exactly the one this statement inserted. */
  lemma StepNewRun(db: Db, e: Event, id: string)
    requires Keyed(db) && id !in db.runs
    ensures var (db', reply) := Exec(db, e);
      && !Touches(e.command, reply, id)
      && (id in db'.runs ==>
            InsertsRun(e, id) && db'.runs[id] == e.command.run && reply == Created(e.command.run)
            && e.command.run.tenantId == e.tenant)
  {
    UnfoldPublish(db, e);
    hide ArtifactTable.Publish, ArtifactTable.GetForRun, ProjectTable.ListProjects, RunTable.LookupRun;
  }

  lemma StepKeyedRuns(db: Db, e: Event)
    requires Keyed(db)
    ensures forall id :: id in Exec(db, e).0.runs ==> Exec(db, e).0.runs[id].id == id
  {
    hide Exec;
    var db' := Exec(db, e).0;
    forall id | id in db'.runs
      ensures db'.runs[id].id == id
    {
      if id in db.runs { StepRun(db, e, id); } else { StepNewRun(db, e, id); }
    }
  }

  lemma StepKeyedProjects(db: Db, e: Event)
    requires Keyed(db)
    ensures forall id :: id in Exec(db, e).0.projects ==> Exec(db, e).0.projects[id].id == id
  {
    UnfoldPublish(db, e);
    hide ArtifactTable.Publish;
    forall id | id in Exec(db, e).0.projects
      ensures Exec(db, e).0.projects[id].id == id
    {}
  }

  lemma StepKeyedArtifacts(db: Db, e: Event)
    requires Keyed(db)
    ensures forall id :: id in Exec(db, e).0.artifacts ==> Exec(db, e).0.artifacts[id].id == id
  {
    UnfoldPublish(db, e);
    hide ArtifactTable.Publish;
    forall id | id in Exec(db, e).0.artifacts
      ensures Exec(db, e).0.artifacts[id].id == id
    {}
  }

  lemma StepKeyed(db: Db, e: Event)
    requires Keyed(db)
    ensures Keyed(Exec(db, e).0)
  {
    hide Exec;
    StepKeyedRuns(db, e);
    StepKeyedProjects(db, e);
    StepKeyedArtifacts(db, e);
  }

  lemma {:induction false} KeyedAt(h: History, i: nat)
    requires i <= |h|
    ensures Keyed(At(h, i))
  {
    hide Exec;
    if i > 0 {
      KeyedAt(h, i - 1);
      StepKeyed(At(h, i - 1), h[i - 1]);
    }
  }
}
