/** Tenants cannot observe each other: over whole histories, a tenant's answers depend only on its own commands. */
module Tenancy {
  import opened Outcome
  import opened Ordering
  import opened Runs
  import opened Database
  import opened Replies
  import opened History
  import Provenance
  import RunTable
  import ProjectTable
  import ArtifactTable

  function OwnProjects(db: Db, tenant: string): map<string, Project>
  {
    map id | id in db.projects && db.projects[id].tenantId == tenant :: db.projects[id]
  }

  function OwnRuns(db: Db, tenant: string): map<string, Run>
  {
    map id | id in db.runs && db.runs[id].tenantId == tenant :: db.runs[id]
  }

  function OwnArtifacts(db: Db, tenant: string): map<string, Artifact>
  {
    map id | id in db.artifacts && db.artifacts[id].tenantId == tenant :: db.artifacts[id]
  }

  /** The rows of one tenant. */
  function View(db: Db, tenant: string): Db
  {
    Db(OwnProjects(db, tenant), OwnRuns(db, tenant), OwnArtifacts(db, tenant))
  }

  /** `new_id` gives the new rows ids that are not in use, not even by other tenants. */
  predicate FreshRows(db: Db, c: Command)
  {
    match c
    case AddProject(p) => p.id !in db.projects
    case InsertRun(run) => run.id !in db.runs
    case AddArtifact(a) => a.id !in db.artifacts
    case Publish(json, markdown, _, _, _) =>
      json.id !in db.artifacts && markdown.id !in db.artifacts && json.id != markdown.id
    case _ => true
  }

  // ----- each statement commutes with taking the caller's view -----

  lemma PutProjectView(db: Db, tenant: string, id: string, row: Project)
    requires row.tenantId == tenant
    ensures View(db.(projects := db.projects[id := row]), tenant)
         == View(db, tenant).(projects := OwnProjects(db, tenant)[id := row])
  {}

  lemma PutRunView(db: Db, tenant: string, id: string, row: Run)
    requires row.tenantId == tenant
    ensures View(db.(runs := db.runs[id := row]), tenant) == View(db, tenant).(runs := OwnRuns(db, tenant)[id := row])
  {}

  lemma PutArtifactView(db: Db, tenant: string, id: string, row: Artifact)
    requires row.tenantId == tenant
    ensures View(db.(artifacts := db.artifacts[id := row]), tenant)
         == View(db, tenant).(artifacts := OwnArtifacts(db, tenant)[id := row])
  {}

  lemma AddProjectCommutes(db: Db, t: string, p: Project)
    requires p.id !in db.projects
    ensures var (db', r) := ProjectTable.AddProject(db, t, p);
      ProjectTable.AddProject(View(db, t), t, p) == (View(db', t), r)
  {
    if p.tenantId == t {
      PutProjectView(db, t, p.id, p);
      assert (exists id :: id in db.projects && db.projects[id].tenantId == t && db.projects[id].name == p.name)
        <==> (exists id :: id in OwnProjects(db, t) && OwnProjects(db, t)[id].tenantId == t
                           && OwnProjects(db, t)[id].name == p.name)
      by {
        assert forall id :: id in OwnProjects(db, t) ==> id in db.projects && db.projects[id] == OwnProjects(db, t)[id];
        assert forall id :: id in db.projects && db.projects[id].tenantId == t ==> id in OwnProjects(db, t);
      }
    }
  }

  lemma RenameCommutes(db: Db, t: string, id: string, name: string, version: int, now: int)
    ensures var (db', r) := ProjectTable.RenameProject(db, t, id, name, version, now);
      ProjectTable.RenameProject(View(db, t), t, id, name, version, now) == (View(db', t), r)
  {
    if RunTable.OwnProject(db, t, id) {
      var p := db.projects[id];
      PutProjectView(db, t, id, p.(name := name, updatedAt := now, version := p.version + 1));
      assert (exists x :: x in db.projects && x != id && db.projects[x].tenantId == t && db.projects[x].name == name)
        <==> (exists x :: x in OwnProjects(db, t) && x != id && OwnProjects(db, t)[x].tenantId == t
                          && OwnProjects(db, t)[x].name == name)
      by {
        assert forall x :: x in OwnProjects(db, t) ==> x in db.projects && db.projects[x] == OwnProjects(db, t)[x];
        assert forall x :: x in db.projects && db.projects[x].tenantId == t ==> x in OwnProjects(db, t);
      }
    }
  }

  lemma {:induction false} RowsOfAgree(db: Db, v: Db, ids: seq<string>)
    requires forall id :: id in ids ==> id in db.projects && id in v.projects && v.projects[id] == db.projects[id]
    ensures ProjectTable.RowsOf(db, ids) == ProjectTable.RowsOf(v, ids)
  {
    if ids != [] {
      RowsOfAgree(db, v, ids[1..]);
    }
  }

  lemma ListCommutes(db: Db, t: string, limit: int, offset: int)
    ensures ProjectTable.ListProjects(View(db, t), t, limit, offset) == ProjectTable.ListProjects(db, t, limit, offset)
  {
    var v := View(db, t);
    var rows := ProjectTable.ProjectsByCreation(db, t);
    assert ProjectTable.ProjectsByCreation(v, t) == rows;
    InOrderSorts(rows);
    if 1 <= limit <= 100 && offset >= 0 {
      var ids := ProjectTable.Page(InOrder(rows), limit, offset);
      forall id | id in ids
        ensures id in v.projects && v.projects[id] == db.projects[id]
      {
        assert id in rows;
      }
      RowsOfAgree(db, v, ids);
    }
  }

  lemma OwnArtifactsSeeTheirRun(db: Db, t: string, a: string)
    requires TenantSound(db) && a in OwnArtifacts(db, t)
    ensures var runId := OwnArtifacts(db, t)[a].runId;
      runId in db.runs && runId in OwnRuns(db, t) && OwnRuns(db, t)[runId] == db.runs[runId]
  {
    assert a in db.artifacts;
  }

  lemma DeleteCommutesOnArtifacts(db: Db, t: string, id: string)
    requires TenantSound(db) && RunTable.OwnProject(db, t, id)
    ensures ProjectTable.DeleteProject(View(db, t), t, id).0.artifacts
         == OwnArtifacts(ProjectTable.DeleteProject(db, t, id).0, t)
  {
    hide TenantSound, OwnRuns;
    forall a | a in OwnArtifacts(db, t)
      ensures var runId := db.artifacts[a].runId;
        runId in db.runs && runId in OwnRuns(db, t) && OwnRuns(db, t)[runId] == db.runs[runId]
    {
      OwnArtifactsSeeTheirRun(db, t, a);
    }
  }

  /** The cascade of a delete reaches only rows of the caller's tenant. */
  lemma DeleteCommutes(db: Db, t: string, id: string)
    requires TenantSound(db)
    ensures var (db', r) := ProjectTable.DeleteProject(db, t, id);
      ProjectTable.DeleteProject(View(db, t), t, id) == (View(db', t), r)
  {
    if RunTable.OwnProject(db, t, id) {
      var lhs := ProjectTable.DeleteProject(View(db, t), t, id).0;
      var rhs := View(ProjectTable.DeleteProject(db, t, id).0, t);
      assert lhs.projects == rhs.projects;
      assert lhs.runs == rhs.runs;
      DeleteCommutesOnArtifacts(db, t, id);
    }
  }

  /** Nor does it touch the rows of any other tenant. */
  lemma DeleteSparesOthers(db: Db, t: string, id: string, other: string)
    requires TenantSound(db) && other != t
    ensures View(ProjectTable.DeleteProject(db, t, id).0, other) == View(db, other)
  {
    if RunTable.OwnProject(db, t, id) {
      var lhs, rhs := View(ProjectTable.DeleteProject(db, t, id).0, other), View(db, other);
      assert lhs.projects == rhs.projects;
      assert lhs.runs == rhs.runs;
      assert lhs.artifacts == rhs.artifacts;
    }
  }

  lemma LookupCommutes(db: Db, t: string, key: string, projectId: string)
    ensures RunTable.LookupRun(View(db, t), t, key, projectId) == RunTable.LookupRun(db, t, key, projectId)
  {
    assert RunTable.WithKey(View(db, t), t, key) == RunTable.WithKey(db, t, key);
  }

  lemma InsertCommutes(db: Db, t: string, run: Run)
    requires run.id !in db.runs
    requires run.tenantId == t && run.projectId in db.projects ==> db.projects[run.projectId].tenantId == t
    ensures var (db', r) := RunTable.InsertRun(db, t, run);
      RunTable.InsertRun(View(db, t), t, run) == (View(db', t), r)
  {
    if run.tenantId == t {
      PutRunView(db, t, run.id, run);
      assert RunTable.InsertableRun(View(db, t), run) == RunTable.InsertableRun(db, run) by {
        assert forall id :: id in OwnRuns(db, t) ==> id in db.runs && db.runs[id] == OwnRuns(db, t)[id];
        assert forall id :: id in db.runs && db.runs[id].tenantId == t ==> id in OwnRuns(db, t);
      }
    }
  }

  lemma ClaimCommutes(db: Db, t: string, owner: string, now: Moment, secs: int)
    ensures var (db', r) := RunTable.ClaimNext(db, t, owner, now, secs);
      RunTable.ClaimNext(View(db, t), t, owner, now, secs) == (View(db', t), r)
  {
    var rows := RunTable.ClaimableRows(db, t, now.at);
    assert RunTable.ClaimableRows(View(db, t), t, now.at) == rows;
    if rows != map[] {
      var id := First(rows);
      PutRunView(db, t, id, RunTable.ClaimRow(db.runs[id], owner, now.at, secs));
    }
  }

  lemma HeartbeatCommutes(db: Db, t: string, claim: LeaseClaim, now: Moment, secs: int)
    ensures var (db', r) := RunTable.Heartbeat(db, t, claim, now, secs);
      RunTable.Heartbeat(View(db, t), t, claim, now, secs) == (View(db', t), r)
  {
    if RunTable.CanRenew(db, t, claim, now.at) {
      PutRunView(db, t, claim.run.id, RunTable.RenewRow(db.runs[claim.run.id], now.at, secs));
    }
  }

  lemma MoveCommutes(db: Db, t: string, claim: LeaseClaim, seen: RunStatus, target: RunStatus, at: int)
    ensures var (db', r) := RunTable.TransitionUpdate(db, t, claim, seen, target, at);
      RunTable.TransitionUpdate(View(db, t), t, claim, seen, target, at) == (View(db', t), r)
  {
    if RunTable.CanMove(db, t, claim, seen, at) {
      PutRunView(db, t, claim.run.id, RunTable.MoveRow(db.runs[claim.run.id], target, at));
    }
  }

  lemma CancelCommutes(db: Db, t: string, id: string, at: int)
    ensures var (db', r) := RunTable.CancelUpdate(db, t, id, at);
      RunTable.CancelUpdate(View(db, t), t, id, at) == (View(db', t), r)
  {
    if RunTable.CanCancel(db, t, id) {
      PutRunView(db, t, id, RunTable.CancelRow(db.runs[id], at));
    }
  }

  lemma AddArtifactCommutes(db: Db, t: string, a: Artifact)
    requires a.id !in db.artifacts
    ensures var (db', r) := ArtifactTable.AddArtifact(db, t, a);
      ArtifactTable.AddArtifact(View(db, t), t, a) == (View(db', t), r)
  {
    if a.tenantId == t {
      PutArtifactView(db, t, a.id, a);
      assert ArtifactTable.FreeArtifact(View(db, t), a) == ArtifactTable.FreeArtifact(db, a) by {
        assert forall id :: id in OwnArtifacts(db, t)
                            ==> id in db.artifacts && db.artifacts[id] == OwnArtifacts(db, t)[id];
        assert forall id :: id in db.artifacts && db.artifacts[id].tenantId == t ==> id in OwnArtifacts(db, t);
      }
    }
  }

  lemma GetForRunCommutes(db: Db, t: string, runId: string, format: string, choice: string)
    ensures ArtifactTable.GetForRun(View(db, t), t, runId, format, choice)
         == ArtifactTable.GetForRun(db, t, runId, format, choice)
  {
    assert ArtifactTable.ReportRows(View(db, t), t, runId, format) == ArtifactTable.ReportRows(db, t, runId, format);
  }

  lemma MarkDeletedCommutes(db: Db, t: string, id: string, at: int)
    ensures var (db', r) := ArtifactTable.MarkDeleted(db, t, id, at);
      ArtifactTable.MarkDeleted(View(db, t), t, id, at) == (View(db', t), r)
  {
    if id in db.artifacts && ArtifactTable.Visible(db.artifacts[id], t) {
      PutArtifactView(db, t, id, db.artifacts[id].(deletedAt := Some(at)));
    }
  }

  lemma AddArtifactKeys(db: Db, t: string, a: Artifact, id: string)
    requires id !in db.artifacts && id != a.id
    ensures id !in ArtifactTable.AddArtifact(db, t, a).0.artifacts
  {}

  lemma PublishCommutes(db: Db, t: string, json: Artifact, md: Artifact, claim: LeaseClaim, seen: RunStatus, at: int)
    requires json.id !in db.artifacts && md.id !in db.artifacts && json.id != md.id
    ensures var (db', r) := ArtifactTable.Publish(db, t, json, md, claim, seen, at);
      ArtifactTable.Publish(View(db, t), t, json, md, claim, seen, at) == (View(db', t), r)
  {
    hide ArtifactTable.AddArtifact, RunTable.TransitionUpdate, View;
    AddArtifactCommutes(db, t, json);
    AddArtifactKeys(db, t, json, md.id);
    var db1 := ArtifactTable.AddArtifact(db, t, json).0;
    AddArtifactCommutes(db1, t, md);
    MoveCommutes(ArtifactTable.AddArtifact(db1, t, md).0, t, claim, seen, Completed, at);
  }

  lemma ReadsCommute(db: Db, t: string, id: string)
    ensures ProjectTable.GetProject(View(db, t), t, id) == ProjectTable.GetProject(db, t, id)
    ensures RunTable.GetRun(View(db, t), t, id) == RunTable.GetRun(db, t, id)
    ensures ArtifactTable.GetArtifact(View(db, t), t, id) == ArtifactTable.GetArtifact(db, t, id)
  {}

  /** Running the statement on the caller's own rows alone gives the same reply and the same own rows. */
  lemma StatementCommutes(db: Db, e: Event)
    requires Sound(db) && FreshRows(db, e.command) && Provenance.OwnInsert(db, e)
    ensures Exec(View(db, e.tenant), e) == (View(Exec(db, e).0, e.tenant), Exec(db, e).1)
  {
    hide View, ProjectTable.GetProject, RunTable.GetRun, ArtifactTable.GetArtifact, ArtifactTable.Publish,
      ArtifactTable.GetForRun, ArtifactTable.AddArtifact, ProjectTable.ListProjects,
      ProjectTable.AddProject, ProjectTable.DeleteProject, ProjectTable.RenameProject, RunTable.LookupRun,
      RunTable.InsertRun, RunTable.ClaimNext, RunTable.Heartbeat, RunTable.TransitionUpdate, RunTable.CancelUpdate,
      ArtifactTable.MarkDeleted;
    match e.command
    case AddProject(p) => AddProjectCommutes(db, e.tenant, p);
    case GetProject(id) => ReadsCommute(db, e.tenant, id);
    case RenameProject(id, name, version, at) => RenameCommutes(db, e.tenant, id, name, version, at);
    case ListProjects(limit, offset) => ListCommutes(db, e.tenant, limit, offset);
    case DeleteProject(id) => DeleteCommutes(db, e.tenant, id);
    case LookupRun(key, projectId) => LookupCommutes(db, e.tenant, key, projectId);
    case InsertRun(run) => InsertCommutes(db, e.tenant, run);
    case ClaimNext(owner, now, secs) => ClaimCommutes(db, e.tenant, owner, now, secs);
    case GetRun(id) => ReadsCommute(db, e.tenant, id);
    case Heartbeat(claim, now, secs) => HeartbeatCommutes(db, e.tenant, claim, now, secs);
    case TransitionUpdate(claim, seen, target, at) => MoveCommutes(db, e.tenant, claim, seen, target, at);
    case CancelUpdate(id, at) => CancelCommutes(db, e.tenant, id, at);
    case AddArtifact(a) => AddArtifactCommutes(db, e.tenant, a);
    case GetArtifact(id) => ReadsCommute(db, e.tenant, id);
    case GetForRun(runId, format, choice) => GetForRunCommutes(db, e.tenant, runId, format, choice);
    case MarkDeleted(id, at) => MarkDeletedCommutes(db, e.tenant, id, at);
    case Publish(json, markdown, claim, seen, at) => PublishCommutes(db, e.tenant, json, markdown, claim, seen, at);
  }

  /** Two databases that agree on a tenant's rows answer its statement alike and still agree afterwards. */
  lemma AgreementIsKept(db1: Db, db2: Db, e: Event)
    requires Sound(db1) && FreshRows(db1, e.command) && Provenance.OwnInsert(db1, e)
    requires Sound(db2) && FreshRows(db2, e.command) && Provenance.OwnInsert(db2, e)
    requires View(db1, e.tenant) == View(db2, e.tenant)
    ensures Exec(db1, e).1 == Exec(db2, e).1
    ensures View(Exec(db1, e).0, e.tenant) == View(Exec(db2, e).0, e.tenant)
  {
    hide Exec, View, FreshRows, Provenance.OwnInsert, Sound;
    StatementCommutes(db1, e);
    StatementCommutes(db2, e);
  }

  lemma ProjectCascade(db: Db, e: Event)
    requires e.command.DeleteProject?
    ensures Exec(db, e).0 == ProjectTable.DeleteProject(db, e.tenant, e.command.projectId).0
  {}

  lemma OtherProject(db: Db, e: Event, id: string)
    requires FreshRows(db, e.command)
    ensures var db' := Exec(db, e).0;
      && (id in db.projects && db.projects[id].tenantId != e.tenant
          ==> id in db'.projects && db'.projects[id] == db.projects[id])
      && (id in db'.projects && db'.projects[id].tenantId != e.tenant
          ==> id in db.projects && db'.projects[id] == db.projects[id])
  {
    UnfoldPublish(db, e);
    hide ArtifactTable.Publish, ArtifactTable.GetForRun, ProjectTable.ListProjects, RunTable.LookupRun;
  }

  lemma OthersProjects(db: Db, e: Event, other: string)
    requires FreshRows(db, e.command) && other != e.tenant
    ensures OwnProjects(Exec(db, e).0, other) == OwnProjects(db, other)
  {
    hide Exec, FreshRows;
    var db' := Exec(db, e).0;
    forall id: string
      ensures id in db.projects && db.projects[id].tenantId == other
          ==> id in db'.projects && db'.projects[id] == db.projects[id]
      ensures id in db'.projects && db'.projects[id].tenantId == other
          ==> id in db.projects && db'.projects[id] == db.projects[id]
    {
      OtherProject(db, e, id);
    }
  }

  lemma OthersRuns(db: Db, e: Event, other: string)
    requires Sound(db) && FreshRows(db, e.command) && other != e.tenant && !e.command.DeleteProject?
    ensures OwnRuns(Exec(db, e).0, other) == OwnRuns(db, other)
  {
    hide Exec;
    var db' := Exec(db, e).0;
    forall id: string
      ensures id in db.runs && db.runs[id].tenantId == other ==> id in db'.runs && db'.runs[id] == db.runs[id]
      ensures id in db'.runs && db'.runs[id].tenantId == other ==> id in db.runs && db'.runs[id] == db.runs[id]
    {
      if id in db.runs { StepRun(db, e, id); } else { StepNewRun(db, e, id); }
    }
  }

  lemma OtherArtifact(db: Db, e: Event, id: string)
    requires FreshRows(db, e.command) && !e.command.DeleteProject?
    ensures var db' := Exec(db, e).0;
      && (id in db.artifacts && db.artifacts[id].tenantId != e.tenant
          ==> id in db'.artifacts && db'.artifacts[id] == db.artifacts[id])
      && (id in db'.artifacts && db'.artifacts[id].tenantId != e.tenant
          ==> id in db.artifacts && db'.artifacts[id] == db.artifacts[id])
  {
    UnfoldPublish(db, e);
    hide ArtifactTable.Publish, ArtifactTable.GetForRun, ProjectTable.ListProjects, RunTable.LookupRun;
  }

  lemma OthersArtifacts(db: Db, e: Event, other: string)
    requires FreshRows(db, e.command) && other != e.tenant && !e.command.DeleteProject?
    ensures OwnArtifacts(Exec(db, e).0, other) == OwnArtifacts(db, other)
  {
    hide Exec, FreshRows;
    var db' := Exec(db, e).0;
    forall id: string
      ensures id in db.artifacts && db.artifacts[id].tenantId == other
          ==> id in db'.artifacts && db'.artifacts[id] == db.artifacts[id]
      ensures id in db'.artifacts && db'.artifacts[id].tenantId == other
          ==> id in db.artifacts && db'.artifacts[id] == db.artifacts[id]
    {
      OtherArtifact(db, e, id);
    }
  }

  /** A statement of one tenant leaves every row of every other tenant as it was. */
  lemma OthersAreUntouched(db: Db, e: Event, other: string)
    requires Sound(db) && FreshRows(db, e.command) && other != e.tenant
    ensures View(Exec(db, e).0, other) == View(db, other)
  {
    hide Exec;
    if e.command.DeleteProject? {
      ProjectCascade(db, e);
      DeleteSparesOthers(db, e.tenant, e.command.projectId, other);
    } else {
      OthersProjects(db, e, other);
      OthersRuns(db, e, other);
      OthersArtifacts(db, e, other);
    }
  }

  // ----- whole histories -----

  /** The commands of one tenant among the first `i` events. */
  function Own(h: History, tenant: string, i: nat): seq<Command>
    requires i <= |h|
  {
    if i == 0 then []
    else Own(h, tenant, i - 1) + if h[i - 1].tenant == tenant then [h[i - 1].command] else []
  }

  /** The replies that tenant got to them. */
  ghost function Answers(h: History, tenant: string, i: nat): seq<Reply>
    requires i <= |h|
  {
    if i == 0 then []
    else Answers(h, tenant, i - 1) + if h[i - 1].tenant == tenant then [ReplyAt(h, i - 1)] else []
  }

  predicate AddsArtifact(e: Event, id: string)
  {
    || (e.command.AddArtifact? && e.command.artifact.id == id)
    || (e.command.Publish? && (e.command.json.id == id || e.command.markdown.id == id))
  }

  ghost predicate FreshArtifactIds(h: History)
  {
    && (forall i, j, id :: 0 <= i < j < |h| && AddsArtifact(h[i], id) ==> !AddsArtifact(h[j], id))
    && (forall i :: 0 <= i < |h| && h[i].command.Publish? ==> h[i].command.json.id != h[i].command.markdown.id)
  }

  lemma NewArtifactWasAdded(db: Db, e: Event, id: string)
    requires id in Exec(db, e).0.artifacts && id !in db.artifacts
    ensures AddsArtifact(e, id)
  {
    UnfoldPublish(db, e);
    hide ArtifactTable.Publish, ArtifactTable.GetForRun, ProjectTable.ListProjects, RunTable.LookupRun;
  }

  lemma {:induction false} ArtifactOrigin(h: History, i: nat, id: string)
    requires i <= |h| && id in At(h, i).artifacts
    ensures exists k: nat :: k < i && AddsArtifact(h[k], id)
  {
    hide Exec;
    if id in At(h, i - 1).artifacts {
      ArtifactOrigin(h, i - 1, id);
    } else {
      NewArtifactWasAdded(At(h, i - 1), h[i - 1], id);
    }
  }

  lemma RowsAreFresh(h: History, i: nat)
    requires FreshIds(h) && FreshArtifactIds(h) && i < |h|
    ensures FreshRows(At(h, i), h[i].command)
  {
    hide Exec;
    match h[i].command
    case AddProject(p) =>
      assert AddsProject(h[i], p.id);
      if p.id in At(h, i).projects { Provenance.ProjectOrigin(h, i, p.id); }
    case InsertRun(run) =>
      assert InsertsRun(h[i], run.id);
      if run.id in At(h, i).runs { Provenance.RunOrigin(h, i, run.id); }
    case AddArtifact(a) =>
      assert AddsArtifact(h[i], a.id);
      if a.id in At(h, i).artifacts { ArtifactOrigin(h, i, a.id); }
    case Publish(json, markdown, _, _, _) =>
      assert AddsArtifact(h[i], json.id) && AddsArtifact(h[i], markdown.id);
      if json.id in At(h, i).artifacts { ArtifactOrigin(h, i, json.id); }
      if markdown.id in At(h, i).artifacts { ArtifactOrigin(h, i, markdown.id); }
    case _ =>
  }

  lemma StepConditions(h: History, i: nat)
    requires Admissible(h) && FreshArtifactIds(h) && i < |h|
    ensures Sound(At(h, i)) && FreshRows(At(h, i), h[i].command) && Provenance.OwnInsert(At(h, i), h[i])
  {
    hide Exec;
    Provenance.SoundAt(h, i);
    RowsAreFresh(h, i);
    Provenance.InsertsStayOwn(h, i);
  }

  lemma OwnIsUnmoved(h: History, i: nat, tenant: string)
    requires Admissible(h) && FreshArtifactIds(h) && i < |h| && h[i].tenant != tenant
    ensures Own(h, tenant, i + 1) == Own(h, tenant, i)
    ensures Answers(h, tenant, i + 1) == Answers(h, tenant, i)
    ensures View(At(h, i + 1), tenant) == View(At(h, i), tenant)
  {
    hide Exec, View;
    StepConditions(h, i);
    OthersAreUntouched(At(h, i), h[i], tenant);
  }

  /**
   Non-interference: in any two histories in which a tenant issues the same commands, however many
   other tenants do whatever in between, that tenant gets the same answers and ends with the same rows.
   */
  lemma {:induction false} NonInterference(g: History, i: nat, h: History, j: nat, tenant: string)
    requires Admissible(g) && FreshArtifactIds(g) && i <= |g|
    requires Admissible(h) && FreshArtifactIds(h) && j <= |h|
    requires Own(g, tenant, i) == Own(h, tenant, j)
    ensures Answers(g, tenant, i) == Answers(h, tenant, j)
    ensures View(At(g, i), tenant) == View(At(h, j), tenant)
    decreases i + j
  {
    hide Exec, View, FreshRows, Sound, Admissible, FreshArtifactIds;
    if i > 0 && g[i - 1].tenant != tenant {
      OwnIsUnmoved(g, i - 1, tenant);
      NonInterference(g, i - 1, h, j, tenant);
    } else if j > 0 && h[j - 1].tenant != tenant {
      OwnIsUnmoved(h, j - 1, tenant);
      NonInterference(g, i, h, j - 1, tenant);
    } else if i > 0 && j > 0 {
      var gs, hs := Own(g, tenant, i), Own(h, tenant, j);
      assert gs[|gs| - 1] == g[i - 1].command && hs[|hs| - 1] == h[j - 1].command;
      assert gs[..|gs| - 1] == Own(g, tenant, i - 1) && hs[..|hs| - 1] == Own(h, tenant, j - 1);
      NonInterference(g, i - 1, h, j - 1, tenant);
      assert g[i - 1] == h[j - 1];
      StepConditions(g, i - 1);
      StepConditions(h, j - 1);
      AgreementIsKept(At(g, i - 1), At(h, j - 1), g[i - 1]);
    }
  }
}
