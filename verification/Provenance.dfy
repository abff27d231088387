/** Where rows come from, and the constraints every reachable state of the tables satisfies. */
module Provenance {
  import opened Runs
  import opened Database
  import opened Replies
  import opened History
  import RunTable
  import ProjectTable
  import ArtifactTable

  /** The columns no statement ever rewrites. */
  predicate SameIdentity(x: Run, y: Run)
  {
    && x.id == y.id && x.tenantId == y.tenantId && x.projectId == y.projectId
    && x.suiteVersion == y.suiteVersion && x.seed == y.seed
    && x.idempotencyKey == y.idempotencyKey && x.createdAt == y.createdAt
  }

  /** Event `k` inserted run `id`. */
  ghost predicate InsertedAt(h: History, k: nat, id: string)
    requires k < |h|
  {
    && InsertsRun(h[k], id)
    && h[k].command.run.tenantId == h[k].tenant
    && ReplyAt(h, k) == Created(h[k].command.run)
  }

  lemma {:induction false} RunOrigin(h: History, i: nat, id: string)
    requires i <= |h| && id in At(h, i).runs
    ensures exists k: nat :: k < i && InsertedAt(h, k, id) && SameIdentity(At(h, i).runs[id], h[k].command.run)
  {
    hide Exec;
    KeyedAt(h, i - 1);
    if id in At(h, i - 1).runs {
      RunOrigin(h, i - 1, id);
      StepRun(At(h, i - 1), h[i - 1], id);
    } else {
      StepNewRun(At(h, i - 1), h[i - 1], id);
      assert InsertedAt(h, i - 1, id);
    }
  }

  /** Projects keep their tenant, appear by `AddProject`, and take their runs with them when deleted. */
  lemma StepProject(db: Db, e: Event, id: string)
    requires Keyed(db)
    ensures var db' := Exec(db, e).0;
      && (id in db'.projects && id in db.projects ==> db'.projects[id].tenantId == db.projects[id].tenantId)
      && (id in db'.projects && id !in db.projects ==> AddsProject(e, id) && db'.projects[id].tenantId == e.tenant)
      && (id in db.projects && id !in db'.projects ==>
            e.command == DeleteProject(id) && forall r :: r in db'.runs ==> db'.runs[r].projectId != id)
  {
    UnfoldPublish(db, e);
    hide ArtifactTable.Publish, ArtifactTable.GetForRun, ProjectTable.ListProjects, RunTable.LookupRun;
  }

  lemma {:induction false} ProjectOrigin(h: History, i: nat, id: string)
    requires i <= |h| && id in At(h, i).projects
    ensures exists k: nat :: k < i && AddsProject(h[k], id) && At(h, i).projects[id].tenantId == h[k].tenant
  {
    hide Exec;
    KeyedAt(h, i - 1);
    StepProject(At(h, i - 1), h[i - 1], id);
    if id in At(h, i - 1).projects {
      ProjectOrigin(h, i - 1, id);
    }
  }

  /** Project ids are never reused, so a project never changes hands. */
  lemma ProjectKeepsTenant(h: History, i: nat, j: nat, id: string)
    requires FreshIds(h) && i <= |h| && j <= |h|
    requires id in At(h, i).projects && id in At(h, j).projects
    ensures At(h, i).projects[id].tenantId == At(h, j).projects[id].tenantId
  {
    hide Exec;
    ProjectOrigin(h, i, id);
    ProjectOrigin(h, j, id);
  }

  /** A deleted run never comes back. */
  lemma {:induction false} RunLivesBetween(h: History, i: nat, k: nat, j: nat, id: string)
    requires FreshIds(h) && i <= k <= j <= |h|
    requires id in At(h, i).runs && id in At(h, j).runs
    ensures id in At(h, k).runs
    decreases j
  {
    hide Exec;
    if k < j {
      KeyedAt(h, j - 1);
      if id in At(h, j - 1).runs {
        RunLivesBetween(h, i, k, j - 1, id);
      } else {
        StepNewRun(At(h, j - 1), h[j - 1], id);
        RunOrigin(h, i, id);
      }
    }
  }

  /** A run keeps its tenant, project, key, seed and creation time for as long as it lives. */
  lemma IdentityIsForever(h: History, i: nat, j: nat, id: string)
    requires FreshIds(h) && i <= |h| && j <= |h|
    requires id in At(h, i).runs && id in At(h, j).runs
    ensures SameIdentity(At(h, i).runs[id], At(h, j).runs[id])
  {
    hide Exec, ReplyAt;
    RunOrigin(h, i, id);
    RunOrigin(h, j, id);
  }

  // ----- the constraints hold in every reachable state -----

  /** An insert may only name a project of its own tenant. */
  predicate OwnInsert(db: Db, e: Event)
  {
    e.command.InsertRun? && e.command.run.tenantId == e.tenant && e.command.run.projectId in db.projects
    ==> db.projects[e.command.run.projectId].tenantId == e.tenant
  }

  lemma StepUniqueProjects(db: Db, e: Event)
    requires Sound(db)
    ensures var db' := Exec(db, e).0;
      forall x, y :: x in db'.projects && y in db'.projects && SameProjectName(db'.projects[x], db'.projects[y])
                     ==> x == y
  {
    UnfoldPublish(db, e);
    hide ArtifactTable.Publish, ArtifactTable.GetForRun, ProjectTable.ListProjects, RunTable.LookupRun;
  }

  /** A surviving run keeps its key; an inserted one has a key no other run of its tenant has. */
  lemma StepRunKey(db: Db, e: Event, id: string)
    requires Keyed(db) && id in Exec(db, e).0.runs
    ensures var db' := Exec(db, e).0;
      if id in db.runs then SameIdentity(db'.runs[id], db.runs[id])
      else InsertsRun(e, id)
           && forall x :: x in db'.runs && x != id ==> x in db.runs && !SameRunKey(db.runs[x], db'.runs[id])
  {
    if id in db.runs {
      hide Exec;
      StepRun(db, e, id);
    } else {
      StepNewRun(db, e, id);
    }
  }

  lemma StepUniqueRuns(db: Db, e: Event)
    requires Sound(db)
    ensures var db' := Exec(db, e).0;
      forall x, y :: x in db'.runs && y in db'.runs && SameRunKey(db'.runs[x], db'.runs[y]) ==> x == y
  {
    hide Exec;
    var db' := Exec(db, e).0;
    forall x, y | x in db'.runs && y in db'.runs && SameRunKey(db'.runs[x], db'.runs[y])
      ensures x == y
    {
      StepRunKey(db, e, x);
      StepRunKey(db, e, y);
      if x in db.runs && y in db.runs {
        assert SameRunKey(db.runs[x], db.runs[y]);
      }
    }
  }

  /** A new artifact row has an object key no row of its tenant has. */
  lemma NewArtifactIsFree(db: Db, e: Event, id: string, x: string)
    requires id in Exec(db, e).0.artifacts && id !in db.artifacts
    requires x in Exec(db, e).0.artifacts && x != id
    ensures !SameObject(Exec(db, e).0.artifacts[x], Exec(db, e).0.artifacts[id])
  {
    UnfoldPublish(db, e);
    hide ArtifactTable.Publish, ArtifactTable.GetForRun, ProjectTable.ListProjects, RunTable.LookupRun;
    if x in db.artifacts {
      assert Exec(db, e).0.artifacts[x] == db.artifacts[x];
    }
  }

  /** An artifact row keeps its run and tenant, and a new one belongs to a run of the caller's tenant. */
  lemma StepArtifact(db: Db, e: Event, id: string)
    requires Keyed(db)
    requires id in Exec(db, e).0.artifacts
    ensures var row := Exec(db, e).0.artifacts[id];
      if id in db.artifacts
      then row.runId == db.artifacts[id].runId && row.tenantId == db.artifacts[id].tenantId
           && row.createdAt == db.artifacts[id].createdAt && row.format == db.artifacts[id].format
           && row.objectKey == db.artifacts[id].objectKey && row.sha256 == db.artifacts[id].sha256
           && row.sizeBytes == db.artifacts[id].sizeBytes
      else (e.command.AddArtifact? || e.command.Publish?)
           && RunTable.OwnRun(db, e.tenant, row.runId) && row.tenantId == e.tenant
  {
    UnfoldPublish(db, e);
    hide ArtifactTable.Publish, ArtifactTable.GetForRun, ProjectTable.ListProjects, RunTable.LookupRun;
  }

  lemma StepUniqueArtifacts(db: Db, e: Event)
    requires Sound(db)
    ensures var db' := Exec(db, e).0;
      forall x, y :: x in db'.artifacts && y in db'.artifacts && SameObject(db'.artifacts[x], db'.artifacts[y])
                     ==> x == y
  {
    hide Exec;
    var db' := Exec(db, e).0;
    forall x, y | x in db'.artifacts && y in db'.artifacts && SameObject(db'.artifacts[x], db'.artifacts[y])
      ensures x == y
    {
      if x != y {
        if x !in db.artifacts { NewArtifactIsFree(db, e, x, y); }
        if y !in db.artifacts { NewArtifactIsFree(db, e, y, x); }
        StepArtifact(db, e, x);
        StepArtifact(db, e, y);
      }
    }
  }

  lemma InsertedRunHasProject(db: Db, e: Event, id: string)
    requires Keyed(db) && id !in db.runs && id in Exec(db, e).0.runs
    ensures InsertsRun(e, id) && Exec(db, e).0.runs[id] == e.command.run && e.command.run.tenantId == e.tenant
    ensures e.command.run.projectId in db.projects && Exec(db, e).0.projects == db.projects
  {
    StepNewRun(db, e, id);
  }

  lemma StepRunTenants(db: Db, e: Event)
    requires Sound(db) && OwnInsert(db, e)
    ensures var db' := Exec(db, e).0;
      forall id :: id in db'.runs ==>
        db'.runs[id].projectId in db'.projects
        && db'.projects[db'.runs[id].projectId].tenantId == db'.runs[id].tenantId
  {
    hide Exec;
    var db' := Exec(db, e).0;
    forall id | id in db'.runs
      ensures db'.runs[id].projectId in db'.projects
      ensures db'.projects[db'.runs[id].projectId].tenantId == db'.runs[id].tenantId
    {
      if id in db.runs { StepRun(db, e, id); } else { InsertedRunHasProject(db, e, id); }
      StepProject(db, e, db'.runs[id].projectId);
    }
  }

  /** Deleting a project takes the artifacts of its runs along. */
  lemma DeleteCascades(db: Db, e: Event, id: string)
    requires Keyed(db) && e.command.DeleteProject?
    requires id in Exec(db, e).0.artifacts && id in db.artifacts && db.artifacts[id].runId in db.runs
    ensures db.artifacts[id].runId in Exec(db, e).0.runs
  {}

  lemma StepArtifactTenants(db: Db, e: Event)
    requires Sound(db)
    ensures var db' := Exec(db, e).0;
      forall id :: id in db'.artifacts ==>
        db'.artifacts[id].runId in db'.runs
        && db'.runs[db'.artifacts[id].runId].tenantId == db'.artifacts[id].tenantId
  {
    hide Exec;
    var db' := Exec(db, e).0;
    forall id | id in db'.artifacts
      ensures db'.artifacts[id].runId in db'.runs
      ensures db'.runs[db'.artifacts[id].runId].tenantId == db'.artifacts[id].tenantId
    {
      StepArtifact(db, e, id);
      var runId := db'.artifacts[id].runId;
      assert runId in db.runs && db.runs[runId].tenantId == db'.artifacts[id].tenantId;
      StepRun(db, e, runId);
      if e.command.DeleteProject? {
        DeleteCascades(db, e, id);
      }
    }
  }

  lemma StepSound(db: Db, e: Event)
    requires Sound(db) && OwnInsert(db, e)
    ensures Sound(Exec(db, e).0)
  {
    hide Exec;
    StepKeyed(db, e);
    StepUniqueProjects(db, e);
    StepUniqueRuns(db, e);
    StepUniqueArtifacts(db, e);
    StepRunTenants(db, e);
    StepArtifactTenants(db, e);
  }

  lemma LookedUpOwns(h: History, i: nat, tenant: string, run: Run)
    requires i < |h| && LookedUp(h, i, tenant, run)
    ensures RunTable.OwnProject(At(h, i), tenant, run.projectId)
  {}

  /** The project check of `create_idempotent` still protects the insert that follows it. */
  lemma InsertsStayOwn(h: History, j: nat)
    requires Admissible(h) && j < |h|
    ensures OwnInsert(At(h, j), h[j])
  {
    hide Exec, ReplyAt;
    if h[j].command.InsertRun? && h[j].command.run.tenantId == h[j].tenant
       && h[j].command.run.projectId in At(h, j).projects
    {
      var run := h[j].command.run;
      var i: nat :| i < j && LookedUp(h, i, h[j].tenant, run);
      LookedUpOwns(h, i, h[j].tenant, run);
      ProjectKeepsTenant(h, i, j, run.projectId);
    }
  }

  /** Keys stay unique, foreign keys resolve, and rows share their parent's tenant, in every reachable state. */
  lemma {:induction false} SoundAt(h: History, i: nat)
    requires Admissible(h) && i <= |h|
    ensures Sound(At(h, i))
  {
    hide Exec;
    if i > 0 {
      SoundAt(h, i - 1);
      InsertsStayOwn(h, i - 1);
      StepSound(At(h, i - 1), h[i - 1]);
    }
  }
}
