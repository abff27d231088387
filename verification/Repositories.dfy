/**
 The repositories as objects over one database session. Each method does what the source does, row
 by row, and is proved to be the statement the histories are made of.
 */
module Repositories {
  import opened Outcome
  import opened Ordering
  import opened Runs
  import opened Database
  import opened Replies
  import RunTable
  import ProjectTable
  import ArtifactTable

  /** A session with the tables it sees. Raising rolls its transaction back. */
  class Session {
    var db: Db

    constructor ()
      ensures db == EMPTY
    {
      db := EMPTY;
    }
  }

  /** `ORDER BY created_at, id LIMIT 1`. */
  method SelectFirst(created: map<string, int>) returns (id: Option<string>)
    ensures id == if created == map[] then None else Some(First(created))
  {
    if created == map[] {
      return None;
    }
    var pending := created.Keys;
    var best :| best in pending;
    pending := pending - {best};
    while pending != {}
      invariant best in created && pending <= created.Keys
      invariant forall y :: y in created && y !in pending && y != best ==> Before(created, best, y)
      decreases |pending|
    {
      var next :| next in pending;
      pending := pending - {next};
      if Before(created, next, best) {
        forall y | y in created && y !in pending && y != next
          ensures Before(created, next, y)
        {
          if y != best { BeforeTransitive(created, next, best, y); }
        }
        best := next;
      } else {
        StringLessTotal(best, next);
      }
    }
    FirstUnique(created, best, First(created));
    return Some(best);
  }

  function Answer<T>(r: Result<T>, ok: T -> Reply): Reply
  {
    match r
    case Ok(value) => ok(value)
    case Err(error) => Raised(error)
  }

  class EvaluationRunRepository {
    const session: Session
    const tenantId: string

    constructor (session: Session, tenantId: string)
      ensures this.session == session && this.tenantId == tenantId
    {
      this.session := session;
      this.tenantId := tenantId;
    }

    method CreateIdempotent(run: Run) returns (r: Result<(Run, bool)>)
      modifies session
      ensures (session.db, Answer(r, (p: (Run, bool)) => if p.1 then Created(p.0) else Existing(p.0)))
           == RunTable.CreateIdempotent(old(session.db), tenantId, run)
    {
      if run.tenantId != tenantId {
        return Err(ValueError);
      }
      var existing := SelectFirst(RunTable.WithKey(session.db, tenantId, run.idempotencyKey));
      if existing.Some? {
        var entity := FromRow(session.db.runs[existing.value]);
        return if entity.Ok? then Ok((entity.value, false)) else Err(entity.error);
      }
      if !(run.projectId in session.db.projects && session.db.projects[run.projectId].tenantId == tenantId) {
        return Err(ValueError);
      }
      if !RunTable.InsertableRun(session.db, run) {
        return Err(IntegrityError);
      }
      session.db := session.db.(runs := session.db.runs[run.id := run]);
      return Ok((run, true));
    }

    method Get(runId: string) returns (r: Result<Option<Run>>)
      ensures Answer(r, (run: Option<Run>) => RunFound(run)) == RunTable.GetRun(session.db, tenantId, runId)
    {
      if runId !in session.db.runs || session.db.runs[runId].tenantId != tenantId {
        return Ok(None);
      }
      var entity := FromRow(session.db.runs[runId]);
      return if entity.Ok? then Ok(Some(entity.value)) else Err(entity.error);
    }

    method ClaimNext(owner: string, now: Moment, leaseSeconds: int) returns (r: Result<Option<LeaseClaim>>)
      modifies session
      ensures (session.db, Answer(r, (claim: Option<LeaseClaim>) => Claimed(claim)))
           == RunTable.ClaimNext(old(session.db), tenantId, owner, now, leaseSeconds)
    {
      if !LeaseArgumentsOk(owner, now, leaseSeconds) {
        return Err(ValueError);
      }
      var selected := SelectFirst(RunTable.ClaimableRows(session.db, tenantId, now.at));
      if selected == None {
        return Ok(None);
      }
      var row := session.db.runs[selected.value];
      row := row.(status := Preparing);
      row := row.(leaseOwner := Some(owner));
      row := row.(leaseExpiresAt := Some(now.at + leaseSeconds * SECOND));
      row := row.(attempt := row.attempt + 1);
      row := row.(fencingToken := row.fencingToken + 1);
      row := row.(version := row.version + 1);
      row := row.(updatedAt := now.at);
      var entity := FromRow(row);
      if entity.Err? {
        return Err(entity.error);
      }
      session.db := session.db.(runs := session.db.runs[selected.value := row]);
      return Ok(Some(LeaseClaim(entity.value, owner, row.fencingToken)));
    }

    method Heartbeat(claim: LeaseClaim, now: Moment, leaseSeconds: int) returns (r: Result<bool>)
      modifies session
      ensures (session.db, Answer(r, (b: bool) => Flag(b)))
           == RunTable.Heartbeat(old(session.db), tenantId, claim, now, leaseSeconds)
    {
      if !LeaseArgumentsOk(claim.owner, now, leaseSeconds) {
        return Err(ValueError);
      }
      if !RunTable.CanRenew(session.db, tenantId, claim, now.at) {
        return Ok(false);
      }
      var row := session.db.runs[claim.run.id];
      row := row.(leaseExpiresAt := Some(now.at + leaseSeconds * SECOND));
      row := row.(updatedAt := now.at);
      row := row.(version := row.version + 1);
      session.db := session.db.(runs := session.db.runs[claim.run.id := row]);
      return Ok(true);
    }

    method Transition(claim: LeaseClaim, target: RunStatus, now: int) returns (r: Result<bool>)
      modifies session
      ensures (session.db, Answer(r, (b: bool) => Flag(b)))
           == RunTable.Transition(old(session.db), tenantId, claim, target, now)
    {
      var found := Get(claim.run.id);
      if found.Err? {
        return Err(found.error);
      }
      if found.value == None {
        return Ok(false);
      }
      var current := found.value.value;
      if target !in Transitions(current.status) {
        return Err(ValueError);
      }
      if !RunTable.CanMove(session.db, tenantId, claim, current.status, now) {
        return Ok(false);
      }
      var row := session.db.runs[claim.run.id];
      row := row.(status := target);
      row := row.(updatedAt := now);
      row := row.(version := row.version + 1);
      if target.Terminal() {
        row := row.(leaseOwner := None);
        row := row.(leaseExpiresAt := None);
      }
      session.db := session.db.(runs := session.db.runs[claim.run.id := row]);
      return Ok(true);
    }

    method Cancel(runId: string, now: int) returns (r: Result<bool>)
      modifies session
      ensures (session.db, Answer(r, (b: bool) => Flag(b))) == RunTable.Cancel(old(session.db), tenantId, runId, now)
    {
      var found := Get(runId);
      if found.Err? {
        return Err(found.error);
      }
      if found.value == None {
        return Ok(false);
      }
      var current := found.value.value;
      if current.status == Cancelled {
        return Ok(true);
      }
      if current.status.Terminal() {
        return Ok(false);
      }
      var row := session.db.runs[runId];
      row := row.(status := Cancelled);
      row := row.(leaseOwner := None);
      row := row.(leaseExpiresAt := None);
      row := row.(updatedAt := now);
      row := row.(version := row.version + 1);
      session.db := session.db.(runs := session.db.runs[runId := row]);
      return Ok(true);
    }
  }

  class ProjectRepository {
    const session: Session
    const tenantId: string

    constructor (session: Session, tenantId: string)
      ensures this.session == session && this.tenantId == tenantId
    {
      this.session := session;
      this.tenantId := tenantId;
    }

    method Add(project: Project) returns (r: Result<()>)
      modifies session
      ensures (session.db, Answer(r, (u: ()) => Done)) == ProjectTable.AddProject(old(session.db), tenantId, project)
    {
      if project.tenantId != tenantId {
        return Err(ValueError);
      }
      if project.id in session.db.projects
         || exists id :: id in session.db.projects && session.db.projects[id].tenantId == tenantId
                         && session.db.projects[id].name == project.name
      {
        return Err(IntegrityError);
      }
      session.db := session.db.(projects := session.db.projects[project.id := project]);
      return Ok(());
    }

    method Get(projectId: string) returns (r: Result<Option<Project>>)
      ensures Answer(r, (project: Option<Project>) => ProjectFound(project))
           == ProjectTable.GetProject(session.db, tenantId, projectId)
    {
      if projectId !in session.db.projects || session.db.projects[projectId].tenantId != tenantId {
        return Ok(None);
      }
      var row := session.db.projects[projectId];
      return if row.Valid() then Ok(Some(row)) else Err(ValueError);
    }

    /** Takes the projects one by one in order, cuts out the page, and rebuilds its entities. */
    method List(limit: int, offset: int) returns (r: Result<seq<Project>>)
      ensures Answer(r, (page: seq<Project>) => ProjectsListed(page))
           == ProjectTable.ListProjects(session.db, tenantId, limit, offset)
    {
      if !(1 <= limit <= 100) || offset < 0 {
        return Err(ValueError);
      }
      var all := ProjectTable.ProjectsByCreation(session.db, tenantId);
      var rest := all;
      var ids: seq<string> := [];
      while rest != map[]
        invariant InOrder(all) == ids + InOrder(rest)
        decreases |rest.Keys|
      {
        var next := SelectFirst(rest);
        assert InOrder(rest) == [next.value] + InOrder(rest - {next.value});
        ids := ids + [next.value];
        rest := rest - {next.value};
        assert rest.Keys < rest.Keys + {next.value};
      }
      assert ids == InOrder(all);
      InOrderSorts(all);
      var rows := ProjectTable.RowsOf(session.db, ProjectTable.Page(ids, limit, offset));
      return if forall p :: p in rows ==> p.Valid() then Ok(rows) else Err(ValueError);
    }

    method Rename(projectId: string, name: string, expectedVersion: int, now: int) returns (r: Result<bool>)
      modifies session
      ensures (session.db, Answer(r, (b: bool) => Flag(b)))
           == ProjectTable.RenameProject(old(session.db), tenantId, projectId, name, expectedVersion, now)
    {
      var existing := Get(projectId);
      if existing.Err? {
        return Err(existing.error);
      }
      if existing.value == None {
        return Ok(false);
      }
      var row := existing.value.value;
      var validated := row.(name := name, updatedAt := now);
      if !validated.Valid() {
        return Err(ValueError);
      }
      if row.version != expectedVersion {
        return Ok(false);
      }
      if exists x :: x in session.db.projects && x != projectId && session.db.projects[x].tenantId == tenantId
                     && session.db.projects[x].name == name
      {
        return Err(IntegrityError);
      }
      row := row.(name := name);
      row := row.(updatedAt := now);
      row := row.(version := row.version + 1);
      session.db := session.db.(projects := session.db.projects[projectId := row]);
      return Ok(true);
    }

    /** The row goes, and the foreign keys take its runs and their artifacts along. */
    method Delete(projectId: string) returns (deleted: bool)
      modifies session
      ensures (session.db, Flag(deleted)) == ProjectTable.DeleteProject(old(session.db), tenantId, projectId)
    {
      if !RunTable.OwnProject(session.db, tenantId, projectId) {
        return false;
      }
      var db := session.db;
      var gone := set r | r in db.runs && db.runs[r].projectId == projectId;
      var reports := set a | a in db.artifacts && db.artifacts[a].runId in gone;
      session.db := Db(db.projects - {projectId}, db.runs - gone, db.artifacts - reports);
      var spec := ProjectTable.DeleteProject(db, tenantId, projectId).0;
      assert session.db.runs == spec.runs;
      assert session.db.artifacts == spec.artifacts;
      return true;
    }
  }

  class ReportArtifactRepository {
    const session: Session
    const tenantId: string

    constructor (session: Session, tenantId: string)
      ensures this.session == session && this.tenantId == tenantId
    {
      this.session := session;
      this.tenantId := tenantId;
    }

    method Add(artifact: Artifact) returns (r: Result<()>)
      modifies session
      ensures (session.db, Answer(r, (u: ()) => Done)) == ArtifactTable.AddArtifact(old(session.db), tenantId, artifact)
    {
      if artifact.tenantId != tenantId {
        return Err(ValueError);
      }
      if artifact.runId !in session.db.runs || session.db.runs[artifact.runId].tenantId != tenantId {
        return Err(ValueError);
      }
      if !ArtifactTable.FreeArtifact(session.db, artifact) {
        return Err(IntegrityError);
      }
      session.db := session.db.(artifacts := session.db.artifacts[artifact.id := artifact]);
      return Ok(());
    }

    /** Finds the row the engine chooses among those that match, if any does. */
    method GetForRun(runId: string, format: string, choice: string) returns (artifact: Option<Artifact>)
      ensures ArtifactFound(artifact) == ArtifactTable.GetForRun(session.db, tenantId, runId, format, choice)
    {
      var rows := ArtifactTable.ReportRows(session.db, tenantId, runId, format);
      if choice in rows {
        return Some(session.db.artifacts[choice]);
      }
      var found := SelectFirst(rows);
      return if found.Some? then Some(session.db.artifacts[found.value]) else None;
    }

    method MarkDeleted(artifactId: string, now: int) returns (marked: bool)
      modifies session
      ensures (session.db, Flag(marked)) == ArtifactTable.MarkDeleted(old(session.db), tenantId, artifactId, now)
    {
      if artifactId !in session.db.artifacts || !ArtifactTable.Visible(session.db.artifacts[artifactId], tenantId) {
        return false;
      }
      var row := session.db.artifacts[artifactId];
      session.db := session.db.(artifacts := session.db.artifacts[artifactId := row.(deletedAt := Some(now))]);
      return true;
    }
  }
}
