/** The application service's own operations (`application/service.py`). */
module Application {
  import opened Outcome
  import opened Runs
  import opened Database
  import opened Replies
  import opened ArtifactStore
  import opened Worker
  import opened Repositories
  import opened FileStore
  import Atomicity
  import RunTable
  import Statements
  import ArtifactTable

  /** The run `create_run` builds before it asks the repository. */
  function NewRun(tenant: string, projectId: string, suiteVersion: string, seed: int, key: string, id: string,
                  now: int): Run
  {
    Run(id, tenant, projectId, suiteVersion, seed, key, Queued, 0, 0, None, None, now, now, 1)
  }

  class LabApplicationService {
    const session: Session
    const store: FileArtifactStore
    const retentionDays: int

    constructor (session: Session, store: FileArtifactStore, retentionDays: int)
      ensures this.session == session && this.store == store && this.retentionDays == retentionDays
    {
      this.session, this.store, this.retentionDays := session, store, retentionDays;
    }

    /** Every run that is created is fresh; one that cannot be built never reaches the tables. */
    method CreateRun(tenant: string, projectId: string, suiteVersion: string, seed: int, key: string, id: string,
                     now: int)
      returns (r: Result<(Run, bool)>)
      modifies session
      ensures var run := NewRun(tenant, projectId, suiteVersion, seed, key, id, now);
        if run.Valid() then
          && ServiceFresh(run)
          && (session.db, Answer(r, (p: (Run, bool)) => if p.1 then Created(p.0) else Existing(p.0)))
             == RunTable.CreateIdempotent(old(session.db), tenant, run)
        else r == Err(ValueError) && session.db == old(session.db)
      ensures
        (exists name :: name in {id, tenant, projectId, suiteVersion, key} && (name == "" || |name| > 128)) || seed < 0
        ==> r == Err(ValueError) && session.db == old(session.db)
      ensures r.Ok? && r.value.1 ==>
        && id in session.db.runs && id !in old(session.db).runs
        && session.db == old(session.db).(runs := old(session.db).runs[id := session.db.runs[id]])
        && var row := session.db.runs[id];
           && r.value.0 == row && row.id == id && row.tenantId == tenant && row.projectId == projectId
           && row.suiteVersion == suiteVersion && row.seed == seed && row.idempotencyKey == key
           && row.status == Queued && row.attempt == 0 && row.fencingToken == 0
           && row.leaseOwner == None && row.leaseExpiresAt == None
           && row.createdAt == now && row.updatedAt == now && row.version == 1
      ensures r.Err? || !r.value.1 ==> session.db == old(session.db)
    {
      hide RunTable.CreateIdempotent;
      Statements.CreateStores(session.db, tenant, NewRun(tenant, projectId, suiteVersion, seed, key, id, now));
      var run := NewRun(tenant, projectId, suiteVersion, seed, key, id, now);
      if !run.Valid() {
        return Err(ValueError);
      }
      var repository := new EvaluationRunRepository(session, tenant);
      r := repository.CreateIdempotent(run);
    }

    /** Reads the row in one transaction and the object after it; in between, others leave `meanwhile`. */
    method ReadReport(tenant: string, runId: string, format: string, choice: string, meanwhile: (Db, Tree))
      returns (r: Result<Option<(Bytes, string)>>)
      modifies session, store
      ensures session.db == meanwhile.0 && store.tree == meanwhile.1
      ensures r == Atomicity.ReadReport(Config(store.maxBytes, store.sha256, retentionDays),
                                        old(session.db), meanwhile.1, tenant, runId, format, choice)
    {
      hide ArtifactTable.GetForRun, Read;
      var repository := new ReportArtifactRepository(session, tenant);
      var artifact := repository.GetForRun(runId, format, choice);
      session.db, store.tree := meanwhile.0, meanwhile.1;
      if artifact == None {
        return Ok(None);
      }
      var data := store.Read(artifact.value.objectKey, Some(artifact.value.sha256));
      return if data.Ok? then Ok(Some((data.value, artifact.value.contentType))) else Err(data.error);
    }
  }
}
