/**
 The three tables the service writes, as one value: rows by primary key, and the constraints
 the engine enforces on them (tenant rows are assumed present).
 */
module Database {
  import opened Outcome
  import opened Runs
  import opened Text

  /** A name or identifier that is not blank and fits. */
  predicate Bounded(value: string, limit: nat)
  {
    !Blank(value) && |value| <= limit
  }

  datatype Project = Project(
    id: string, tenantId: string, name: string, createdBy: string,
    createdAt: int, updatedAt: int, version: int)
  {
    /** What constructing a `Project` accepts. */
    predicate Valid() {
      && Bounded(id, 128) && Bounded(tenantId, 128) && Bounded(createdBy, 128) && Bounded(name, 200)
      && version >= 1 && createdAt <= updatedAt
    }
  }

  datatype Artifact = Artifact(
    id: string, tenantId: string, runId: string, format: string, objectKey: string,
    sha256: string, sizeBytes: int, contentType: string,
    createdAt: int, expiresAt: int, deletedAt: Option<int>)

  datatype Db = Db(
    projects: map<string, Project>,
    runs: map<string, Run>,
    artifacts: map<string, Artifact>)

  const EMPTY := Db(map[], map[], map[])

  /** Rows are stored under their own primary key. */
  ghost predicate Keyed(db: Db)
  {
    && (forall id :: id in db.projects ==> db.projects[id].id == id)
    && (forall id :: id in db.runs ==> db.runs[id].id == id)
    && (forall id :: id in db.artifacts ==> db.artifacts[id].id == id)
  }

  predicate SameProjectName(x: Project, y: Project) {
    x.tenantId == y.tenantId && x.name == y.name
  }

  predicate SameRunKey(x: Run, y: Run) {
    x.tenantId == y.tenantId && x.idempotencyKey == y.idempotencyKey
  }

  predicate SameObject(x: Artifact, y: Artifact) {
    x.tenantId == y.tenantId && x.objectKey == y.objectKey
  }

  /** `uq_projects_tenant_name`, `uq_runs_tenant_idempotency` and `uq_artifacts_tenant_key`. */
  ghost predicate Unique(db: Db)
  {
    && (forall x, y :: x in db.projects && y in db.projects && SameProjectName(db.projects[x], db.projects[y])
                       ==> x == y)
    && (forall x, y :: x in db.runs && y in db.runs && SameRunKey(db.runs[x], db.runs[y]) ==> x == y)
    && (forall x, y :: x in db.artifacts && y in db.artifacts && SameObject(db.artifacts[x], db.artifacts[y])
                       ==> x == y)
  }

  /** Foreign keys resolve, and every row shares the tenant of its parent. */
  ghost predicate TenantSound(db: Db)
  {
    && (forall id :: id in db.runs ==>
          && db.runs[id].projectId in db.projects
          && db.projects[db.runs[id].projectId].tenantId == db.runs[id].tenantId)
    && (forall id :: id in db.artifacts ==>
          && db.artifacts[id].runId in db.runs
          && db.runs[db.artifacts[id].runId].tenantId == db.artifacts[id].tenantId)
  }

  ghost predicate Sound(db: Db)
  {
    Keyed(db) && Unique(db) && TenantSound(db)
  }
}
