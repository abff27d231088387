/** What each statement of the artifact repository, and the publishing transaction, does to the tables. */
module ArtifactTable {
  import opened Outcome
  import opened Ordering
  import opened Runs
  import opened Database
  import opened Replies
  import opened RunTable

  /** The primary key and the (tenant, object key) constraint leave room for the row. */
  predicate FreeArtifact(db: Db, artifact: Artifact)
  {
    && artifact.id !in db.artifacts
    && forall id :: id in db.artifacts ==> !SameObject(db.artifacts[id], artifact)
  }

  function AddArtifact(db: Db, tenant: string, artifact: Artifact): (Db, Reply)
  {
    if artifact.tenantId != tenant || !OwnRun(db, tenant, artifact.runId) then (db, Raised(ValueError))
    else if !FreeArtifact(db, artifact) then (db, Raised(IntegrityError))
    else (db.(artifacts := db.artifacts[artifact.id := artifact]), Done)
  }

  predicate Visible(row: Artifact, tenant: string)
  {
    row.tenantId == tenant && row.deletedAt == None
  }

  function GetArtifact(db: Db, tenant: string, id: string): Reply
  {
    ArtifactFound(if id in db.artifacts && Visible(db.artifacts[id], tenant) then Some(db.artifacts[id]) else None)
  }

  function ReportRows(db: Db, tenant: string, runId: string, format: string): map<string, int>
  {
    map id | id in db.artifacts && Visible(db.artifacts[id], tenant)
             && db.artifacts[id].runId == runId && db.artifacts[id].format == format
      :: db.artifacts[id].createdAt
  }

  /** The query has no order: of several matching rows the engine returns whichever it chooses. */
  ghost function GetForRun(db: Db, tenant: string, runId: string, format: string, choice: string): Reply
  {
    var rows := ReportRows(db, tenant, runId, format);
    ArtifactFound(if rows == map[] then None
                  else if choice in rows then Some(db.artifacts[choice])
                  else Some(db.artifacts[First(rows)]))
  }

  function MarkDeleted(db: Db, tenant: string, id: string, now: int): (Db, Reply)
  {
    if id in db.artifacts && Visible(db.artifacts[id], tenant)
    then (db.(artifacts := db.artifacts[id := db.artifacts[id].(deletedAt := Some(now))]), Flag(true))
    else (db, Flag(false))
  }

  /** The last transaction of `process_next`: both artifact rows and COMPLETED, or nothing. */
  function Publish(db: Db, tenant: string, json: Artifact, markdown: Artifact, claim: LeaseClaim, seen: RunStatus,
                   now: int)
    : (Db, Reply)
  {
    var (db1, r1) := AddArtifact(db, tenant, json);
    var (db2, r2) := AddArtifact(db1, tenant, markdown);
    var (db3, r3) := TransitionUpdate(db2, tenant, claim, seen, Completed, now);
    if r1 != Done then (db, r1)
    else if r2 != Done then (db, r2)
    else if r3 != Flag(true) then (db, if r3 == Flag(false) then Raised(RuntimeError) else r3)
    else (db3, Flag(true))
  }

  /** When the two rows and the completion are all accepted. */
  predicate CanPublish(db: Db, tenant: string, json: Artifact, markdown: Artifact, claim: LeaseClaim, seen: RunStatus,
                       now: int)
  {
    && json.tenantId == tenant && OwnRun(db, tenant, json.runId) && FreeArtifact(db, json)
    && markdown.tenantId == tenant && OwnRun(db, tenant, markdown.runId) && FreeArtifact(db, markdown)
    && json.id != markdown.id && json.objectKey != markdown.objectKey
    && seen == Evaluating
    && CanMove(db, tenant, claim, seen, now)
  }

  /** Publication is atomic: both rows appear together with COMPLETED, or the tables are untouched. */
  lemma PublishIsAtomic(db: Db, tenant: string, json: Artifact, markdown: Artifact, claim: LeaseClaim, seen: RunStatus,
                        now: int)
    ensures var (db', reply) := Publish(db, tenant, json, markdown, claim, seen, now);
      if CanPublish(db, tenant, json, markdown, claim, seen, now)
      then reply == Flag(true) && db' == Db(db.projects,
                                            db.runs[claim.run.id := MoveRow(db.runs[claim.run.id], Completed, now)],
                                            db.artifacts[json.id := json][markdown.id := markdown])
      else reply != Flag(true) && db' == db
  {
    var db1 := AddArtifact(db, tenant, json).0;
    if AddArtifact(db, tenant, json).1 == Done {
      assert FreeArtifact(db1, markdown) <==>
             FreeArtifact(db, markdown) && json.id != markdown.id && !SameObject(json, markdown)
      by {
        assert forall id :: id in db1.artifacts <==> id in db.artifacts || id == json.id;
        assert json.id in db1.artifacts && db1.artifacts[json.id] == json;
        assert forall id :: id in db.artifacts ==> db1.artifacts[id] == db.artifacts[id];
      }
    }
  }
}
