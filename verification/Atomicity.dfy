/** What publish atomicity means for readers and for the workers themselves. */
module Atomicity {
  import opened Outcome
  import opened Runs
  import opened Database
  import opened Replies
  import opened History
  import opened ArtifactStore
  import opened Worker
  import opened Journal
  import opened Publication
  import opened Objects
  import opened Reports
  import RunTable
  import Statements
  import ArtifactTable

  /**
   `read_report`: the visible row of the run as `db` has it, then its object as `tree` has it later,
   checked against the recorded checksum.
   */
  ghost function ReadReport(c: Config, db: Db, tree: Tree, tenant: string, runId: string, format: string,
                            choice: string)
    : Result<Option<(Bytes, string)>>
  {
    match ArtifactTable.GetForRun(db, tenant, runId, format, choice)
    case ArtifactFound(Some(row)) =>
      (match Read(tree, c.sha256, row.objectKey, Some(row.sha256))
       case Ok(data) => Ok(Some((data, row.contentType)))
       case Err(error) => Err(error))
    case _ => Ok(None)
  }

  // ----- atomicity -----

  /**
   In every reachable world, artifact rows exist for completed runs only, and those have exactly one of each
   format.
   */
  lemma RowsExactlyForCompletedRuns(c: Config, actions: seq<Action>, i: nat, runId: string)
    requires AllAllowed(c, actions) && i <= |actions|
    requires runId in WorldAt(c, actions, i).db.runs
    ensures var db := WorldAt(c, actions, i).db;
      if db.runs[runId].status == Completed
      then exists j, m :: IsPair(db, runId, j, m)
      else forall a :: a in db.artifacts ==> db.artifacts[a].runId != runId
  {
    hide Step, Allowed, Sound, RowsStored, FilesKnown, JobsOk, NoStrays;
    InvariantAt(c, actions, i);
  }

  /**
   The object of a row published by moment `i` is intact at any later moment `j` exactly when no worker
   deleted it after publishing it, whatever became of the row.
   */
  lemma ObjectsMatchUnlessRevoked(c: Config, actions: seq<Action>, i: nat, j: nat, a: string)
    requires AllAllowed(c, actions) && i <= j <= |actions|
    requires a in WorldAt(c, actions, i).db.artifacts
    ensures var row, w := WorldAt(c, actions, i).db.artifacts[a], WorldAt(c, actions, j);
      && PathOf(row.objectKey).Ok?
      && (PathOf(row.objectKey).value !in w.revoked <==> Read(w.tree, c.sha256, row.objectKey, Some(row.sha256)).Ok?)
      && (PathOf(row.objectKey).value !in w.revoked ==>
            |Read(w.tree, c.sha256, row.objectKey, None).value| == row.sizeBytes)
  {
    hide Step, Allowed, AllAllowed, WorldAt, Invariant, PathOf, Names, NamesFormat, Settled;
    StoredForGood(c, actions, i, j, a);
  }

  lemma ReadChecksTheSum(tree: Tree, sha256: Bytes -> string, key: string, expected: string)
    ensures var r := Read(tree, sha256, key, Some(expected)); r.Ok? ==> sha256(r.value) == expected
  {}

  lemma ReadIsStored(tree: Tree, sha256: Bytes -> string, key: string, expected: string)
    requires Read(tree, sha256, key, Some(expected)).Ok?
    ensures PathOf(key).Ok? && PathOf(key).value in tree.files
    ensures tree.files[PathOf(key).value] == Read(tree, sha256, key, Some(expected)).value
  {
    hide PathOf;
  }

  /** The one row of a completed run in a given format is what the query finds, unless it is marked deleted. */
  lemma TheReport(c: Config, w: World, runId: string, format: string) returns (a: string)
    requires Invariant(c, w) && runId in w.db.runs && w.db.runs[runId].status == Completed
    requires format in {"json", "markdown"}
    ensures a in w.db.artifacts && w.db.artifacts[a].runId == runId && w.db.artifacts[a].format == format
    ensures forall choice :: ArtifactTable.GetForRun(w.db, w.db.runs[runId].tenantId, runId, format, choice)
                          == ArtifactFound(if w.db.artifacts[a].deletedAt.Some? then None else Some(w.db.artifacts[a]))
  {
    hide RowsStored, FilesKnown, JobsOk, NoStrays, Unique;
    var j, m :| IsPair(w.db, runId, j, m);
    a := if format == "json" then j else m;
    var rows := ArtifactTable.ReportRows(w.db, w.db.runs[runId].tenantId, runId, format);
    assert forall x :: x in rows ==> x == a;
    if w.db.artifacts[a].deletedAt == None {
      assert a in rows;
    }
  }

  /**
   The answer of reading a report: the bytes of that format that its call evaluated and put, with the recorded
   checksum, and the content type of the format.
   */
  ghost predicate ReadsItsReport(c: Config, actions: seq<Action>, row: Artifact,
                                 answer: Result<Option<(Bytes, string)>>)
  {
    && answer.Ok? && answer.value.Some? && c.sha256(answer.value.value.0) == row.sha256
    && (row.format == "json" ==> answer.value.value.1 == "application/json")
    && (row.format == "markdown" ==> answer.value.value.1 == "text/markdown; charset=utf-8")
    && exists e, m :: WasReported(actions, e, m, row.id, row.format, answer.value.value.0)
  }

  /**
   Reports are readable: for a run completed by moment `i`, whichever row the engine chooses and however
   much later the object is read, each format reads back the report that its call evaluated, unless the row
   is marked deleted or the object was revoked.
   */
  lemma CompletedRunsAreReadable(c: Config, actions: seq<Action>, i: nat, j: nat, runId: string, format: string,
                                 choice: string) returns (a: string)
    requires AllAllowed(c, actions) && i <= j <= |actions|
    requires runId in WorldAt(c, actions, i).db.runs && WorldAt(c, actions, i).db.runs[runId].status == Completed
    requires format in {"json", "markdown"}
    ensures var db, w := WorldAt(c, actions, i).db, WorldAt(c, actions, j);
      var answer := ReadReport(c, db, w.tree, db.runs[runId].tenantId, runId, format, choice);
      && a in db.artifacts && db.artifacts[a].runId == runId && db.artifacts[a].format == format
      && PathOf(db.artifacts[a].objectKey).Ok?
      && if db.artifacts[a].deletedAt.Some? then answer == Ok(None)
         else if PathOf(db.artifacts[a].objectKey).value in w.revoked then answer.Err?
         else ReadsItsReport(c, actions, db.artifacts[a], answer)
  {
    hide Step, Allowed, AllAllowed, WorldAt, Invariant, PathOf, Names, Settled, ArtifactTable.GetForRun, Read,
      WasReported;
    InvariantAt(c, actions, i);
    a := TheReport(c, WorldAt(c, actions, i), runId, format);
    var row, tree := WorldAt(c, actions, i).db.artifacts[a], WorldAt(c, actions, j).tree;
    ObjectsMatchUnlessRevoked(c, actions, i, j, a);
    ReadChecksTheSum(tree, c.sha256, row.objectKey, row.sha256);
    if Read(tree, c.sha256, row.objectKey, Some(row.sha256)).Ok? {
      ReadIsStored(tree, c.sha256, row.objectKey, row.sha256);
      var e, m := PublishedBytesAreReports(c, actions, i, j, a);
      var described := RowsDescribeTheirReports(c, actions, i, a);
    }
  }

  /** The answer for a row: its bytes and content type, or an error when they are not there or were changed. */
  ghost predicate AnswersWith(c: Config, tree: Tree, row: Artifact, answer: Result<Option<(Bytes, string)>>)
  {
    if PathOf(row.objectKey).Ok? && PathOf(row.objectKey).value in tree.files then
      var data := tree.files[PathOf(row.objectKey).value];
      answer == if c.sha256(data) == row.sha256 then Ok(Some((data, row.contentType))) else Err(ArtifactIntegrityError)
    else answer.Err?
  }

  lemma ReadOutcomes(tree: Tree, sha256: Bytes -> string, key: string, expected: string)
    ensures var r := Read(tree, sha256, key, Some(expected));
      if PathOf(key).Ok? && PathOf(key).value in tree.files then
        var data := tree.files[PathOf(key).value];
        r == if sha256(data) == expected then Ok(data) else Err(ArtifactIntegrityError)
      else r.Err?
  {
    hide PathOf;
  }

  /**
   Reading a report of any tables and tree: nothing without a row of that tenant, run and format that is not
   marked deleted; otherwise the object of such a row, and an error when its bytes do not have the row's checksum.
   */
  lemma ReadReportExactly(c: Config, db: Db, tree: Tree, tenant: string, runId: string, format: string, choice: string)
    ensures var answer := ReadReport(c, db, tree, tenant, runId, format, choice);
      if forall x :: x in db.artifacts ==> !Statements.Matches(db.artifacts[x], tenant, runId, format)
      then answer == Ok(None)
      else exists x :: x in db.artifacts && Statements.Matches(db.artifacts[x], tenant, runId, format)
                       && AnswersWith(c, tree, db.artifacts[x], answer)
  {
    hide ArtifactTable.GetForRun, Read, PathOf;
    Statements.GetForRunExactly(db, tenant, runId, format, choice);
    var reply := ArtifactTable.GetForRun(db, tenant, runId, format, choice);
    if reply.artifact.Some? {
      var row := reply.artifact.value;
      ReadOutcomes(tree, c.sha256, row.objectKey, row.sha256);
      assert AnswersWith(c, tree, row, ReadReport(c, db, tree, tenant, runId, format, choice));
    }
  }

  // ----- workers and each other -----

  predicate WorkerStep(a: Action)
  {
    !a.Client? && !a.Begin?
  }

  lemma OwnPut(w: World, a: Action, w': World, path: seq<string>, data: Bytes)
    requires PutsNow(w, a, path, data) && a.artifactId in w'.minted && w'.minted[a.artifactId] == a.worker
    ensures MadeBy(w', path, a.worker)
  {
    FormatNames(path, a.artifactId, FORMATS[|w.jobs[a.worker].artifacts|]);
  }

  lemma MintsOwn(c: Config, w: World, a: Action)
    requires WorkerStep(a)
    ensures var w' := OwnStep(c, w, a);
      && (forall j :: j in w.jobs && j != a.worker ==> j in w'.jobs && w'.jobs[j] == w.jobs[j])
      && (forall id :: id in w.minted ==> id in w'.minted && w'.minted[id] == w.minted[id])
      && ((a.PutNext? || a.PutLost?) && a.worker in w.jobs && w.jobs[a.worker].phase.Writing?
          && |w.jobs[a.worker].artifacts| < 2 && a.artifactId !in w.minted ==>
            a.artifactId in w'.minted && w'.minted[a.artifactId] == a.worker)
  {
    hide BeginStep, RunTable.TransitionUpdate, ArtifactTable.Publish, PathOf, BuildArtifactKey, Put, Delete;
  }

  /** The object at `path` appears, disappears or changes. */
  predicate Differs(before: Tree, after: Tree, path: seq<string>)
  {
    || (path in before.files) != (path in after.files)
    || (path in before.files && path in after.files && after.files[path] != before.files[path])
  }

  /** A worker's step changes no other job, and changes objects only at paths of artifacts that worker made. */
  lemma WorkersTouchOnlyTheirOwn(c: Config, w: World, a: Action, path: seq<string>)
    requires Invariant(c, w) && WorkerStep(a)
    ensures var w' := Step(c, w, a);
      && (forall j :: j in w.jobs && j != a.worker ==> j in w'.jobs && w'.jobs[j] == w.jobs[j])
      && (Differs(w.tree, w'.tree, path) ==> MadeBy(w', path, a.worker))
  {
    hide Invariant, Exec, OwnStep, PathOf, Names, NamesFormat;
    var w' := Step(c, w, a);
    StepFiles(c, w, a, path);
    MintsOwn(c, w, a);
    if path in w'.tree.files && path !in w.tree.files {
      OwnPut(w, a, w', path, w'.tree.files[path]);
    }
    if path in w.tree.files && path !in w'.tree.files {
      KeyMade(c, w, a.worker, 0);
      var x :| x in w.minted && w.minted[x] == a.worker && Names(path, x);
      assert x in w'.minted;
    }
  }

  /** The step is one of the timed updates, and the run's lease is over by then. */
  predicate TooLate(a: Action, row: Run)
  {
    (a.Evaluate? || a.Commit? || a.FailRun?) && (row.leaseExpiresAt.Some? ==> row.leaseExpiresAt.value <= a.at)
  }

  /**
   A worker whose run was reclaimed, finished or cancelled, or whose lease is over, is harmless:
   none of its steps changes any table.
   */
  lemma StaleWorkerIsHarmless(c: Config, w: World, a: Action)
    requires WorkerStep(a) && a.worker in w.jobs
    requires var job := w.jobs[a.worker];
      job.claim.run.id in w.db.runs ==>
        || job.claim.fencingToken != w.db.runs[job.claim.run.id].fencingToken
        || w.db.runs[job.claim.run.id].status.Terminal()
        || w.db.runs[job.claim.run.id].leaseOwner != Some(job.claim.owner)
        || TooLate(a, w.db.runs[job.claim.run.id])
    ensures Step(c, w, a).db == w.db
  {
    hide Exec, BeginStep, ArtifactTable.Publish, PathOf, Put, BuildArtifactKey;
    var job := w.jobs[a.worker];
    if a.Commit? && job.phase.Writing? && |job.artifacts| == 2 {
      ArtifactTable.PublishIsAtomic(w.db, job.tenant, job.artifacts[0], job.artifacts[1], job.claim, a.seen, a.at);
    }
  }

  lemma HeldKeysDiffer(c: Config, w: World, worker: nat)
    requires Invariant(c, w) && worker in w.jobs && w.jobs[worker].phase.Writing? && |w.jobs[worker].artifacts| == 2
    ensures w.jobs[worker].artifacts[0].id != w.jobs[worker].artifacts[1].id
    ensures w.jobs[worker].artifacts[0].objectKey != w.jobs[worker].artifacts[1].objectKey
  {
    hide Invariant, PathOf, Names;
    JobOf(c, w, worker);
    HeldOf(c, w, worker, 0);
    HeldOf(c, w, worker, 1);
    var x, y := w.jobs[worker].artifacts[0], w.jobs[worker].artifacts[1];
    if x.objectKey == y.objectKey { NamesOne(PathOf(x.objectKey).value, x.id, y.id); }
  }

  lemma ArtifactKey(c: Config, w: World, a: string)
    requires Invariant(c, w) && a in w.db.artifacts
    ensures w.db.artifacts[a].id == a
  {
    hide OnlyCompleted, CompletedHasPair, RowsStored, FilesKnown, JobsOk, NoStrays, Unique, TenantSound;
  }

  lemma HeldRowIsFree(c: Config, w: World, worker: nat, n: nat)
    requires Invariant(c, w) && worker in w.jobs && w.jobs[worker].phase.Writing? && n < |w.jobs[worker].artifacts|
    ensures ArtifactTable.FreeArtifact(w.db, w.jobs[worker].artifacts[n])
  {
    hide Invariant, PathOf, Names;
    HeldOf(c, w, worker, n);
    var mine := w.jobs[worker].artifacts[n];
    forall a | a in w.db.artifacts
      ensures a != mine.id && !SameObject(w.db.artifacts[a], mine)
    {
      RowOf(c, w, a);
      ArtifactKey(c, w, a);
      var row := w.db.artifacts[a];
      if row.objectKey == mine.objectKey { NamesOne(PathOf(row.objectKey).value, row.id, mine.id); }
    }
  }

  /** The holder of the lease of an EVALUATING run that has put both objects always commits; nobody else does. */
  lemma CommitsExactlyWhenHeld(c: Config, w: World, worker: nat, seen: RunStatus, at: int)
    requires Invariant(c, w) && worker in w.jobs && w.jobs[worker].phase.Writing? && |w.jobs[worker].artifacts| == 2
    ensures var w' := Step(c, w, Commit(worker, seen, at));
      var job := w.jobs[worker];
      && worker in w'.jobs
      && (w'.jobs[worker].phase.Committed? <==>
            seen == Evaluating && RunTable.CanMove(w.db, job.tenant, job.claim, seen, at))
      && (w'.jobs[worker].phase.Committed? ==>
            job.claim.run.id in w'.db.runs && w'.db.runs[job.claim.run.id].status == Completed)
      && (w'.jobs[worker].phase.Committed? ==>
            && w'.jobs[worker] == job.(phase := Committed)
            && job.claim.run.id in w.db.runs
            && w' == SetJob(w.(db := Published(w.db, job, at)), worker, job.(phase := Committed)))
  {
    hide Invariant, ArtifactTable.Publish, ArtifactTable.FreeArtifact, PathOf, Names, Exec, BeginStep;
    var job := w.jobs[worker];
    ArtifactTable.PublishIsAtomic(w.db, job.tenant, job.artifacts[0], job.artifacts[1], job.claim, seen, at);
    HeldOf(c, w, worker, 0);
    HeldOf(c, w, worker, 1);
    HeldRowIsFree(c, w, worker, 0);
    HeldRowIsFree(c, w, worker, 1);
    HeldKeysDiffer(c, w, worker);
  }

  /**
   Compensation is complete: once the handler has emptied its list, no object of that worker is stored, save
   a lost put.
   */
  lemma CompensationLeavesNothing(c: Config, actions: seq<Action>, i: nat, worker: nat, path: seq<string>)
    requires AllAllowed(c, actions) && i <= |actions|
    requires worker in WorldAt(c, actions, i).jobs
    requires WorldAt(c, actions, i).jobs[worker].phase.Compensating? && WorldAt(c, actions, i).jobs[worker].keys == []
    requires path in WorldAt(c, actions, i).tree.files && MadeBy(WorldAt(c, actions, i), path, worker)
    ensures path in WorldAt(c, actions, i).lost
  {
    hide Step, Allowed, WorldAt, Sound, OnlyCompleted, CompletedHasPair, RowsStored, FilesKnown, JobsOk, PathOf, Names;
    InvariantAt(c, actions, i);
  }
}
