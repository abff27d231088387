/**
 Publish atomicity: what holds of artifact rows, stored objects and workers in every reachable
 world, whatever interleaving, lost leases, exceptions and crashes led there.
 */
module Publication {
  import opened Outcome
  import opened Runs
  import opened Database
  import opened Replies
  import opened History
  import opened ArtifactStore
  import opened Worker
  import opened Journal
  import Provenance
  import RunTable
  import ArtifactTable
  import ProjectTable

  /** The last component of `path` is the file name of artifact `id`. */
  predicate Names(path: seq<string>, id: string)
  {
    |path| > 0 && (path[|path| - 1] == FileName(id, "json") || path[|path| - 1] == FileName(id, "md"))
  }

  lemma NamesOne(path: seq<string>, x: string, y: string)
    requires Names(path, x) && Names(path, y)
    ensures x == y
  {
    var last := path[|path| - 1];
    var ex := if last == FileName(x, "json") then "json" else "md";
    var ey := if last == FileName(y, "json") then "json" else "md";
    FileNameInjective(x, ex, y, ey);
  }

  /** The last component of `path` is the file name of artifact `id` in that format. */
  predicate NamesFormat(path: seq<string>, id: string, format: string)
  {
    format in FORMATS && |path| > 0 && path[|path| - 1] == FileName(id, Extension(format).value)
  }

  /** `path` is the object of an artifact that `worker` made. */
  ghost predicate MadeBy(w: World, path: seq<string>, worker: nat)
  {
    exists id :: id in w.minted && w.minted[id] == worker && Names(path, id)
  }

  /** An object has one maker. */
  lemma MadeByOne(w: World, path: seq<string>, i: nat, j: nat)
    requires MadeBy(w, path, i) && MadeBy(w, path, j)
    ensures i == j
  {
    hide Names, NamesFormat;
    var x :| x in w.minted && w.minted[x] == i && Names(path, x);
    var y :| y in w.minted && w.minted[y] == j && Names(path, y);
    NamesOne(path, x, y);
  }

  ghost predicate Known(w: World, path: seq<string>)
  {
    exists id :: id in w.minted && Names(path, id)
  }

  // ----- the invariant, piece by piece -----

  /** An artifact row exists only for a completed run. */
  ghost predicate OnlyCompleted(db: Db)
  {
    forall a :: a in db.artifacts ==>
      db.artifacts[a].runId in db.runs && db.runs[db.artifacts[a].runId].status == Completed
  }

  /** `j` and `m` are the artifact rows of run `r`, one of each format, and it has no other. */
  ghost predicate IsPair(db: Db, r: string, j: string, m: string)
  {
    && j in db.artifacts && db.artifacts[j].runId == r && db.artifacts[j].format == "json"
    && m in db.artifacts && db.artifacts[m].runId == r && db.artifacts[m].format == "markdown"
    && forall a :: a in db.artifacts && db.artifacts[a].runId == r ==> a == j || a == m
  }

  /** A completed run has exactly one json row and one markdown row. */
  ghost predicate CompletedHasPair(db: Db)
  {
    forall r :: r in db.runs && db.runs[r].status == Completed ==> exists j, m :: IsPair(db, r, j, m)
  }

  /** The stored object of a row matches its checksum and size; or a worker deleted it after publishing. */
  ghost predicate RowStored(c: Config, w: World, a: Artifact)
  {
    && PathOf(a.objectKey).Ok?
    && var path := PathOf(a.objectKey).value;
    && Names(path, a.id) && NamesFormat(path, a.id, a.format) && a.id in w.minted
    && (path in w.revoked ==> path !in w.tree.files)
    && (path !in w.revoked ==>
          && path in w.tree.files
          && c.sha256(w.tree.files[path]) == a.sha256
          && |w.tree.files[path]| == a.sizeBytes)
  }

  predicate Uncommitted(job: Job)
  {
    job.phase.Benchmarking? || job.phase.Writing? || job.phase == Compensating(false)
  }

  /** The worker that made artifact `id` has committed, or is gone. */
  predicate Settled(w: World, id: string)
  {
    id in w.minted && (w.minted[id] in w.jobs ==> !Uncommitted(w.jobs[w.minted[id]]))
  }

  ghost predicate RowsStored(c: Config, w: World)
  {
    forall a :: a in w.db.artifacts ==>
      && RowStored(c, w, w.db.artifacts[a])
      && Settled(w, w.db.artifacts[a].id)
  }

  /** Every object and every revoked path belongs to a known artifact. */
  ghost predicate FilesKnown(w: World)
  {
    && WellFormed(w.tree)
    && (forall p :: p in w.tree.files ==> Known(w, p))
    && (forall p :: p in w.revoked ==> Known(w, p) && p !in w.tree.files)
  }

  /** The `n`-th artifact a writing worker has put so far. */
  ghost predicate Held(c: Config, w: World, worker: nat, n: nat)
    requires worker in w.jobs && n < |w.jobs[worker].artifacts| == |w.jobs[worker].keys| <= 2
  {
    var job := w.jobs[worker];
    var a := job.artifacts[n];
    && a.objectKey == job.keys[n] && a.tenantId == job.tenant && a.runId == job.claim.run.id
    && a.format == FORMATS[n]
    && PathOf(a.objectKey).Ok?
    && var path := PathOf(a.objectKey).value;
    && Names(path, a.id) && NamesFormat(path, a.id, a.format) && a.id in w.minted && w.minted[a.id] == worker
    && path in w.tree.files
    && c.sha256(w.tree.files[path]) == a.sha256
    && |w.tree.files[path]| == a.sizeBytes
  }

  /** The recorded objects are there, at different places. */
  predicate KeysStored(w: World, keys: seq<string>)
  {
    && (forall n :: 0 <= n < |keys| ==> PathOf(keys[n]).Ok? && PathOf(keys[n]).value in w.tree.files)
    && (forall m, n :: 0 <= m < n < |keys| ==> PathOf(keys[m]) != PathOf(keys[n]))
  }

  ghost predicate JobOk(c: Config, w: World, worker: nat)
    requires worker in w.jobs
  {
    var job := w.jobs[worker];
    && worker in w.started
    && (forall n :: 0 <= n < |job.keys| ==> PathOf(job.keys[n]).Ok? && MadeBy(w, PathOf(job.keys[n]).value, worker))
    && (job.phase.Benchmarking? ==> job.keys == [] && job.artifacts == [])
    && (job.phase.Writing? ==>
          && |job.artifacts| == |job.keys| <= 2
          && (forall n :: 0 <= n < |job.artifacts| ==> Held(c, w, worker, n))
          && (|job.artifacts| == 2 ==> job.artifacts[0].id != job.artifacts[1].id))
    && KeysStored(w, job.keys)
    && (job.phase.Committed? ==> |job.keys| == 2)
  }

  ghost predicate JobsOk(c: Config, w: World)
  {
    && (forall i :: i in w.jobs ==> JobOk(c, w, i))
    && (forall id :: id in w.minted ==> w.minted[id] in w.started)
  }

  /** The objects of a running worker are exactly those it has recorded, apart from a put that raised after storing. */
  ghost predicate NoStrays(w: World)
  {
    forall p, i :: p in w.tree.files && i in w.jobs && MadeBy(w, p, i) ==>
      p in w.lost || exists n :: 0 <= n < |w.jobs[i].keys| && PathOf(w.jobs[i].keys[n]) == Ok(p)
  }

  ghost predicate Invariant(c: Config, w: World)
  {
    && Sound(w.db)
    && OnlyCompleted(w.db)
    && CompletedHasPair(w.db)
    && RowsStored(c, w)
    && FilesKnown(w)
    && JobsOk(c, w)
    && NoStrays(w)
  }

  ghost predicate TablesOk(db: Db)
  {
    Sound(db) && OnlyCompleted(db) && CompletedHasPair(db)
  }

  // ----- the tables under statements that publish nothing -----

  /** The columns of an artifact row that publication depends on. */
  predicate SameReport(x: Artifact, y: Artifact)
  {
    && x.id == y.id && x.tenantId == y.tenantId && x.runId == y.runId && x.format == y.format
    && x.objectKey == y.objectKey && x.sha256 == y.sha256 && x.sizeBytes == y.sizeBytes
    && x.contentType == y.contentType
  }

  /** No new artifact rows, and the old ones keep their report columns. */
  ghost predicate NoNewReports(before: Db, after: Db)
  {
    forall a :: a in after.artifacts ==> a in before.artifacts && SameReport(after.artifacts[a], before.artifacts[a])
  }

  lemma ClientAddsNoReports(db: Db, e: Event)
    requires Keyed(db) && ClientEvent(e)
    ensures NoNewReports(db, Exec(db, e).0)
  {
    hide ArtifactTable.Publish, ArtifactTable.AddArtifact, ArtifactTable.GetForRun, ProjectTable.ListProjects,
      RunTable.LookupRun;
  }

  lemma ReportsOutliveTheirRun(db: Db, e: Event, a: string)
    requires Keyed(db) && ClientEvent(e) && a in db.artifacts
    requires db.artifacts[a].runId in Exec(db, e).0.runs && db.artifacts[a].runId in db.runs
    ensures a in Exec(db, e).0.artifacts
  {
    hide ArtifactTable.Publish, ArtifactTable.AddArtifact, ArtifactTable.GetForRun, ProjectTable.ListProjects,
      RunTable.LookupRun;
  }

  /** No client statement completes a run, or changes a completed one. */
  lemma ClientCompletesNothing(db: Db, e: Event, r: string)
    requires Keyed(db) && ClientEvent(e) && r in Exec(db, e).0.runs
    ensures Exec(db, e).0.runs[r].status == Completed <==> r in db.runs && db.runs[r].status == Completed
  {
    hide Exec;
    if r in db.runs { StepRun(db, e, r); } else { StepNewRun(db, e, r); }
  }

  lemma SoundParts(db: Db)
    requires Sound(db)
    ensures Keyed(db) && TenantSound(db)
  {}

  /** Statements that neither publish nor complete keep the tables' part of the invariant. */
  lemma ClientKeepsTables(db: Db, e: Event)
    requires TablesOk(db) && ClientEvent(e) && Provenance.OwnInsert(db, e)
    ensures TablesOk(Exec(db, e).0) && NoNewReports(db, Exec(db, e).0)
  {
    hide Exec, ClientEvent, Sound;
    var db' := Exec(db, e).0;
    Provenance.StepSound(db, e);
    assert Keyed(db) && TenantSound(db) && TenantSound(db') by { SoundParts(db); SoundParts(db'); }
    ClientAddsNoReports(db, e);
    forall a | a in db'.artifacts
      ensures db'.artifacts[a].runId in db'.runs && db'.runs[db'.artifacts[a].runId].status == Completed
    {
      ClientCompletesNothing(db, e, db'.artifacts[a].runId);
    }
    forall r | r in db'.runs && db'.runs[r].status == Completed
      ensures exists j, m :: IsPair(db', r, j, m)
    {
      ClientCompletesNothing(db, e, r);
      var j, m :| IsPair(db, r, j, m);
      ReportsOutliveTheirRun(db, e, j);
      ReportsOutliveTheirRun(db, e, m);
      assert IsPair(db', r, j, m);
    }
  }

  // ----- reading the invariant -----

  lemma RowOf(c: Config, w: World, a: string)
    requires Invariant(c, w) && a in w.db.artifacts
    ensures RowStored(c, w, w.db.artifacts[a]) && Settled(w, w.db.artifacts[a].id)
  {
    hide Sound, OnlyCompleted, CompletedHasPair, FilesKnown, JobsOk, NoStrays;
  }

  lemma JobOf(c: Config, w: World, worker: nat)
    requires Invariant(c, w) && worker in w.jobs
    ensures JobOk(c, w, worker) && worker in w.started && WellFormed(w.tree)
  {
    hide Sound, OnlyCompleted, CompletedHasPair, RowsStored, NoStrays;
  }

  lemma JobsOf(c: Config, w: World)
    requires Invariant(c, w)
    ensures JobsOk(c, w) && TablesOk(w.db)
  {
    hide Sound, OnlyCompleted, CompletedHasPair, RowsStored, NoStrays, JobsOk;
  }

  lemma KeyMade(c: Config, w: World, worker: nat, n: nat)
    requires Invariant(c, w) && worker in w.jobs && n < |w.jobs[worker].keys|
    ensures PathOf(w.jobs[worker].keys[n]).Ok? && MadeBy(w, PathOf(w.jobs[worker].keys[n]).value, worker)
  {
    hide Sound, OnlyCompleted, CompletedHasPair, RowsStored, NoStrays, PathOf, Names, NamesFormat;
    assert JobOk(c, w, worker);
  }

  lemma HeldOf(c: Config, w: World, worker: nat, n: nat)
    requires Invariant(c, w) && worker in w.jobs && w.jobs[worker].phase.Writing?
    requires n < |w.jobs[worker].artifacts|
    ensures |w.jobs[worker].artifacts| == |w.jobs[worker].keys| <= 2 && Held(c, w, worker, n)
  {
    hide Sound, OnlyCompleted, CompletedHasPair, RowsStored, NoStrays, PathOf, Names, NamesFormat;
    assert JobOk(c, w, worker);
  }

  /** A row stays stored and settled when its object and its maker's phase are not disturbed. */
  lemma RowStays(c: Config, w: World, w': World, row: Artifact)
    requires RowStored(c, w, row) && Settled(w, row.id)
    requires row.id in w'.minted && w'.minted[row.id] == w.minted[row.id]
    requires w.minted[row.id] in w'.jobs ==>
      w.minted[row.id] in w.jobs && (Uncommitted(w'.jobs[w.minted[row.id]]) ==> Uncommitted(w.jobs[w.minted[row.id]]))
    requires var path := PathOf(row.objectKey).value;
      && (path in w'.revoked <==> path in w.revoked)
      && (path in w'.tree.files <==> path in w.tree.files)
      && (path in w.tree.files ==> w'.tree.files[path] == w.tree.files[path])
    ensures RowStored(c, w', row) && Settled(w', row.id)
  {}

  // ----- steps that leave the objects alone -----

  /** The job did not go back to an uncommitted phase, and kept its recorded keys. */
  predicate Onward(before: Job, after: Job)
  {
    after.keys == before.keys && (Uncommitted(after) ==> Uncommitted(before))
  }

  ghost predicate JobsMoveOn(c: Config, w: World, w': World)
  {
    forall i :: i in w'.jobs ==>
      && JobOk(c, w', i)
      && (if i in w.jobs then Onward(w.jobs[i], w'.jobs[i]) else i !in w.started && w'.jobs[i].keys == [])
  }

  lemma Frame(c: Config, w: World, w': World)
    requires Invariant(c, w) && TablesOk(w'.db) && NoNewReports(w.db, w'.db)
    requires w'.tree == w.tree && w'.minted == w.minted && w'.revoked == w.revoked && w'.lost == w.lost
    requires w.started <= w'.started && JobsMoveOn(c, w, w')
    ensures Invariant(c, w')
  {
    forall a | a in w'.db.artifacts
      ensures RowStored(c, w', w'.db.artifacts[a]) && Settled(w', w'.db.artifacts[a].id)
    {
      var row := w.db.artifacts[a];
      assert RowStored(c, w, row) && Settled(w, row.id);
      assert w.minted[row.id] in w.started;
    }
    forall p, i | p in w'.tree.files && i in w'.jobs && MadeBy(w', p, i)
      ensures p in w'.lost || exists n :: 0 <= n < |w'.jobs[i].keys| && PathOf(w'.jobs[i].keys[n]) == Ok(p)
    {
      assert MadeBy(w, p, i);
      if i in w.jobs {
        assert w'.jobs[i].keys == w.jobs[i].keys;
      }
    }
    assert forall p :: Known(w, p) ==> Known(w', p);
  }

  /** A job not touched by the step is as good as before. */
  lemma JobUntouched(c: Config, w: World, w': World, i: nat)
    requires i in w.jobs && i in w'.jobs && w'.jobs[i] == w.jobs[i] && JobOk(c, w, i)
    requires w'.tree.files == w.tree.files && w'.minted == w.minted && w.started <= w'.started
    ensures JobOk(c, w', i)
  {
    var job := w.jobs[i];
    forall n | 0 <= n < |job.keys|
      ensures MadeBy(w', PathOf(job.keys[n]).value, i)
    {
      assert MadeBy(w, PathOf(job.keys[n]).value, i);
    }
    if job.phase.Writing? {
      forall n | 0 <= n < |job.artifacts|
        ensures Held(c, w', i, n)
      {
        assert Held(c, w, i, n);
      }
    }
  }

  /** Moving one job to the handler, or to another phase with the same keys, keeps every job good. */
  lemma JobMoves(c: Config, w: World, w': World, worker: nat)
    requires JobsOk(c, w) && worker in w.jobs && w'.jobs.Keys == w.jobs.Keys
    requires forall i :: i in w.jobs && i != worker ==> w'.jobs[i] == w.jobs[i]
    requires w'.tree == w.tree && w'.minted == w.minted && w'.started == w.started
    requires var before, after := w.jobs[worker], w'.jobs[worker];
      && Onward(before, after)
      && after.phase != Benchmarking
      && (after.phase.Writing? ==> before.phase.Benchmarking? && after.artifacts == before.artifacts)
      && (after.phase.Committed? ==> before.phase.Writing? && |before.artifacts| == 2)
    ensures JobsMoveOn(c, w, w')
  {
    hide PathOf, Names, NamesFormat;
    assert JobOk(c, w, worker);
    forall i | i in w'.jobs
      ensures JobOk(c, w', i)
    {
      assert JobOk(c, w, i);
      if i != worker {
        JobUntouched(c, w, w', i);
      } else {
        forall n | 0 <= n < |w.jobs[i].keys|
          ensures MadeBy(w', PathOf(w.jobs[i].keys[n]).value, i)
        {
          assert MadeBy(w, PathOf(w.jobs[i].keys[n]).value, i);
        }
      }
    }
  }

  lemma TablesUnchanged(db: Db)
    ensures NoNewReports(db, db)
  {}

  lemma RaiseKeeps(c: Config, w: World, worker: nat)
    requires Invariant(c, w) && worker in w.jobs && !w.jobs[worker].phase.Compensating?
    ensures Invariant(c, Raise(w, worker))
  {
    hide JobOk, Sound;
    TablesUnchanged(w.db);
    JobMoves(c, w, Raise(w, worker), worker);
    Frame(c, w, Raise(w, worker));
  }

  lemma DropKeeps(c: Config, w: World, worker: nat)
    requires Invariant(c, w)
    ensures Invariant(c, Drop(w, worker))
  {
    hide Sound;
    TablesUnchanged(w.db);
    var w' := Drop(w, worker);
    forall i | i in w'.jobs
      ensures JobOk(c, w', i) && Onward(w.jobs[i], w'.jobs[i])
    {
      assert JobOk(c, w, i);
      JobUntouched(c, w, w', i);
    }
    assert JobsMoveOn(c, w, w');
    Frame(c, w, w');
  }

  /** Replacing the tables by ones a client statement could leave. */
  lemma TablesKeep(c: Config, w: World, e: Event)
    requires Invariant(c, w) && ClientEvent(e) && Provenance.OwnInsert(w.db, e)
    ensures Invariant(c, w.(db := Exec(w.db, e).0))
  {
    hide Exec, ClientEvent, Provenance.OwnInsert;
    ClientKeepsTables(w.db, e);
    var w' := w.(db := Exec(w.db, e).0);
    forall i | i in w'.jobs
      ensures JobOk(c, w', i) && Onward(w.jobs[i], w'.jobs[i])
    {
      assert JobOk(c, w, i);
      JobUntouched(c, w, w', i);
    }
    assert JobsMoveOn(c, w, w');
    Frame(c, w, w');
  }

  lemma ClaimKeeps(c: Config, w: World, tenant: string, owner: string, now: Moment)
    requires Invariant(c, w)
    ensures Invariant(c, w.(db := RunTable.ClaimNext(w.db, tenant, owner, now, LEASE_SECONDS).0))
  {
    hide Invariant, RunTable.ClaimNext;
    TablesKeep(c, w, Event(tenant, ClaimNext(owner, now, LEASE_SECONDS)));
  }

  lemma UpdateKeeps(c: Config, w: World, tenant: string, claim: LeaseClaim, seen: RunStatus, target: RunStatus, at: int)
    requires Invariant(c, w) && target != Completed
    ensures Invariant(c, w.(db := RunTable.TransitionUpdate(w.db, tenant, claim, seen, target, at).0))
  {
    hide Invariant, RunTable.TransitionUpdate;
    TablesKeep(c, w, Event(tenant, TransitionUpdate(claim, seen, target, at)));
  }

  lemma TransitionIsUpdate(db: Db, tenant: string, claim: LeaseClaim, target: RunStatus, now: int)
    requires RunTable.Transition(db, tenant, claim, target, now).1 == Flag(true)
    ensures claim.run.id in db.runs
    ensures RunTable.TransitionUpdate(db, tenant, claim, db.runs[claim.run.id].status, target, now)
         == RunTable.Transition(db, tenant, claim, target, now)
  {}

  lemma NewJobKeeps(c: Config, w: World, worker: nat, job: Job)
    requires Invariant(c, w) && worker !in w.started
    requires job.phase.Benchmarking? && job.keys == [] && job.artifacts == []
    ensures Invariant(c, w.(started := w.started + {worker}, jobs := w.jobs[worker := job]))
  {
    hide Sound;
    TablesUnchanged(w.db);
    var w' := w.(started := w.started + {worker}, jobs := w.jobs[worker := job]);
    forall i | i in w'.jobs
      ensures JobOk(c, w', i)
    {
      if i != worker {
        assert JobOk(c, w, i);
        JobUntouched(c, w, w', i);
      }
    }
    assert worker in w.jobs ==> JobOk(c, w, worker);
    assert JobsMoveOn(c, w, w');
    Frame(c, w, w');
  }

  lemma BeginKeeps(c: Config, w: World, worker: nat, tenant: string, owner: string, now: Moment)
    requires Invariant(c, w)
    ensures Invariant(c, BeginStep(w, worker, tenant, owner, now))
  {
    hide Invariant, RunTable.ClaimNext, RunTable.Transition, RunTable.TransitionUpdate;
    var (db1, r1) := RunTable.ClaimNext(w.db, tenant, owner, now, LEASE_SECONDS);
    if worker !in w.started && r1.Claimed? && r1.claim.Some? {
      var w1 := w.(db := db1);
      ClaimKeeps(c, w, tenant, owner, now);
      var claim := r1.claim.value;
      var (db2, r2) := RunTable.Transition(db1, tenant, claim, Running, now.at + MILLISECOND);
      if r2 == Flag(true) {
        TransitionIsUpdate(db1, tenant, claim, Running, now.at + MILLISECOND);
        UpdateKeeps(c, w1, tenant, claim, db1.runs[claim.run.id].status, Running, now.at + MILLISECOND);
        NewJobKeeps(c, w.(db := db2), worker, Job(tenant, claim, Benchmarking, [], []));
      }
    }
  }

  lemma WritingKeeps(c: Config, w: World, worker: nat, phase: Phase)
    requires Invariant(c, w) && worker in w.jobs && w.jobs[worker].phase.Benchmarking? && phase.Writing?
    ensures Invariant(c, SetJob(w, worker, w.jobs[worker].(phase := phase)))
  {
    hide JobOk, Sound;
    var w' := SetJob(w, worker, w.jobs[worker].(phase := phase));
    TablesUnchanged(w.db);
    JobMoves(c, w, w', worker);
    Frame(c, w, w');
  }

  lemma EvaluateKeeps(c: Config, w: World, worker: nat, json: Bytes, markdown: Bytes, seen: RunStatus, at: int)
    requires Invariant(c, w)
    ensures Invariant(c, EvaluateStep(w, worker, json, markdown, seen, at))
  {
    hide Invariant, RunTable.TransitionUpdate;
    if worker in w.jobs && w.jobs[worker].phase.Benchmarking? {
      var job := w.jobs[worker];
      UpdateKeeps(c, w, job.tenant, job.claim, seen, Evaluating, at);
      var (db', r) := RunTable.TransitionUpdate(w.db, job.tenant, job.claim, seen, Evaluating, at);
      if r == Flag(true) {
        WritingKeeps(c, w.(db := db'), worker, Writing(json, markdown, at));
      } else {
        RaiseKeeps(c, w, worker);
      }
    }
  }

  lemma FailRunKeeps(c: Config, w: World, worker: nat, seen: RunStatus, at: int)
    requires Invariant(c, w)
    ensures Invariant(c, FailRunStep(w, worker, seen, at))
  {
    hide Invariant, RunTable.TransitionUpdate;
    if worker in w.jobs && w.jobs[worker].phase.Compensating? && w.jobs[worker].keys == [] {
      var job := w.jobs[worker];
      UpdateKeeps(c, w, job.tenant, job.claim, seen, Failed, at);
      DropKeeps(c, w.(db := RunTable.TransitionUpdate(w.db, job.tenant, job.claim, seen, Failed, at).0), worker);
    }
  }

  // ----- publishing -----

  lemma HeldArtifact(c: Config, w: World, worker: nat, n: nat)
    requires Invariant(c, w) && worker in w.jobs && w.jobs[worker].phase.Writing?
    requires n < |w.jobs[worker].artifacts|
    ensures JobOk(c, w, worker) && Held(c, w, worker, n)
  {
    assert JobOk(c, w, worker);
  }

  /** The tables after a successful last transaction. */
  function Published(db: Db, job: Job, at: int): Db
    requires |job.artifacts| == 2 && job.claim.run.id in db.runs
  {
    Db(db.projects,
       db.runs[job.claim.run.id := RunTable.MoveRow(db.runs[job.claim.run.id], Completed, at)],
       db.artifacts[job.artifacts[0].id := job.artifacts[0]][job.artifacts[1].id := job.artifacts[1]])
  }

  lemma CanPublishHasRun(db: Db, t: string, json: Artifact, markdown: Artifact, claim: LeaseClaim, seen: RunStatus,
                         at: int)
    requires ArtifactTable.CanPublish(db, t, json, markdown, claim, seen, at)
    ensures claim.run.id in db.runs && db.runs[claim.run.id].status == Evaluating
    ensures json.id !in db.artifacts && markdown.id !in db.artifacts && json.id != markdown.id
  {}

  lemma OtherPairStays(db: Db, job: Job, seen: RunStatus, at: int, x: string)
    requires CompletedHasPair(db) && |job.artifacts| == 2
    requires ArtifactTable.CanPublish(db, job.tenant, job.artifacts[0], job.artifacts[1], job.claim, seen, at)
    requires job.artifacts[0].runId == job.claim.run.id == job.artifacts[1].runId
    requires x in db.runs && x != job.claim.run.id && db.runs[x].status == Completed
    ensures exists j, m :: IsPair(Published(db, job, at), x, j, m)
  {
    hide ArtifactTable.CanPublish;
    CanPublishHasRun(db, job.tenant, job.artifacts[0], job.artifacts[1], job.claim, seen, at);
    var j, m :| IsPair(db, x, j, m);
    assert IsPair(Published(db, job, at), x, j, m);
  }

  /** The published run had no artifact rows before, so now it has just these two. */
  lemma PublishedPairs(db: Db, job: Job, seen: RunStatus, at: int)
    requires TablesOk(db) && |job.artifacts| == 2
    requires ArtifactTable.CanPublish(db, job.tenant, job.artifacts[0], job.artifacts[1], job.claim, seen, at)
    requires job.artifacts[0].runId == job.claim.run.id == job.artifacts[1].runId
    requires job.artifacts[0].format == "json" && job.artifacts[1].format == "markdown"
    ensures OnlyCompleted(Published(db, job, at)) && CompletedHasPair(Published(db, job, at))
  {
    hide Sound, ArtifactTable.CanPublish;
    var r := job.claim.run.id;
    CanPublishHasRun(db, job.tenant, job.artifacts[0], job.artifacts[1], job.claim, seen, at);
    var db' := Published(db, job, at);
    assert forall a :: a in db.artifacts ==> db.artifacts[a].runId != r;
    assert IsPair(db', r, job.artifacts[0].id, job.artifacts[1].id);
    forall x | x in db'.runs && x != r && db'.runs[x].status == Completed
      ensures exists j, m :: IsPair(db', x, j, m)
    {
      OtherPairStays(db, job, seen, at, x);
    }
  }

  lemma PublishExec(db: Db, e: Event)
    requires e.command.Publish?
    requires ArtifactTable.CanPublish(db, e.tenant, e.command.json, e.command.markdown, e.command.claim,
                                      e.command.seen, e.command.at)
    ensures Exec(db, e) == (Db(db.projects,
       db.runs[e.command.claim.run.id := RunTable.MoveRow(db.runs[e.command.claim.run.id], Completed, e.command.at)],
       db.artifacts[e.command.json.id := e.command.json][e.command.markdown.id := e.command.markdown]), Flag(true))
    ensures Provenance.OwnInsert(db, e)
  {
    UnfoldPublish(db, e);
    hide ArtifactTable.Publish;
  }

  lemma PublishedTables(db: Db, job: Job, seen: RunStatus, at: int)
    requires TablesOk(db) && |job.artifacts| == 2
    requires ArtifactTable.CanPublish(db, job.tenant, job.artifacts[0], job.artifacts[1], job.claim, seen, at)
    requires job.artifacts[0].runId == job.claim.run.id == job.artifacts[1].runId
    requires job.artifacts[0].format == "json" && job.artifacts[1].format == "markdown"
    ensures TablesOk(Published(db, job, at))
  {
    hide Exec, ArtifactTable.CanPublish, Sound;
    var e := Event(job.tenant, Publish(job.artifacts[0], job.artifacts[1], job.claim, seen, at));
    CanPublishHasRun(db, job.tenant, job.artifacts[0], job.artifacts[1], job.claim, seen, at);
    PublishExec(db, e);
    PublishedPairs(db, job, seen, at);
    Provenance.StepSound(db, e);
  }

  lemma HeldIsStored(c: Config, w: World, worker: nat, n: nat)
    requires Invariant(c, w) && worker in w.jobs && w.jobs[worker].phase.Writing?
    requires n < |w.jobs[worker].artifacts|
    ensures RowStored(c, w, w.jobs[worker].artifacts[n])
    ensures w.jobs[worker].artifacts[n].id in w.minted && w.minted[w.jobs[worker].artifacts[n].id] == worker
  {
    hide Sound;
    HeldArtifact(c, w, worker, n);
  }

  lemma CommittedRows(c: Config, w: World, worker: nat, at: int)
    requires Invariant(c, w) && worker in w.jobs
    requires var job := w.jobs[worker];
      job.phase.Writing? && |job.artifacts| == 2 && job.claim.run.id in w.db.runs
    ensures var job := w.jobs[worker];
      RowsStored(c, SetJob(w.(db := Published(w.db, job, at)), worker, job.(phase := Committed)))
  {
    hide Sound, JobOk, Held, FilesKnown;
    var job := w.jobs[worker];
    var w' := SetJob(w.(db := Published(w.db, job, at)), worker, job.(phase := Committed));
    HeldIsStored(c, w, worker, 0);
    HeldIsStored(c, w, worker, 1);
    forall a | a in w'.db.artifacts
      ensures RowStored(c, w', w'.db.artifacts[a]) && Settled(w', w'.db.artifacts[a].id)
    {
      if a != job.artifacts[0].id && a != job.artifacts[1].id {
        assert RowStored(c, w, w.db.artifacts[a]) && Settled(w, w.db.artifacts[a].id);
      }
    }
  }

  lemma CommittedObjects(c: Config, w: World, w': World)
    requires Invariant(c, w) && TablesOk(w'.db) && RowsStored(c, w') && JobsMoveOn(c, w, w')
    requires w'.jobs.Keys == w.jobs.Keys
    requires w'.tree == w.tree && w'.minted == w.minted && w'.revoked == w.revoked && w'.lost == w.lost
    requires w'.started == w.started
    ensures Invariant(c, w')
  {
    hide Sound, JobOk, RowsStored;
    assert forall p :: Known(w, p) ==> Known(w', p);
    forall p, i | p in w'.tree.files && i in w'.jobs && MadeBy(w', p, i)
      ensures p in w'.lost || exists n :: 0 <= n < |w'.jobs[i].keys| && PathOf(w'.jobs[i].keys[n]) == Ok(p)
    {
      assert MadeBy(w, p, i) && w'.jobs[i].keys == w.jobs[i].keys;
    }
  }

  lemma CommitKeeps(c: Config, w: World, worker: nat, seen: RunStatus, at: int)
    requires Invariant(c, w)
    ensures Invariant(c, CommitStep(w, worker, seen, at))
  {
    hide Sound, ArtifactTable.Publish, ArtifactTable.CanPublish, Invariant, PathOf, Names, NamesFormat;
    if worker in w.jobs && w.jobs[worker].phase.Writing? && |w.jobs[worker].artifacts| == 2 {
      var job := w.jobs[worker];
      ArtifactTable.PublishIsAtomic(w.db, job.tenant, job.artifacts[0], job.artifacts[1], job.claim, seen, at);
      if ArtifactTable.CanPublish(w.db, job.tenant, job.artifacts[0], job.artifacts[1], job.claim, seen, at) {
        HeldArtifact(c, w, worker, 0);
        HeldArtifact(c, w, worker, 1);
        CanPublishHasRun(w.db, job.tenant, job.artifacts[0], job.artifacts[1], job.claim, seen, at);
        JobsOf(c, w);
        PublishedTables(w.db, job, seen, at);
        var w' := SetJob(w.(db := Published(w.db, job, at)), worker, job.(phase := Committed));
        CommittedRows(c, w, worker, at);
        JobMoves(c, w, w', worker);
        CommittedObjects(c, w, w');
      } else {
        RaiseKeeps(c, w, worker);
      }
    }
  }

  // ----- putting objects -----

  /** A fresh artifact id names no stored object, no revoked path and no row. */
  lemma FreshIdIsUnused(c: Config, w: World, id: string)
    requires Invariant(c, w) && id !in w.minted
    ensures forall p :: p in w.tree.files ==> !Names(p, id)
    ensures forall p :: p in w.revoked ==> !Names(p, id)
    ensures forall a :: a in w.db.artifacts
                    ==> w.db.artifacts[a].id != id && !Names(PathOf(w.db.artifacts[a].objectKey).value, id)
  {
    hide Sound;
    forall p | Known(w, p)
      ensures !Names(p, id)
    {
      var x :| x in w.minted && Names(p, x);
      if Names(p, id) { NamesOne(p, x, id); }
    }
    forall a | a in w.db.artifacts
      ensures w.db.artifacts[a].id != id && !Names(PathOf(w.db.artifacts[a].objectKey).value, id)
    {
      var row := w.db.artifacts[a];
      assert RowStored(c, w, row);
      if Names(PathOf(row.objectKey).value, id) { NamesOne(PathOf(row.objectKey).value, row.id, id); }
    }
  }

  /** A job stays good when artifact ids and objects are only added. */
  lemma MintedJob(c: Config, w: World, w': World, i: nat, id: string)
    requires i in w.jobs && i in w'.jobs && w'.jobs[i] == w.jobs[i] && JobOk(c, w, i)
    requires id !in w.minted && w'.minted.Keys == w.minted.Keys + {id}
    requires forall x :: x in w.minted ==> w'.minted[x] == w.minted[x]
    requires forall p :: p in w.tree.files ==> p in w'.tree.files && w'.tree.files[p] == w.tree.files[p]
    requires w'.started == w.started
    ensures JobOk(c, w', i)
  {
    var job := w.jobs[i];
    forall n | 0 <= n < |job.keys|
      ensures MadeBy(w', PathOf(job.keys[n]).value, i)
    {
      assert MadeBy(w, PathOf(job.keys[n]).value, i);
    }
    if job.phase.Writing? {
      forall n | 0 <= n < |job.artifacts|
        ensures Held(c, w', i, n)
      {
        assert Held(c, w, i, n);
      }
    }
  }

  /** Making a new artifact id, and directories, disturbs nothing. */
  lemma MintKeeps(c: Config, w: World, worker: nat, id: string, tree: Tree)
    requires Invariant(c, w) && worker in w.started && id !in w.minted
    requires WellFormed(tree) && tree.files == w.tree.files
    ensures Invariant(c, w.(minted := w.minted[id := worker], tree := tree))
  {
    hide Sound, WellFormed, Names, NamesFormat;
    FreshIdIsUnused(c, w, id);
    var w' := w.(minted := w.minted[id := worker], tree := tree);
    forall a | a in w'.db.artifacts
      ensures RowStored(c, w', w'.db.artifacts[a]) && Settled(w', w'.db.artifacts[a].id)
    {
      assert RowStored(c, w, w.db.artifacts[a]) && Settled(w, w.db.artifacts[a].id);
    }
    forall i | i in w'.jobs
      ensures JobOk(c, w', i)
    {
      MintedJob(c, w, w', i, id);
    }
    forall p, i | p in w'.tree.files && i in w'.jobs && MadeBy(w', p, i)
      ensures p in w'.lost || exists n :: 0 <= n < |w'.jobs[i].keys| && PathOf(w'.jobs[i].keys[n]) == Ok(p)
    {
      assert MadeBy(w, p, i);
    }
    assert forall p :: Known(w, p) ==> Known(w', p);
  }

  /** A writing worker is about to store the object of a fresh artifact under `key`. */
  ghost predicate CanStore(c: Config, w: World, worker: nat, id: string, key: string)
  {
    && Invariant(c, w) && id !in w.minted
    && worker in w.jobs && w.jobs[worker].phase.Writing? && |w.jobs[worker].artifacts| < 2
    && PathOf(key).Ok? && Names(PathOf(key).value, id)
    && NamesFormat(PathOf(key).value, id, FORMATS[|w.jobs[worker].artifacts|])
    && Put(w.tree, c.maxBytes, c.sha256, key, NextPayload(w.jobs[worker])).1.Ok?
  }

  /** The world after an object of a fresh artifact was stored: recorded by its job, or lost by a raising put. */
  function Stored(c: Config, w: World, worker: nat, id: string, key: string, lost: bool): World
    requires worker in w.jobs && w.jobs[worker].phase.Writing? && |w.jobs[worker].artifacts| < 2
    requires PathOf(key).Ok?
  {
    var job := w.jobs[worker];
    var data := NextPayload(job);
    var tree' := Put(w.tree, c.maxBytes, c.sha256, key, data).0;
    var w2 := w.(minted := w.minted[id := worker], tree := tree');
    if lost then Raise(w2.(lost := w.lost + {PathOf(key).value}), worker)
    else SetJob(w2, worker, job.(keys := job.keys + [key],
                                 artifacts := job.artifacts
                                              + [NewArtifact(c, job, id, FORMATS[|job.artifacts|], key, data)]))
  }

  lemma StoredTree(c: Config, w: World, worker: nat, id: string, key: string, lost: bool)
    requires CanStore(c, w, worker, id, key)
    ensures var w' := Stored(c, w, worker, id, key, lost);
      && w'.tree.files == w.tree.files[PathOf(key).value := NextPayload(w.jobs[worker])]
      && WellFormed(w'.tree)
      && PathOf(key).value !in w.tree.files
      && JobOk(c, w, worker)
  {
    JobOf(c, w, worker);
    hide Invariant;
    PutAddsOneFile(w.tree, c.maxBytes, c.sha256, key, NextPayload(w.jobs[worker]));
  }

  lemma StoredHeld(c: Config, w: World, worker: nat, id: string, key: string, n: nat)
    requires CanStore(c, w, worker, id, key)
    requires n < |w.jobs[worker].artifacts| + 1
    ensures JobOk(c, w, worker)
    ensures Held(c, Stored(c, w, worker, id, key, false), worker, n)
    ensures n < |w.jobs[worker].artifacts| ==> w.jobs[worker].artifacts[n].id != id
  {
    hide Invariant, Put, WellFormed, PathOf, Names, NamesFormat;
    StoredTree(c, w, worker, id, key, false);
    var w' := Stored(c, w, worker, id, key, false);
    var job, job' := w.jobs[worker], w'.jobs[worker];
    if n < |job.artifacts| {
      HeldOf(c, w, worker, n);
      assert job'.artifacts[n] == job.artifacts[n] && job'.keys[n] == job.keys[n];
    } else {
      assert job'.artifacts[n] == NewArtifact(c, job, id, FORMATS[n], key, NextPayload(job)) && job'.keys[n] == key;
    }
  }

  lemma StoredKey(c: Config, w: World, worker: nat, id: string, key: string, lost: bool, n: nat)
    requires CanStore(c, w, worker, id, key)
    requires n < |Stored(c, w, worker, id, key, lost).jobs[worker].keys|
    ensures var w' := Stored(c, w, worker, id, key, lost);
      PathOf(w'.jobs[worker].keys[n]).Ok? && MadeBy(w', PathOf(w'.jobs[worker].keys[n]).value, worker)
  {
    hide Invariant, Put, WellFormed, PathOf, Held, Names, NamesFormat;
    JobOf(c, w, worker);
    var w' := Stored(c, w, worker, id, key, lost);
    var job, job' := w.jobs[worker], w'.jobs[worker];
    if n < |job.keys| {
      assert job'.keys[n] == job.keys[n];
      assert MadeBy(w, PathOf(job.keys[n]).value, worker);
    } else {
      assert job'.keys[n] == key;
    }
  }

  lemma StoredKeys(c: Config, w: World, worker: nat, id: string, key: string, lost: bool)
    requires CanStore(c, w, worker, id, key)
    ensures var w' := Stored(c, w, worker, id, key, lost); KeysStored(w', w'.jobs[worker].keys)
  {
    hide Invariant, Put, WellFormed, PathOf, Held, MadeBy, Names, NamesFormat;
    StoredTree(c, w, worker, id, key, lost);
  }

  lemma StoredJob(c: Config, w: World, worker: nat, id: string, key: string, lost: bool)
    requires CanStore(c, w, worker, id, key)
    ensures JobOk(c, Stored(c, w, worker, id, key, lost), worker)
  {
    hide Invariant, Put, WellFormed, PathOf, Held, MadeBy, Names, NamesFormat;
    StoredKeys(c, w, worker, id, key, lost);
    StoredTree(c, w, worker, id, key, lost);
    var w' := Stored(c, w, worker, id, key, lost);
    var job, job' := w.jobs[worker], w'.jobs[worker];
    if !lost {
      forall n | 0 <= n < |job'.artifacts|
        ensures Held(c, w', worker, n)
      {
        StoredHeld(c, w, worker, id, key, n);
      }
      if |job.artifacts| == 1 {
        StoredHeld(c, w, worker, id, key, 0);
        assert job'.artifacts[0] == job.artifacts[0];
      }
    }
    forall n | 0 <= n < |job'.keys|
      ensures PathOf(job'.keys[n]).Ok? && MadeBy(w', PathOf(job'.keys[n]).value, worker)
    {
      StoredKey(c, w, worker, id, key, lost, n);
    }
  }

  /** A stored report stays stored when a fresh artifact is put, whether or not its row is still there. */
  lemma StoredRow(c: Config, w: World, worker: nat, id: string, key: string, lost: bool, row: Artifact)
    requires CanStore(c, w, worker, id, key)
    requires RowStored(c, w, row) && Settled(w, row.id)
    ensures var w' := Stored(c, w, worker, id, key, lost);
      RowStored(c, w', row) && Settled(w', row.id)
  {
    hide Invariant, Put, WellFormed, PathOf, JobOk, Names, NamesFormat;
    StoredTree(c, w, worker, id, key, lost);
    if PathOf(row.objectKey) == PathOf(key) { NamesOne(PathOf(key).value, row.id, id); }
    RowStays(c, w, Stored(c, w, worker, id, key, lost), row);
  }

  lemma StoredRows(c: Config, w: World, worker: nat, id: string, key: string, lost: bool)
    requires CanStore(c, w, worker, id, key)
    ensures RowsStored(c, Stored(c, w, worker, id, key, lost))
  {
    hide Invariant, Put, PathOf, RowStored, Settled, WellFormed, Names, NamesFormat;
    forall a | a in w.db.artifacts
      ensures RowStored(c, Stored(c, w, worker, id, key, lost), w.db.artifacts[a])
      ensures Settled(Stored(c, w, worker, id, key, lost), w.db.artifacts[a].id)
    {
      RowOf(c, w, a);
      StoredRow(c, w, worker, id, key, lost, w.db.artifacts[a]);
    }
  }

  lemma StoredFiles(c: Config, w: World, worker: nat, id: string, key: string, lost: bool)
    requires CanStore(c, w, worker, id, key)
    ensures FilesKnown(Stored(c, w, worker, id, key, lost))
  {
    hide Sound, NoStrays, RowsStored, JobsOk, Put, WellFormed, PathOf, JobOk, Names, NamesFormat;
    StoredTree(c, w, worker, id, key, lost);
    FreshIdIsUnused(c, w, id);
    var w' := Stored(c, w, worker, id, key, lost);
    assert forall p :: Known(w, p) ==> Known(w', p);
    assert Known(w', PathOf(key).value);
  }

  lemma StoredJobs(c: Config, w: World, worker: nat, id: string, key: string, lost: bool)
    requires CanStore(c, w, worker, id, key)
    ensures JobsOk(c, Stored(c, w, worker, id, key, lost))
  {
    hide Put, WellFormed, PathOf, Sound, NoStrays, RowsStored, FilesKnown, JobOk, Names, NamesFormat;
    JobOf(c, w, worker);
    StoredTree(c, w, worker, id, key, lost);
    StoredJob(c, w, worker, id, key, lost);
    var w' := Stored(c, w, worker, id, key, lost);
    forall i | i in w'.jobs
      ensures JobOk(c, w', i)
    {
      if i != worker {
        MintedJob(c, w, w', i, id);
      }
    }
  }

  lemma StoredStrays(c: Config, w: World, worker: nat, id: string, key: string, lost: bool)
    requires CanStore(c, w, worker, id, key)
    ensures NoStrays(Stored(c, w, worker, id, key, lost))
  {
    hide Sound, RowsStored, Put, WellFormed, PathOf, Names, NamesFormat, JobsOk;
    StoredTree(c, w, worker, id, key, lost);
    FreshIdIsUnused(c, w, id);
    var w' := Stored(c, w, worker, id, key, lost);
    var path := PathOf(key).value;
    forall p, i | p in w'.tree.files && i in w'.jobs && MadeBy(w', p, i)
      ensures p in w'.lost || exists n :: 0 <= n < |w'.jobs[i].keys| && PathOf(w'.jobs[i].keys[n]) == Ok(p)
    {
      if p == path {
        var x :| x in w'.minted && w'.minted[x] == i && Names(p, x);
        NamesOne(p, x, id);
        if !lost {
          var keys := w'.jobs[worker].keys;
          assert keys[|keys| - 1] == key;
        }
      } else {
        assert MadeBy(w, p, i);
        if p !in w.lost {
          var n :| 0 <= n < |w.jobs[i].keys| && PathOf(w.jobs[i].keys[n]) == Ok(p);
          assert w'.jobs[i].keys[n] == w.jobs[i].keys[n];
        }
      }
    }
  }

  lemma StoredKeeps(c: Config, w: World, worker: nat, id: string, key: string, lost: bool)
    requires CanStore(c, w, worker, id, key)
    ensures Invariant(c, Stored(c, w, worker, id, key, lost))
  {
    hide Sound, RowsStored, FilesKnown, JobsOk, NoStrays, Put, PathOf, Names, NamesFormat;
    StoredRows(c, w, worker, id, key, lost);
    StoredFiles(c, w, worker, id, key, lost);
    StoredJobs(c, w, worker, id, key, lost);
    StoredStrays(c, w, worker, id, key, lost);
  }

  lemma PutKeeps(c: Config, w: World, worker: nat, id: string, lost: bool)
    requires Invariant(c, w)
    ensures Invariant(c, PutStep(c, w, worker, id, lost))
  {
    hide Invariant, PathOf, WellFormed, JobOk;
    if worker in w.jobs && w.jobs[worker].phase.Writing? && |w.jobs[worker].artifacts| < 2 && id !in w.minted {
      var job := w.jobs[worker];
      JobOf(c, w, worker);
      var built := BuildArtifactKey(job.tenant, job.claim.run.id, id, FORMATS[|job.artifacts|]);
      var w1 := w.(minted := w.minted[id := worker]);
      if built.Err? {
        MintKeeps(c, w, worker, id, w.tree);
        RaiseKeeps(c, w1, worker);
      } else {
        var key, data := built.value, NextPayload(job);
        PutAddsOneFile(w.tree, c.maxBytes, c.sha256, key, data);
        var (tree', r) := Put(w.tree, c.maxBytes, c.sha256, key, data);
        if r.Err? {
          MintKeeps(c, w, worker, id, tree');
          RaiseKeeps(c, w1.(tree := tree'), worker);
        } else {
          PathNamesItsArtifact(job.tenant, job.claim.run.id, id, FORMATS[|job.artifacts|]);
          StoredKeeps(c, w, worker, id, key, lost);
        }
      }
    }
  }

  // ----- deleting objects in the handler -----

  lemma DeletedRow(c: Config, w: World, worker: nat, a: Artifact, path: seq<string>)
    requires Invariant(c, w) && worker in w.jobs
    requires a.id in w.minted && PathOf(a.objectKey).Ok? && Names(PathOf(a.objectKey).value, a.id)
    requires MadeBy(w, path, worker) && w.minted[a.id] != worker
    ensures PathOf(a.objectKey).value != path
  {
    hide Invariant, PathOf, Names, NamesFormat;
    var x :| x in w.minted && w.minted[x] == worker && Names(path, x);
    if PathOf(a.objectKey).value == path {
      NamesOne(path, x, a.id);
    }
  }

  /** The world after the handler removed the first recorded object, if it was still there. */
  function Removed(w: World, worker: nat, tree: Tree): World
    requires worker in w.jobs && w.jobs[worker].phase.Compensating? && w.jobs[worker].keys != []
    requires PathOf(w.jobs[worker].keys[0]).Ok?
  {
    var job := w.jobs[worker];
    var path := PathOf(job.keys[0]).value;
    var gone := if job.phase.committed && path in w.tree.files then {path} else {};
    SetJob(w.(tree := tree, revoked := w.revoked + gone), worker, job.(keys := job.keys[1..]))
  }

  /** A worker in its handler has removed the first recorded object, which left `tree`. */
  ghost predicate CanRemove(c: Config, w: World, worker: nat, tree: Tree)
  {
    && Invariant(c, w) && worker in w.jobs && w.jobs[worker].phase.Compensating? && w.jobs[worker].keys != []
    && PathOf(w.jobs[worker].keys[0]).Ok? && WellFormed(tree)
    && tree.files == w.tree.files - {PathOf(w.jobs[worker].keys[0]).value}
  }

  /** A row whose maker is deleting was published, so a deletion of its object is recorded as revoked. */
  lemma OwnRowRemoved(c: Config, w: World, worker: nat, tree: Tree, row: Artifact)
    requires RowStored(c, w, row) && Settled(w, row.id) && w.minted[row.id] == worker
    requires worker in w.jobs && w.jobs[worker].phase.Compensating? && w.jobs[worker].keys != []
    requires PathOf(w.jobs[worker].keys[0]).Ok?
    requires tree.files == w.tree.files - {PathOf(w.jobs[worker].keys[0]).value}
    ensures RowStored(c, Removed(w, worker, tree), row) && Settled(Removed(w, worker, tree), row.id)
  {
    hide PathOf, Names, NamesFormat;
  }

  lemma RemovedRow(c: Config, w: World, worker: nat, tree: Tree, row: Artifact)
    requires CanRemove(c, w, worker, tree)
    requires RowStored(c, w, row) && Settled(w, row.id)
    ensures RowStored(c, Removed(w, worker, tree), row) && Settled(Removed(w, worker, tree), row.id)
  {
    hide Invariant, WellFormed, PathOf, JobOk, MadeBy, Names, NamesFormat;
    KeyMade(c, w, worker, 0);
    var path := PathOf(w.jobs[worker].keys[0]).value;
    if w.minted[row.id] != worker {
      DeletedRow(c, w, worker, row, path);
      RowStays(c, w, Removed(w, worker, tree), row);
    } else {
      OwnRowRemoved(c, w, worker, tree, row);
    }
  }

  lemma RemovedRows(c: Config, w: World, worker: nat, tree: Tree)
    requires CanRemove(c, w, worker, tree)
    ensures RowsStored(c, Removed(w, worker, tree))
  {
    hide Invariant, PathOf, RowStored, Settled, WellFormed, Names, NamesFormat;
    forall a | a in w.db.artifacts
      ensures RowStored(c, Removed(w, worker, tree), w.db.artifacts[a])
      ensures Settled(Removed(w, worker, tree), w.db.artifacts[a].id)
    {
      RowOf(c, w, a);
      RemovedRow(c, w, worker, tree, w.db.artifacts[a]);
    }
  }

  lemma RemovedStrays(c: Config, w: World, worker: nat, tree: Tree)
    requires CanRemove(c, w, worker, tree)
    ensures NoStrays(Removed(w, worker, tree))
  {
    hide Sound, WellFormed, PathOf, RowsStored, FilesKnown, JobsOk, Names, NamesFormat;
    var w' := Removed(w, worker, tree);
    forall p, i | p in w'.tree.files && i in w'.jobs && MadeBy(w', p, i)
      ensures p in w'.lost || exists n :: 0 <= n < |w'.jobs[i].keys| && PathOf(w'.jobs[i].keys[n]) == Ok(p)
    {
      assert MadeBy(w, p, i);
      if p !in w.lost {
        var n :| 0 <= n < |w.jobs[i].keys| && PathOf(w.jobs[i].keys[n]) == Ok(p);
        if i == worker {
          assert n > 0 && w'.jobs[i].keys[n - 1] == w.jobs[i].keys[n];
        }
      }
    }
  }

  /** Deleting the first recorded object of one job leaves every other recorded object in place. */
  lemma KeptKeys(w: World, w': World, worker: nat, i: nat, path: seq<string>)
    requires worker in w.jobs && w.jobs[worker].keys != [] && PathOf(w.jobs[worker].keys[0]) == Ok(path)
    requires MadeBy(w, path, worker)
    requires i in w.jobs && KeysStored(w, w.jobs[i].keys)
    requires forall n :: 0 <= n < |w.jobs[i].keys| ==> MadeBy(w, PathOf(w.jobs[i].keys[n]).value, i)
    requires w'.tree.files == w.tree.files - {path}
    ensures KeysStored(w', if i == worker then w.jobs[i].keys[1..] else w.jobs[i].keys)
  {
    hide PathOf, Names, NamesFormat, MadeBy;
    var keys := w.jobs[i].keys;
    forall n | 0 <= n < |keys| && (i == worker ==> n > 0)
      ensures PathOf(keys[n]).value != path
    {
      if i != worker && PathOf(keys[n]).value == path { MadeByOne(w, path, i, worker); }
    }
  }

  lemma RemovedJob(c: Config, w: World, w': World, worker: nat, i: nat, path: seq<string>)
    requires Invariant(c, w) && worker in w.jobs && i in w.jobs && JobOk(c, w, i)
    requires w.jobs[worker].phase.Compensating? && w.jobs[worker].keys != []
    requires MadeBy(w, path, worker) && PathOf(w.jobs[worker].keys[0]) == Ok(path)
    requires w'.jobs == w.jobs[worker := w.jobs[worker].(keys := w.jobs[worker].keys[1..])]
    requires w'.minted == w.minted && w'.started == w.started && w'.tree.files == w.tree.files - {path}
    ensures JobOk(c, w', i)
  {
    hide Invariant, PathOf, Names, NamesFormat;
    var job, job' := w.jobs[i], w'.jobs[i];
    forall n | 0 <= n < |job'.keys|
      ensures PathOf(job'.keys[n]).Ok? && MadeBy(w', PathOf(job'.keys[n]).value, i)
    {
      var m := if i == worker then n + 1 else n;
      assert job'.keys[n] == job.keys[m];
      assert MadeBy(w, PathOf(job.keys[m]).value, i);
    }
    if job.phase.Writing? {
      forall n | 0 <= n < |job.artifacts|
        ensures Held(c, w', i, n)
      {
        assert Held(c, w, i, n);
        DeletedRow(c, w, worker, job.artifacts[n], path);
      }
    }
    KeptKeys(w, w', worker, i, path);
  }

  lemma RemovedKeeps(c: Config, w: World, worker: nat, tree: Tree)
    requires CanRemove(c, w, worker, tree)
    ensures Invariant(c, Removed(w, worker, tree))
  {
    hide Sound, WellFormed, PathOf, RowsStored, NoStrays, Names, NamesFormat, JobOk, OnlyCompleted, CompletedHasPair;
    RemovedRows(c, w, worker, tree);
    RemovedStrays(c, w, worker, tree);
    KeyMade(c, w, worker, 0);
    var w' := Removed(w, worker, tree);
    var path := PathOf(w.jobs[worker].keys[0]).value;
    forall i | i in w'.jobs
      ensures JobOk(c, w', i)
    {
      RemovedJob(c, w, w', worker, i, path);
    }
    assert forall p :: Known(w, p) ==> Known(w', p);
    assert Known(w', path);
  }

  lemma DeleteKeeps(c: Config, w: World, worker: nat)
    requires Invariant(c, w)
    ensures Invariant(c, DeleteStep(w, worker))
  {
    hide Invariant, WellFormed, PathOf, Names, NamesFormat, JobOk;
    if worker in w.jobs && w.jobs[worker].phase.Compensating? && w.jobs[worker].keys != [] {
      JobOf(c, w, worker);
      KeyMade(c, w, worker, 0);
      var job := w.jobs[worker];
      var key := job.keys[0];
      var (tree', r) := Delete(w.tree, key);
      DeleteKeepsTree(w.tree, key);
      var path := PathOf(key).value;
      if r.Err? {
        DropKeeps(c, w, worker);
      } else {
        assert tree'.files == w.tree.files - {path};
        RemovedKeeps(c, w, worker, tree');
      }
    }
  }

  // ----- every step -----

  lemma StepKeeps(c: Config, w: World, a: Action)
    requires Invariant(c, w) && Allowed(w, a)
    ensures Invariant(c, Step(c, w, a))
  {
    hide Invariant, Exec, ClientEvent, Provenance.OwnInsert, BeginStep, EvaluateStep, PutStep, CommitStep, DeleteStep,
      FailRunStep;
    match a
    case Client(e) => TablesKeep(c, w, e);
    case Begin(worker, tenant, owner, now) => BeginKeeps(c, w, worker, tenant, owner, now);
    case Evaluate(worker, json, markdown, seen, at) => EvaluateKeeps(c, w, worker, json, markdown, seen, at);
    case PutNext(worker, id) => PutKeeps(c, w, worker, id, false);
    case PutLost(worker, id) => PutKeeps(c, w, worker, id, true);
    case Commit(worker, seen, at) => CommitKeeps(c, w, worker, seen, at);
    case Finish(worker) => DropKeeps(c, w, worker);
    case Fail(worker) =>
      if worker in w.jobs && !w.jobs[worker].phase.Compensating? { RaiseKeeps(c, w, worker); }
    case DeleteNext(worker) => DeleteKeeps(c, w, worker);
    case FailRun(worker, seen, at) => FailRunKeeps(c, w, worker, seen, at);
    case Crash(worker) => DropKeeps(c, w, worker);
  }

  lemma StartIsFine(c: Config)
    ensures Invariant(c, START)
  {}

  lemma {:induction false} InvariantAt(c: Config, actions: seq<Action>, i: nat)
    requires AllAllowed(c, actions) && i <= |actions|
    ensures Invariant(c, WorldAt(c, actions, i))
  {
    hide Step, Allowed, AllAllowed, Invariant;
    if i == 0 {
      StartIsFine(c);
    } else {
      InvariantAt(c, actions, i - 1);
      StepsAreAllowed(c, actions, i - 1);
      StepKeeps(c, WorldAt(c, actions, i - 1), actions[i - 1]);
    }
  }
}
