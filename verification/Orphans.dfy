/** Which stored objects have no artifact row, in every reachable world. */
module Orphans {
  import opened Outcome
  import opened Runs
  import opened Database
  import opened History
  import opened ArtifactStore
  import opened Worker
  import opened Journal
  import opened Publication
  import opened Objects
  import Revocation
  import RunTable
  import ProjectTable
  import ArtifactTable

  /** `id` is the row of the object at `path`. */
  predicate RowFor(db: Db, id: string, path: seq<string>)
  {
    id in db.artifacts && PathOf(db.artifacts[id].objectKey) == Ok(path)
  }

  predicate HasCommitted(job: Job)
  {
    job.phase.Committed? || job.phase == Compensating(true)
  }

  /** The call records the object at `path`. */
  predicate KeyRecorded(job: Job, path: seq<string>)
  {
    exists n :: 0 <= n < |job.keys| && PathOf(job.keys[n]) == Ok(path)
  }

  /** Worker `k` crashed at `m`, before any commit. */
  ghost predicate CrashesEarly(c: Config, actions: seq<Action>, m: nat, k: nat)
  {
    && m < |actions| && actions[m] == Crash(k)
    && k in WorldAt(c, actions, m).jobs && !HasCommitted(WorldAt(c, actions, m).jobs[k])
  }

  /** Action `d` deleted the project whose run had row `id` for the object at `path`, and that row with it. */
  ghost predicate DropsRow(c: Config, actions: seq<Action>, d: nat, id: string, path: seq<string>)
  {
    && d < |actions| && actions[d].Client? && actions[d].event.command.DeleteProject?
    && RowFor(WorldAt(c, actions, d).db, id, path) && id !in WorldAt(c, actions, d + 1).db.artifacts
    && var db := WorldAt(c, actions, d).db;
       db.artifacts[id].runId in db.runs
       && db.runs[db.artifacts[id].runId].projectId == actions[d].event.command.projectId
  }

  // ----- one step -----

  /** A row vanishes only with the project of its run. */
  lemma RowVanishes(db: Db, e: Event, id: string)
    requires Keyed(db) && id in db.artifacts
    ensures id in Exec(db, e).0.artifacts ==> Exec(db, e).0.artifacts[id].objectKey == db.artifacts[id].objectKey
    ensures id !in Exec(db, e).0.artifacts ==>
      e.command.DeleteProject? && db.artifacts[id].runId in db.runs
      && db.runs[db.artifacts[id].runId].projectId == e.command.projectId
  {
    UnfoldPublish(db, e);
    hide ArtifactTable.Publish, ArtifactTable.GetForRun, ProjectTable.ListProjects, RunTable.LookupRun;
  }

  lemma OnlyCommitsTouchRows(c: Config, w: World, a: Action)
    requires !a.Client? && !a.Commit?
    ensures Step(c, w, a).db.artifacts == w.db.artifacts
  {
    hide Exec, Put, PathOf, BuildArtifactKey, Delete, CommitStep;
  }

  lemma JobSize(c: Config, w: World, k: nat)
    requires Invariant(c, w) && k in w.jobs && w.jobs[k].phase.Writing?
    ensures |w.jobs[k].keys| == |w.jobs[k].artifacts|
  {
    hide Invariant, PathOf, Names, NamesFormat, Held, KeysStored;
    JobOf(c, w, k);
  }

  /** A commit adds the rows its call has put objects for, and changes no other row. */
  lemma CommitRows(c: Config, w: World, a: Action, id: string)
    requires Invariant(c, w) && a.Commit? && id in Step(c, w, a).db.artifacts
    ensures
      || (id in w.db.artifacts && Step(c, w, a).db.artifacts[id] == w.db.artifacts[id])
      || (a.worker in w.jobs && w.jobs[a.worker].phase.Writing?
          && exists n :: 0 <= n < |w.jobs[a.worker].keys|
                         && Step(c, w, a).db.artifacts[id].objectKey == w.jobs[a.worker].keys[n])
  {
    hide Invariant, Exec, ArtifactTable.Publish, PathOf, Names, NamesFormat;
    if a.worker in w.jobs && w.jobs[a.worker].phase.Writing? && |w.jobs[a.worker].artifacts| == 2 {
      var job := w.jobs[a.worker];
      ArtifactTable.PublishIsAtomic(w.db, job.tenant, job.artifacts[0], job.artifacts[1], job.claim, a.seen, a.at);
      JobSize(c, w, a.worker);
      HeldOf(c, w, a.worker, 0);
      HeldOf(c, w, a.worker, 1);
    }
  }

  lemma CommitKeepsRows(w: World, worker: nat, seen: RunStatus, at: int, id: string)
    requires id in w.db.artifacts
    ensures var w' := CommitStep(w, worker, seen, at);
      id in w'.db.artifacts && w'.db.artifacts[id].objectKey == w.db.artifacts[id].objectKey
  {
    hide ArtifactTable.Publish;
    if worker in w.jobs && w.jobs[worker].phase.Writing? && |w.jobs[worker].artifacts| == 2 {
      var job := w.jobs[worker];
      ArtifactTable.PublishIsAtomic(w.db, job.tenant, job.artifacts[0], job.artifacts[1], job.claim, seen, at);
    }
  }

  lemma WorkerKeepsRows(c: Config, w: World, a: Action, id: string)
    requires !a.Client? && id in w.db.artifacts
    ensures id in Step(c, w, a).db.artifacts
    ensures Step(c, w, a).db.artifacts[id].objectKey == w.db.artifacts[id].objectKey
  {
    hide Exec, BeginStep, EvaluateStep, PutStep, DeleteStep, FailRunStep, PathOf, ArtifactTable.Publish;
    if a.Commit? {
      CommitKeepsRows(w, a.worker, a.seen, a.at, id);
    } else {
      OnlyCommitsTouchRows(c, w, a);
    }
  }

  lemma TablesAreKeyed(c: Config, w: World)
    requires Invariant(c, w)
    ensures Keyed(w.db)
  {
    hide OnlyCompleted, CompletedHasPair, RowsStored, FilesKnown, JobsOk, NoStrays, Unique, TenantSound;
  }

  lemma BeginKeepsJobs(w: World, a: Action, k: nat)
    requires a.Begin? && k in w.jobs
    ensures k in BeginStep(w, a.worker, a.tenant, a.owner, a.now).jobs
  {
    hide RunTable.ClaimNext, RunTable.Transition;
  }

  lemma WritingKeepsJobs(c: Config, w: World, a: Action, k: nat)
    requires (a.PutNext? || a.PutLost? || a.Evaluate? || a.Commit?) && k in w.jobs
    ensures k in OwnStep(c, w, a).jobs
  {
    hide BeginStep, RunTable.TransitionUpdate, ArtifactTable.Publish, PathOf, BuildArtifactKey, Put, Delete;
  }

  /** A call ends by finishing, by failing its run after deleting everything, or by a crash. */
  lemma StepEnds(c: Config, w: World, a: Action, k: nat)
    requires Invariant(c, w) && k in w.jobs && k !in Step(c, w, a).jobs
    ensures
      || a == Crash(k)
      || (a == Finish(k) && w.jobs[k].phase.Committed?)
      || (a.FailRun? && a.worker == k && w.jobs[k].keys == [])
  {
    hide Invariant, Exec, BeginStep, PutStep, EvaluateStep, CommitStep, PathOf;
    match a
    case Begin(_, _, _, _) => BeginKeepsJobs(w, a, k);
    case DeleteNext(worker) =>
      if worker in w.jobs && w.jobs[worker].phase.Compensating? && w.jobs[worker].keys != [] {
        HandlerDeletes(c, w, worker);
      }
    case PutNext(_, _) => WritingKeepsJobs(c, w, a, k);
    case PutLost(_, _) => WritingKeepsJobs(c, w, a, k);
    case Evaluate(_, _, _, _, _) => WritingKeepsJobs(c, w, a, k);
    case Commit(_, _, _) => WritingKeepsJobs(c, w, a, k);
    case _ =>
  }

  /** A call that has committed had done so before, or commits now. */
  lemma CommittedBeforeOrNow(c: Config, w: World, a: Action, k: nat)
    requires k in Step(c, w, a).jobs && HasCommitted(Step(c, w, a).jobs[k])
    ensures k in w.jobs
    ensures HasCommitted(w.jobs[k]) ==>
      Step(c, w, a).jobs[k].keys == w.jobs[k].keys
      || (w.jobs[k].keys != [] && Step(c, w, a).jobs[k].keys == w.jobs[k].keys[1..])
    ensures !HasCommitted(w.jobs[k]) ==>
      a.Commit? && a.worker == k && w.jobs[k].phase.Writing? && |w.jobs[k].artifacts| == 2
      && Step(c, w, a).jobs[k].phase.Committed? && Step(c, w, a).jobs[k].keys == w.jobs[k].keys
  {
    hide Exec, RunTable.ClaimNext, RunTable.Transition, RunTable.TransitionUpdate, ArtifactTable.Publish, Put, PathOf,
      BuildArtifactKey, Delete;
  }

  lemma CommitPublishes(c: Config, w: World, a: Action, n: nat)
    requires Invariant(c, w) && a.Commit? && a.worker in w.jobs && w.jobs[a.worker].phase.Writing?
    requires |w.jobs[a.worker].artifacts| == 2 && n < 2
    requires a.worker in Step(c, w, a).jobs && Step(c, w, a).jobs[a.worker].phase.Committed?
    ensures var row := w.jobs[a.worker].artifacts[n];
      && row.id in Step(c, w, a).db.artifacts && Step(c, w, a).db.artifacts[row.id] == row
      && |w.jobs[a.worker].keys| == 2 && row.objectKey == w.jobs[a.worker].keys[n]
  {
    hide Invariant, Exec, ArtifactTable.Publish, PathOf, Names, NamesFormat;
    var job := w.jobs[a.worker];
    ArtifactTable.PublishIsAtomic(w.db, job.tenant, job.artifacts[0], job.artifacts[1], job.claim, a.seen, a.at);
    HeldOf(c, w, a.worker, 0);
    HeldOf(c, w, a.worker, 1);
  }

  /** A call that has committed and still records an object recorded it before, or publishes its row now. */
  lemma StepCommitted(c: Config, w: World, a: Action, k: nat, path: seq<string>)
    requires Invariant(c, w) && k in Step(c, w, a).jobs && HasCommitted(Step(c, w, a).jobs[k])
    requires KeyRecorded(Step(c, w, a).jobs[k], path)
    ensures k in w.jobs
    ensures HasCommitted(w.jobs[k]) ==> KeyRecorded(w.jobs[k], path)
    ensures !HasCommitted(w.jobs[k]) ==> exists id :: RowFor(Step(c, w, a).db, id, path)
  {
    hide Invariant, Step, PathOf, HasCommitted;
    CommittedBeforeOrNow(c, w, a, k);
    var n :| 0 <= n < |Step(c, w, a).jobs[k].keys| && PathOf(Step(c, w, a).jobs[k].keys[n]) == Ok(path);
    if !HasCommitted(w.jobs[k]) {
      JobSize(c, w, k);
      CommitPublishes(c, w, a, n);
      assert RowFor(Step(c, w, a).db, w.jobs[k].artifacts[n].id, path);
    } else if Step(c, w, a).jobs[k].keys != w.jobs[k].keys {
      assert PathOf(w.jobs[k].keys[n + 1]) == Ok(path);
    }
  }

  lemma LostStays(c: Config, w: World, a: Action)
    ensures w.lost <= Step(c, w, a).lost
  {
    hide Exec, RunTable.ClaimNext, RunTable.Transition, RunTable.TransitionUpdate, ArtifactTable.Publish, Put, PathOf,
      BuildArtifactKey, Delete;
  }

  // ----- whole runs -----

  lemma {:induction false} LostGrows(c: Config, actions: seq<Action>, i: nat, j: nat)
    requires i <= j <= |actions|
    ensures WorldAt(c, actions, i).lost <= WorldAt(c, actions, j).lost
    decreases j
  {
    hide Step;
    if i < j {
      LostGrows(c, actions, i, j - 1);
      LostStays(c, WorldAt(c, actions, j - 1), actions[j - 1]);
    }
  }

  /** An object that a committed call records had its row published. */
  lemma {:induction false} RowWasPublished(c: Config, actions: seq<Action>, i: nat, k: nat, path: seq<string>)
    returns (q: nat, id: string)
    requires AllAllowed(c, actions) && i <= |actions| && k in WorldAt(c, actions, i).jobs
    requires HasCommitted(WorldAt(c, actions, i).jobs[k]) && KeyRecorded(WorldAt(c, actions, i).jobs[k], path)
    ensures q <= i && RowFor(WorldAt(c, actions, q).db, id, path)
    decreases i
  {
    hide Step, Invariant, AllAllowed, WorldAt, HasCommitted, KeyRecorded, RowFor;
    if i == 0 {
      NothingAtStart(c, actions);
      assert false;
    } else {
      var w, a := WorldAt(c, actions, i - 1), actions[i - 1];
      WorldNext(c, actions, i - 1);
      StepCommitted(c, w, a, k, path);
      if HasCommitted(w.jobs[k]) {
        q, id := RowWasPublished(c, actions, i - 1, k, path);
      } else {
        q := i;
        id :| RowFor(WorldAt(c, actions, i).db, id, path);
      }
    }
  }

  lemma ClientStep(c: Config, w: World, a: Action)
    requires a.Client?
    ensures Step(c, w, a).db == Exec(w.db, a.event).0
  {
    hide Exec;
  }

  /** A published row is still there, or its project was deleted. */
  lemma {:induction false} RowStaysOrDrops(c: Config, actions: seq<Action>, q: nat, i: nat, id: string,
                                           path: seq<string>)
    requires AllAllowed(c, actions) && q <= i <= |actions| && RowFor(WorldAt(c, actions, q).db, id, path)
    ensures RowFor(WorldAt(c, actions, i).db, id, path) || exists d: nat :: d < i && DropsRow(c, actions, d, id, path)
    decreases i
  {
    hide Step, Exec, Invariant, AllAllowed, WorldAt, PathOf;
    if q < i {
      RowStaysOrDrops(c, actions, q, i - 1, id, path);
      var w, a := WorldAt(c, actions, i - 1), actions[i - 1];
      WorldNext(c, actions, i - 1);
      if RowFor(w.db, id, path) {
        if a.Client? {
          TablesAreKeyed(c, w);
          RowVanishes(w.db, a.event, id);
          ClientStep(c, w, a);
          assert id in WorldAt(c, actions, i).db.artifacts ==> RowFor(WorldAt(c, actions, i).db, id, path);
          assert !RowFor(WorldAt(c, actions, i).db, id, path) ==> DropsRow(c, actions, i - 1, id, path);
        } else {
          WorkerKeepsRows(c, w, a, id);
        }
      }
    }
  }

  /** A call that is over ended at some step. */
  lemma {:induction false} EndedAt(c: Config, actions: seq<Action>, m: nat, i: nat, k: nat) returns (e: nat)
    requires m <= i <= |actions| && k in WorldAt(c, actions, m).jobs && k !in WorldAt(c, actions, i).jobs
    ensures m <= e < i && k in WorldAt(c, actions, e).jobs && k !in WorldAt(c, actions, e + 1).jobs
    decreases i
  {
    hide Step;
    if k in WorldAt(c, actions, i - 1).jobs {
      e := i - 1;
    } else {
      e := EndedAt(c, actions, m, i - 1, k);
    }
  }

  /** Why the object at `path`, made by worker `k`, has no row. */
  ghost predicate Orphaned(c: Config, actions: seq<Action>, i: nat, k: nat, path: seq<string>)
    requires i <= |actions|
  {
    var w := WorldAt(c, actions, i);
    || path in w.lost                                                    // its put raised after storing it
    || (k in w.jobs && !HasCommitted(w.jobs[k]))                         // its call has not committed yet
    || (exists m: nat :: m < i && CrashesEarly(c, actions, m, k))        // its call crashed before committing
    || (exists d: nat, id :: d < i && DropsRow(c, actions, d, id, path)) // its project was deleted since
  }

  /** An object of a call that has committed has its row, unless the project was deleted or its put had raised. */
  lemma CommittedHasRow(c: Config, actions: seq<Action>, e: nat, i: nat, k: nat, path: seq<string>)
    requires AllAllowed(c, actions) && e <= i <= |actions| && k in WorldAt(c, actions, e).jobs
    requires HasCommitted(WorldAt(c, actions, e).jobs[k])
    requires path in WorldAt(c, actions, e).tree.files && MadeBy(WorldAt(c, actions, e), path, k)
    ensures (exists id :: RowFor(WorldAt(c, actions, i).db, id, path)) || Orphaned(c, actions, i, k, path)
  {
    hide Step, AllAllowed, WorldAt, HasCommitted, RowFor, MadeBy, DropsRow, CrashesEarly, Sound, OnlyCompleted,
      CompletedHasPair, RowsStored, FilesKnown, JobsOk;
    InvariantAt(c, actions, e);
    LostGrows(c, actions, e, i);
    if path !in WorldAt(c, actions, e).lost {
      assert KeyRecorded(WorldAt(c, actions, e).jobs[k], path);
      var q, id := RowWasPublished(c, actions, e, k, path);
      RowStaysOrDrops(c, actions, q, i, id, path);
    }
  }

  /** The put that made an object leaves its call running, as the maker. */
  lemma PutterGoesOn(c: Config, actions: seq<Action>, m: nat, path: seq<string>, data: Bytes)
    requires AllAllowed(c, actions) && m < |actions| && PutsNow(WorldAt(c, actions, m), actions[m], path, data)
    ensures actions[m].worker in WorldAt(c, actions, m + 1).jobs
    ensures MadeBy(WorldAt(c, actions, m + 1), path, actions[m].worker)
  {
    hide Invariant, AllAllowed, WorldAt, Names, NamesFormat, Exec, BeginStep, RunTable.TransitionUpdate,
      ArtifactTable.Publish, PathOf, BuildArtifactKey, Put, Delete;
    WorldNext(c, actions, m);
    var w, a := WorldAt(c, actions, m), actions[m];
    WritingKeepsJobs(c, w, a, a.worker);
    FormatNames(path, a.artifactId, FORMATS[|w.jobs[a.worker].artifacts|]);
    assert a.artifactId in Step(c, w, a).minted && Step(c, w, a).minted[a.artifactId] == a.worker;
  }

  lemma EmptyHandedIsLost(c: Config, w: World, k: nat, path: seq<string>)
    requires Invariant(c, w) && k in w.jobs && w.jobs[k].keys == []
    requires path in w.tree.files && MadeBy(w, path, k)
    ensures path in w.lost
  {
    hide Sound, OnlyCompleted, CompletedHasPair, RowsStored, FilesKnown, JobsOk, MadeBy;
  }

  // ----- the converse: each of these leaves no row -----

  /** A row that a step adds is that of an object its call, which has not committed, has recorded. */
  lemma NewRow(c: Config, w: World, a: Action, id: string, path: seq<string>)
    requires Invariant(c, w) && (a.Client? ==> ClientEvent(a.event))
    requires RowFor(Step(c, w, a).db, id, path) && !RowFor(w.db, id, path)
    ensures a.Commit? && a.worker in w.jobs && !HasCommitted(w.jobs[a.worker]) && KeyRecorded(w.jobs[a.worker], path)
  {
    hide Invariant, Step, PathOf, Exec;
    match a
    case Client(e) =>
      TablesAreKeyed(c, w);
      ClientStep(c, w, a);
      ClientAddsNoReports(w.db, e);
      assert false;
    case Commit(worker, _, _) => CommitRows(c, w, a, id);
    case _ =>
      OnlyCommitsTouchRows(c, w, a);
      assert false;
  }

  lemma RecordedIsOwn(c: Config, w: World, k: nat, path: seq<string>)
    requires Invariant(c, w) && k in w.jobs && KeyRecorded(w.jobs[k], path)
    ensures MadeBy(w, path, k) && path in w.tree.files
  {
    hide Invariant, PathOf, MadeBy;
    var n :| 0 <= n < |w.jobs[k].keys| && PathOf(w.jobs[k].keys[n]) == Ok(path);
    JobOf(c, w, k);
    KeyMade(c, w, k, n);
  }

  /** The maker of an object with a row has committed or is gone. */
  lemma RowOfMaker(c: Config, w: World, id: string, path: seq<string>) returns (k: nat)
    requires Invariant(c, w) && RowFor(w.db, id, path)
    ensures MadeBy(w, path, k) && k in w.started && (k in w.jobs ==> HasCommitted(w.jobs[k]))
  {
    hide Sound, OnlyCompleted, CompletedHasPair, FilesKnown, NoStrays, PathOf, Names, NamesFormat, JobOk;
    RowOf(c, w, id);
    k := w.minted[w.db.artifacts[id].id];
  }

  /** Call `k` is over, or past its commit. */
  predicate PastCommit(w: World, k: nat)
  {
    k in w.started && (k in w.jobs ==> HasCommitted(w.jobs[k]))
  }

  lemma PastCommitStays(c: Config, w: World, a: Action, k: nat)
    requires PastCommit(w, k)
    ensures PastCommit(Step(c, w, a), k)
  {
    hide Exec, RunTable.ClaimNext, RunTable.Transition, RunTable.TransitionUpdate, ArtifactTable.Publish, Put, PathOf,
      BuildArtifactKey, Delete;
  }

  lemma NotPast(w: World, k: nat)
    requires k in w.jobs && !HasCommitted(w.jobs[k])
    ensures !PastCommit(w, k)
  {}

  /** Once its maker is past its commit, an object without a row never gets one. */
  lemma {:induction false} NeverAgain(c: Config, actions: seq<Action>, j: nat, i: nat, k: nat, path: seq<string>)
    requires AllAllowed(c, actions) && j <= i <= |actions| && MadeBy(WorldAt(c, actions, i), path, k)
    requires PastCommit(WorldAt(c, actions, j), k) && forall id :: !RowFor(WorldAt(c, actions, j).db, id, path)
    ensures forall id :: !RowFor(WorldAt(c, actions, i).db, id, path)
    decreases i - j
  {
    hide Step, Invariant, WorldAt, Admissible, RowFor, MadeBy, PastCommit, KeyRecorded;
    if j < i {
      var w, a := WorldAt(c, actions, j), actions[j];
      var next := Step(c, w, a).db;
      WorldNext(c, actions, j);
      PastCommitStays(c, w, a, k);
      forall id
        ensures !RowFor(next, id, path)
      {
        if RowFor(next, id, path) {
          NewRow(c, w, a, id, path);
          RecordedIsOwn(c, w, a.worker, path);
          Revocation.MakerStays(c, actions, j, i, path, a.worker);
          MadeByOne(WorldAt(c, actions, i), path, a.worker, k);
          NotPast(w, k);
          assert false;
        }
      }
      NeverAgain(c, actions, j + 1, i, k, path);
    }
  }

  /** A lost object is stored, has no row, and is recorded by no call. */
  ghost predicate LostApart(w: World)
  {
    forall p :: p in w.lost ==>
      && p in w.tree.files
      && (forall id :: !RowFor(w.db, id, p))
      && (forall k :: k in w.jobs ==> !KeyRecorded(w.jobs[k], p))
  }

  /** A step records no stored object that was not recorded before. */
  lemma KeysGrow(c: Config, w: World, a: Action, k: nat, path: seq<string>)
    requires Invariant(c, w) && k in Step(c, w, a).jobs && KeyRecorded(Step(c, w, a).jobs[k], path)
    ensures (k in w.jobs && KeyRecorded(w.jobs[k], path)) || (a.PutNext? && path !in w.tree.files)
  {
    hide Invariant, Exec, PathOf, BuildArtifactKey, Names, NamesFormat, HasCommitted;
  }

  /** An object is lost when it is stored under the name of a fresh artifact. */
  lemma NewLost(c: Config, w: World, a: Action, path: seq<string>)
    requires Invariant(c, w) && path in Step(c, w, a).lost && path !in w.lost
    ensures a.PutLost? && path in Step(c, w, a).tree.files && path !in w.tree.files
    ensures Step(c, w, a).db == w.db && a.artifactId !in w.minted && Names(path, a.artifactId)
  {
    hide Invariant, Exec, PathOf, BuildArtifactKey, Names, NamesFormat, HasCommitted;
    StepFiles(c, w, a, path);
    FormatNames(path, a.artifactId, FORMATS[|w.jobs[a.worker].artifacts|]);
  }

  lemma OldLost(c: Config, w: World, a: Action, p: seq<string>)
    requires Invariant(c, w) && LostApart(w) && p in w.lost && (a.Client? ==> ClientEvent(a.event))
    ensures p in Step(c, w, a).tree.files
    ensures forall id :: !RowFor(Step(c, w, a).db, id, p)
    ensures forall k :: k in Step(c, w, a).jobs ==> !KeyRecorded(Step(c, w, a).jobs[k], p)
  {
    hide Invariant, Step, PathOf, RowFor, HasCommitted;
    StepFiles(c, w, a, p);
    forall id
      ensures !RowFor(Step(c, w, a).db, id, p)
    {
      if RowFor(Step(c, w, a).db, id, p) { NewRow(c, w, a, id, p); }
    }
    forall k | k in Step(c, w, a).jobs
      ensures !KeyRecorded(Step(c, w, a).jobs[k], p)
    {
      if KeyRecorded(Step(c, w, a).jobs[k], p) { KeysGrow(c, w, a, k, p); }
    }
  }

  lemma NewLostApart(c: Config, w: World, a: Action, p: seq<string>)
    requires Invariant(c, w) && p in Step(c, w, a).lost && p !in w.lost
    ensures p in Step(c, w, a).tree.files
    ensures forall id :: !RowFor(Step(c, w, a).db, id, p)
    ensures forall k :: k in Step(c, w, a).jobs ==> !KeyRecorded(Step(c, w, a).jobs[k], p)
  {
    hide Invariant, Step, PathOf, Names, NamesFormat, HasCommitted, KeyRecorded;
    NewLost(c, w, a, p);
    forall id
      ensures !RowFor(Step(c, w, a).db, id, p)
    {
      if RowFor(w.db, id, p) {
        RowOf(c, w, id);
        NamesOne(p, w.db.artifacts[id].id, a.artifactId);
      }
    }
    forall k | k in Step(c, w, a).jobs
      ensures !KeyRecorded(Step(c, w, a).jobs[k], p)
    {
      if KeyRecorded(Step(c, w, a).jobs[k], p) {
        KeysGrow(c, w, a, k, p);
        RecordedIsOwn(c, w, k, p);
      }
    }
  }

  lemma LostStaysApart(c: Config, w: World, a: Action)
    requires Invariant(c, w) && LostApart(w) && (a.Client? ==> ClientEvent(a.event))
    ensures LostApart(Step(c, w, a))
  {
    hide Invariant, Step, PathOf, Names, NamesFormat, RowFor, KeyRecorded;
    var w' := Step(c, w, a);
    forall p | p in w'.lost
      ensures p in w'.tree.files
      ensures forall id :: !RowFor(w'.db, id, p)
      ensures forall k :: k in w'.jobs ==> !KeyRecorded(w'.jobs[k], p)
    {
      if p in w.lost {
        OldLost(c, w, a, p);
      } else {
        NewLostApart(c, w, a, p);
      }
    }
  }

  lemma {:induction false} LostApartAt(c: Config, actions: seq<Action>, i: nat)
    requires AllAllowed(c, actions) && i <= |actions|
    ensures LostApart(WorldAt(c, actions, i))
  {
    hide Step, Invariant, WorldAt, Admissible, RowFor, KeyRecorded;
    if i == 0 {
      NothingAtStart(c, actions);
    } else {
      LostApartAt(c, actions, i - 1);
      WorldNext(c, actions, i - 1);
      LostStaysApart(c, WorldAt(c, actions, i - 1), actions[i - 1]);
    }
  }

  /** Objects of a call that has not committed have no rows. */
  lemma UncommittedHasNoRow(c: Config, w: World, k: nat, path: seq<string>)
    requires Invariant(c, w) && k in w.jobs && !HasCommitted(w.jobs[k]) && MadeBy(w, path, k)
    ensures forall id :: !RowFor(w.db, id, path)
  {
    hide Invariant, RowFor, MadeBy, HasCommitted;
    forall id
      ensures !RowFor(w.db, id, path)
    {
      if RowFor(w.db, id, path) {
        var maker := RowOfMaker(c, w, id, path);
        MadeByOne(w, path, maker, k);
      }
    }
  }

  lemma CrashedHasNoRow(c: Config, actions: seq<Action>, m: nat, i: nat, k: nat, path: seq<string>)
    requires AllAllowed(c, actions) && m < i <= |actions| && CrashesEarly(c, actions, m, k)
    requires MadeBy(WorldAt(c, actions, i), path, k)
    ensures forall id :: !RowFor(WorldAt(c, actions, i).db, id, path)
  {
    hide AllAllowed, WorldAt, RowFor, MadeBy, HasCommitted, Invariant;
    var w, next := WorldAt(c, actions, m), WorldAt(c, actions, m + 1);
    WorldNext(c, actions, m);
    assert next == Drop(w, k) && PastCommit(next, k);
    forall id
      ensures !RowFor(next.db, id, path)
    {
      if RowFor(w.db, id, path) {
        var maker := RowOfMaker(c, w, id, path);
        Revocation.MakerStays(c, actions, m, i, path, maker);
        MadeByOne(WorldAt(c, actions, i), path, maker, k);
      }
    }
    NeverAgain(c, actions, m + 1, i, k, path);
  }

  /** An object has one row. */
  lemma OneRow(c: Config, w: World, x: string, y: string, path: seq<string>)
    requires Invariant(c, w) && RowFor(w.db, x, path) && RowFor(w.db, y, path)
    ensures x == y
  {
    hide Sound, OnlyCompleted, CompletedHasPair, FilesKnown, JobsOk, NoStrays, PathOf, Names, NamesFormat;
    RowOf(c, w, x);
    RowOf(c, w, y);
    NamesOne(path, w.db.artifacts[x].id, w.db.artifacts[y].id);
    TablesAreKeyed(c, w);
  }

  lemma DroppedHasNoRow(c: Config, actions: seq<Action>, d: nat, i: nat, id: string, k: nat, path: seq<string>)
    requires AllAllowed(c, actions) && d < i <= |actions| && DropsRow(c, actions, d, id, path)
    requires MadeBy(WorldAt(c, actions, i), path, k)
    ensures forall other :: !RowFor(WorldAt(c, actions, i).db, other, path)
  {
    hide AllAllowed, WorldAt, PathOf, MadeBy, HasCommitted, Invariant, Step;
    var w, a := WorldAt(c, actions, d), actions[d];
    var next := Step(c, w, a);
    WorldNext(c, actions, d);
    InvariantAt(c, actions, d);
    var maker := RowOfMaker(c, w, id, path);
    Revocation.MakerStays(c, actions, d, i, path, maker);
    MadeByOne(WorldAt(c, actions, i), path, maker, k);
    PastCommitStays(c, w, a, k);
    forall other
      ensures !RowFor(next.db, other, path)
    {
      if RowFor(next.db, other, path) {
        if RowFor(w.db, other, path) {
          OneRow(c, w, id, other, path);
          assert false;
        }
        NewRow(c, w, a, other, path);
        assert false;
      }
    }
    NeverAgain(c, actions, d + 1, i, k, path);
  }

  /** Each reason leaves the object without a row. */
  lemma OrphanedHasNoRow(c: Config, actions: seq<Action>, i: nat, k: nat, path: seq<string>)
    requires AllAllowed(c, actions) && i <= |actions|
    requires MadeBy(WorldAt(c, actions, i), path, k) && Orphaned(c, actions, i, k, path)
    ensures forall id :: !RowFor(WorldAt(c, actions, i).db, id, path)
  {
    hide Step, AllAllowed, WorldAt, RowFor, MadeBy, DropsRow, CrashesEarly, Invariant, HasCommitted;
    InvariantAt(c, actions, i);
    LostApartAt(c, actions, i);
    var w := WorldAt(c, actions, i);
    if path in w.lost {
    } else if k in w.jobs && !HasCommitted(w.jobs[k]) {
      UncommittedHasNoRow(c, w, k, path);
    } else if m: nat :| m < i && CrashesEarly(c, actions, m, k) {
      CrashedHasNoRow(c, actions, m, i, k, path);
    } else if d: nat, id :| d < i && DropsRow(c, actions, d, id, path) {
      DroppedHasNoRow(c, actions, d, i, id, k, path);
    }
  }

  // ----- both directions -----

  lemma RowlessIsOrphaned(c: Config, actions: seq<Action>, i: nat, path: seq<string>) returns (k: nat)
    requires AllAllowed(c, actions) && i <= |actions| && path in WorldAt(c, actions, i).tree.files
    requires forall id :: !RowFor(WorldAt(c, actions, i).db, id, path)
    ensures MadeBy(WorldAt(c, actions, i), path, k) && Orphaned(c, actions, i, k, path)
  {
    hide Step, Invariant, AllAllowed, WorldAt, RowFor, MadeBy, DropsRow, NamesFormat, PathOf;
    var m := ObjectsWerePut(c, actions, i, path);
    k := actions[m].worker;
    PutterGoesOn(c, actions, m, path, WorldAt(c, actions, i).tree.files[path]);
    Revocation.MakerStays(c, actions, m + 1, i, path, k);
    if k in WorldAt(c, actions, i).jobs {
      if HasCommitted(WorldAt(c, actions, i).jobs[k]) { CommittedHasRow(c, actions, i, i, k, path); }
    } else {
      var e := EndedAt(c, actions, m + 1, i, k);
      WorldNext(c, actions, e);
      StepEnds(c, WorldAt(c, actions, e), actions[e], k);
      Revocation.MakerStays(c, actions, m + 1, e, path, k);
      if HasCommitted(WorldAt(c, actions, e).jobs[k]) {
        CommittedHasRow(c, actions, e, i, k, path);
      } else if actions[e] == Crash(k) {
        assert CrashesEarly(c, actions, e, k);
      } else {
        EmptyHandedIsLost(c, WorldAt(c, actions, e), k, path);
        LostGrows(c, actions, e, i);
      }
    }
  }

  /** Every stored object has a maker. */
  lemma MakerOf(c: Config, actions: seq<Action>, i: nat, path: seq<string>) returns (k: nat)
    requires AllAllowed(c, actions) && i <= |actions| && path in WorldAt(c, actions, i).tree.files
    ensures MadeBy(WorldAt(c, actions, i), path, k)
  {
    hide Step, AllAllowed, WorldAt, Sound, OnlyCompleted, CompletedHasPair, RowsStored, JobsOk, NoStrays, Names;
    InvariantAt(c, actions, i);
    var id :| id in WorldAt(c, actions, i).minted && Names(path, id);
    k := WorldAt(c, actions, i).minted[id];
  }

  /**
   A stored object has no row exactly when its put raised after storing it, or its call has not committed yet
   or crashed before it did, or its row went with its project. In particular a handler that runs to its end
   leaves no object without a row but a lost one.
   */
  lemma ObjectsWithoutRow(c: Config, actions: seq<Action>, i: nat, path: seq<string>) returns (k: nat)
    requires AllAllowed(c, actions) && i <= |actions| && path in WorldAt(c, actions, i).tree.files
    ensures MadeBy(WorldAt(c, actions, i), path, k)
    ensures (forall id :: !RowFor(WorldAt(c, actions, i).db, id, path)) <==> Orphaned(c, actions, i, k, path)
  {
    hide Step, Invariant, AllAllowed, WorldAt, RowFor, MadeBy, Orphaned;
    k := MakerOf(c, actions, i, path);
    if forall id :: !RowFor(WorldAt(c, actions, i).db, id, path) {
      var maker := RowlessIsOrphaned(c, actions, i, path);
      MadeByOne(WorldAt(c, actions, i), path, k, maker);
    } else if Orphaned(c, actions, i, k, path) {
      OrphanedHasNoRow(c, actions, i, k, path);
    }
  }
}
