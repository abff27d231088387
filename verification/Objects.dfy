/**
 The life of a stored object: one put made it, nothing replaces it, and only the handler of the call
 that made it deletes it. A published report therefore stays as it was put, even without its row.
 */
module Objects {
  import opened Outcome
  import opened Database
  import opened History
  import opened ArtifactStore
  import opened Worker
  import opened Journal
  import opened Publication
  import RunTable
  import ArtifactTable

  // ----- one step -----

  /** Action `a` puts `data`, the report of a fresh artifact, at `path`. */
  predicate PutsNow(w: World, a: Action, path: seq<string>, data: Bytes)
  {
    && (a.PutNext? || a.PutLost?) && a.artifactId !in w.minted
    && a.worker in w.jobs && w.jobs[a.worker].phase.Writing? && |w.jobs[a.worker].artifacts| < 2
    && NamesFormat(path, a.artifactId, FORMATS[|w.jobs[a.worker].artifacts|])
    && data == NextPayload(w.jobs[a.worker])
  }

  /** Worker `k`, in its handler, is about to delete the object at `path`. */
  predicate DeletesNow(w: World, k: nat, path: seq<string>)
  {
    && k in w.jobs && w.jobs[k].phase.Compensating?
    && w.jobs[k].keys != [] && PathOf(w.jobs[k].keys[0]) == Ok(path)
  }

  lemma BuiltKeyNamesFormat(tenant: string, run: string, id: string, format: string)
    requires format in FORMATS
    requires BuildArtifactKey(tenant, run, id, format).Ok?
    requires PathOf(BuildArtifactKey(tenant, run, id, format).value).Ok?
    ensures NamesFormat(PathOf(BuildArtifactKey(tenant, run, id, format).value).value, id, format)
  {
    hide PathOf, FileName;
    PathNamesItsArtifact(tenant, run, id, format);
  }

  lemma PutFiles(c: Config, w: World, a: Action, path: seq<string>)
    requires Invariant(c, w) && (a.PutNext? || a.PutLost?)
    ensures var w' := PutStep(c, w, a.worker, a.artifactId, a.PutLost?);
      && (path in w.tree.files ==> path in w'.tree.files && w'.tree.files[path] == w.tree.files[path])
      && (path in w'.tree.files && path !in w.tree.files ==> PutsNow(w, a, path, w'.tree.files[path]))
  {
    hide Invariant, PathOf, WellFormed, JobOk, Names, NamesFormat, BuildArtifactKey;
    var id := a.artifactId;
    if a.worker in w.jobs && w.jobs[a.worker].phase.Writing? && |w.jobs[a.worker].artifacts| < 2 && id !in w.minted {
      JobOf(c, w, a.worker);
      var job := w.jobs[a.worker];
      var built := BuildArtifactKey(job.tenant, job.claim.run.id, id, FORMATS[|job.artifacts|]);
      if built.Ok? {
        PutAddsOneFile(w.tree, c.maxBytes, c.sha256, built.value, NextPayload(job));
        if PathOf(built.value).Ok? {
          BuiltKeyNamesFormat(job.tenant, job.claim.run.id, id, FORMATS[|job.artifacts|]);
        }
      }
    }
  }

  lemma DeleteFiles(c: Config, w: World, worker: nat, path: seq<string>)
    requires Invariant(c, w)
    ensures var w' := DeleteStep(w, worker);
      && (path in w'.tree.files ==> path in w.tree.files && w'.tree.files[path] == w.tree.files[path])
      && (path in w.tree.files && path !in w'.tree.files ==> DeletesNow(w, worker, path))
  {
    hide Invariant, PathOf, Names, JobOk, WellFormed;
    if worker in w.jobs && w.jobs[worker].keys != [] {
      JobOf(c, w, worker);
      KeyMade(c, w, worker, 0);
    }
  }

  /** An object appears by a put of its report, disappears by its handler's delete, and is never replaced. */
  lemma StepFiles(c: Config, w: World, a: Action, path: seq<string>)
    requires Invariant(c, w)
    ensures var w' := Step(c, w, a);
      && (path in w'.tree.files && path !in w.tree.files ==> PutsNow(w, a, path, w'.tree.files[path]))
      && (path in w.tree.files && path !in w'.tree.files ==> a.DeleteNext? && DeletesNow(w, a.worker, path))
      && (path in w.tree.files && path in w'.tree.files ==> w'.tree.files[path] == w.tree.files[path])
  {
    hide Invariant, Exec, RunTable.ClaimNext, RunTable.Transition, RunTable.TransitionUpdate, ArtifactTable.Publish,
      PutStep, DeleteStep, PathOf, DeletesNow, PutsNow;
    match a
    case PutNext(_, _) => PutFiles(c, w, a, path);
    case PutLost(_, _) => PutFiles(c, w, a, path);
    case DeleteNext(worker) => DeleteFiles(c, w, worker, path);
    case _ =>
  }

  // ----- whole runs -----

  lemma WorldNext(c: Config, actions: seq<Action>, i: nat)
    requires AllAllowed(c, actions) && i < |actions|
    ensures WorldAt(c, actions, i + 1) == Step(c, WorldAt(c, actions, i), actions[i])
    ensures Invariant(c, WorldAt(c, actions, i)) && Invariant(c, WorldAt(c, actions, i + 1))
    ensures forall k :: k in WorldAt(c, actions, i).jobs ==> k in WorldAt(c, actions, i).started
  {
    hide Step, Invariant, AllAllowed;
    InvariantAt(c, actions, i);
    InvariantAt(c, actions, i + 1);
    forall k | k in WorldAt(c, actions, i).jobs
      ensures k in WorldAt(c, actions, i).started
    {
      JobOf(c, WorldAt(c, actions, i), k);
    }
  }

  lemma NothingAtStart(c: Config, actions: seq<Action>)
    ensures WorldAt(c, actions, 0) == START
  {}

  /** From action `m` on, `path` holds `data`. */
  ghost predicate HoldsFrom(c: Config, actions: seq<Action>, m: nat, i: nat, path: seq<string>, data: Bytes)
    requires i <= |actions|
  {
    forall j: nat :: m < j <= i ==>
      path in WorldAt(c, actions, j).tree.files && WorldAt(c, actions, j).tree.files[path] == data
  }

  /** Every object is what one put stored, and has been there unchanged since. */
  lemma {:induction false} ObjectsWerePut(c: Config, actions: seq<Action>, i: nat, path: seq<string>) returns (m: nat)
    requires AllAllowed(c, actions) && i <= |actions| && path in WorldAt(c, actions, i).tree.files
    ensures m < i
    ensures PutsNow(WorldAt(c, actions, m), actions[m], path, WorldAt(c, actions, i).tree.files[path])
    ensures HoldsFrom(c, actions, m, i, path, WorldAt(c, actions, i).tree.files[path])
    decreases i
  {
    hide Step, Invariant, AllAllowed, WorldAt, PutsNow, DeletesNow;
    if i == 0 {
      NothingAtStart(c, actions);
      assert false;
    } else {
      WorldNext(c, actions, i - 1);
      StepFiles(c, WorldAt(c, actions, i - 1), actions[i - 1], path);
      if path in WorldAt(c, actions, i - 1).tree.files {
        m := ObjectsWerePut(c, actions, i - 1, path);
      } else {
        m := i - 1;
      }
    }
  }

  // ----- published reports -----

  lemma MakerStarted(c: Config, w: World, row: Artifact)
    requires Invariant(c, w) && RowStored(c, w, row)
    ensures PathOf(row.objectKey).Ok? && row.id in w.minted && w.minted[row.id] in w.started
    ensures Names(PathOf(row.objectKey).value, row.id)
  {
    hide Sound, OnlyCompleted, CompletedHasPair, RowsStored, FilesKnown, NoStrays, PathOf, Names, NamesFormat;
  }

  lemma OtherKeepsStored(c: Config, w: World, a: Action, row: Artifact)
    requires Invariant(c, w) && RowStored(c, w, row) && Settled(w, row.id)
    requires !a.PutNext? && !a.PutLost? && !a.DeleteNext?
    ensures RowStored(c, Step(c, w, a), row) && Settled(Step(c, w, a), row.id)
  {
    hide Invariant, Exec, RunTable.ClaimNext, RunTable.Transition, RunTable.TransitionUpdate, ArtifactTable.Publish,
      RowStored, PathOf, Names, Settled;
    MakerStarted(c, w, row);
    RowStays(c, w, Step(c, w, a), row);
  }

  lemma FormatNames(path: seq<string>, id: string, format: string)
    requires NamesFormat(path, id, format)
    ensures Names(path, id)
  {}

  lemma PutKeepsStored(c: Config, w: World, worker: nat, id: string, lost: bool, row: Artifact)
    requires Invariant(c, w) && RowStored(c, w, row) && Settled(w, row.id)
    ensures var w' := PutStep(c, w, worker, id, lost); RowStored(c, w', row) && Settled(w', row.id)
  {
    hide Invariant, PathOf, WellFormed, JobOk, Names, NamesFormat, RowStored, Settled, BuildArtifactKey, Put;
    MakerStarted(c, w, row);
    if worker in w.jobs && w.jobs[worker].phase.Writing? && |w.jobs[worker].artifacts| < 2 && id !in w.minted {
      var job := w.jobs[worker];
      JobOf(c, w, worker);
      var format := FORMATS[|job.artifacts|];
      var built := BuildArtifactKey(job.tenant, job.claim.run.id, id, format);
      if built.Err? {
        RowStays(c, w, PutStep(c, w, worker, id, lost), row);
      } else {
        PutAddsOneFile(w.tree, c.maxBytes, c.sha256, built.value, NextPayload(job));
        if Put(w.tree, c.maxBytes, c.sha256, built.value, NextPayload(job)).1.Err? {
          RowStays(c, w, PutStep(c, w, worker, id, lost), row);
        } else {
          BuiltKeyNamesFormat(job.tenant, job.claim.run.id, id, format);
          FormatNames(PathOf(built.value).value, id, format);
          StoredRow(c, w, worker, id, built.value, lost, row);
        }
      }
    } else {
      assert PutStep(c, w, worker, id, lost) == w;
    }
  }

  /** The handler's deletes never raise: every recorded object is still there. */
  lemma HandlerDeletes(c: Config, w: World, worker: nat)
    requires Invariant(c, w) && worker in w.jobs && w.jobs[worker].phase.Compensating? && w.jobs[worker].keys != []
    ensures var (tree, r) := Delete(w.tree, w.jobs[worker].keys[0]);
      r == Ok(true) && CanRemove(c, w, worker, tree) && DeleteStep(w, worker) == Removed(w, worker, tree)
  {
    hide Invariant, WellFormed, PathOf, Names, MadeBy;
    JobOf(c, w, worker);
    DeleteKeepsTree(w.tree, w.jobs[worker].keys[0]);
  }

  lemma DeleteKeepsStored(c: Config, w: World, worker: nat, row: Artifact)
    requires Invariant(c, w) && RowStored(c, w, row) && Settled(w, row.id)
    ensures RowStored(c, DeleteStep(w, worker), row) && Settled(DeleteStep(w, worker), row.id)
  {
    hide Invariant, WellFormed, PathOf, Names, NamesFormat, JobOk, RowStored, Settled, Delete;
    if worker in w.jobs && w.jobs[worker].phase.Compensating? && w.jobs[worker].keys != [] {
      JobOf(c, w, worker);
      HandlerDeletes(c, w, worker);
      RemovedRow(c, w, worker, Delete(w.tree, w.jobs[worker].keys[0]).0, row);
    } else {
      assert DeleteStep(w, worker) == w;
    }
  }

  /** Publishing is for good: a stored report stays stored, or revoked, through every step. */
  lemma StepKeepsStored(c: Config, w: World, a: Action, row: Artifact)
    requires Invariant(c, w) && RowStored(c, w, row) && Settled(w, row.id)
    ensures RowStored(c, Step(c, w, a), row) && Settled(Step(c, w, a), row.id)
  {
    hide Invariant, Exec, BeginStep, PutStep, DeleteStep, EvaluateStep, CommitStep, FailRunStep, RowStored, Settled,
      PathOf;
    match a
    case PutNext(worker, id) => PutKeepsStored(c, w, worker, id, false, row);
    case PutLost(worker, id) => PutKeepsStored(c, w, worker, id, true, row);
    case DeleteNext(worker) => DeleteKeepsStored(c, w, worker, row);
    case _ => OtherKeepsStored(c, w, a, row);
  }

  /**
   A row that is published once keeps its object in every later world, unless it is revoked, whatever
   becomes of the row.
   */
  lemma {:induction false} StoredForGood(c: Config, actions: seq<Action>, i: nat, j: nat, a: string)
    requires AllAllowed(c, actions) && i <= j <= |actions| && a in WorldAt(c, actions, i).db.artifacts
    ensures var row := WorldAt(c, actions, i).db.artifacts[a];
      RowStored(c, WorldAt(c, actions, j), row) && Settled(WorldAt(c, actions, j), row.id)
    decreases j
  {
    hide Step, Invariant, AllAllowed, WorldAt, RowStored, Settled;
    if i == j {
      InvariantAt(c, actions, i);
      RowOf(c, WorldAt(c, actions, i), a);
    } else {
      StoredForGood(c, actions, i, j - 1, a);
      WorldNext(c, actions, j - 1);
      StepKeepsStored(c, WorldAt(c, actions, j - 1), actions[j - 1], WorldAt(c, actions, i).db.artifacts[a]);
    }
  }

  /** The bytes a call put for artifact `id` in a format. */
  ghost predicate WasPut(c: Config, actions: seq<Action>, m: nat, id: string, format: string, data: Bytes)
  {
    && m < |actions| && (actions[m].PutNext? || actions[m].PutLost?) && actions[m].artifactId == id
    && actions[m].worker in WorldAt(c, actions, m).jobs
    && WorldAt(c, actions, m).jobs[actions[m].worker].phase.Writing?
    && data == if format == "json" then WorldAt(c, actions, m).jobs[actions[m].worker].phase.json
               else WorldAt(c, actions, m).jobs[actions[m].worker].phase.markdown
  }

  lemma PayloadOfFormat(w: World, a: Action, path: seq<string>, data: Bytes, id: string, format: string)
    requires PutsNow(w, a, path, data) && NamesFormat(path, id, format)
    ensures a.artifactId == id
    ensures data == if format == "json" then w.jobs[a.worker].phase.json else w.jobs[a.worker].phase.markdown
  {
    hide FileName;
    var put := FORMATS[|w.jobs[a.worker].artifacts|];
    FileNameInjective(a.artifactId, Extension(put).value, id, Extension(format).value);
  }

  /** What a published row's object holds is what its call put for it. */
  lemma PublishedBytesWerePut(c: Config, actions: seq<Action>, i: nat, j: nat, a: string) returns (m: nat)
    requires AllAllowed(c, actions) && i <= j <= |actions| && a in WorldAt(c, actions, i).db.artifacts
    requires var row := WorldAt(c, actions, i).db.artifacts[a];
      PathOf(row.objectKey).Ok? && PathOf(row.objectKey).value in WorldAt(c, actions, j).tree.files
    ensures var row := WorldAt(c, actions, i).db.artifacts[a];
      m < j && WasPut(c, actions, m, row.id, row.format, WorldAt(c, actions, j).tree.files[PathOf(row.objectKey).value])
  {
    hide Step, Invariant, AllAllowed, WorldAt, PathOf, Names, NamesFormat, Settled;
    var row := WorldAt(c, actions, i).db.artifacts[a];
    var path := PathOf(row.objectKey).value;
    StoredForGood(c, actions, i, j, a);
    m := ObjectsWerePut(c, actions, j, path);
    var data := WorldAt(c, actions, j).tree.files[path];
    PayloadOfFormat(WorldAt(c, actions, m), actions[m], path, data, row.id, row.format);
  }
}
