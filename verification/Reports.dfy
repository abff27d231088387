/**
 Where a report row comes from: the commit of a call that had put its object, and before that the
 evaluation that produced the report. Every column of the row follows from these.
 */
module Reports {
  import opened Outcome
  import opened Runs
  import opened Database
  import opened History
  import opened ArtifactStore
  import opened Worker
  import opened Journal
  import opened Publication
  import opened Objects
  import RunTable
  import ProjectTable
  import ArtifactTable

  // ----- one step -----

  /** A call that writes reports was writing the same ones before, or has just evaluated them. */
  lemma StepWriting(c: Config, w: World, a: Action, k: nat)
    requires k in Step(c, w, a).jobs && Step(c, w, a).jobs[k].phase.Writing?
    ensures k in w.jobs
    ensures w.jobs[k].claim == Step(c, w, a).jobs[k].claim && w.jobs[k].tenant == Step(c, w, a).jobs[k].tenant
    ensures
      || w.jobs[k].phase == Step(c, w, a).jobs[k].phase
      || (a.Evaluate? && a.worker == k && w.jobs[k].phase.Benchmarking?
          && Step(c, w, a).jobs[k].phase == Writing(a.json, a.markdown, a.at))
  {
    hide Exec, RunTable.ClaimNext, RunTable.Transition, RunTable.TransitionUpdate, ArtifactTable.Publish, Put, PathOf,
      BuildArtifactKey, Delete;
  }

  /** Artifact `n` of a call is the one it has just put, for the report that was next. */
  ghost predicate PutsArtifact(c: Config, w: World, a: Action, k: nat, n: nat, artifact: Artifact)
  {
    && a.PutNext? && a.worker == k && k in w.jobs && w.jobs[k].phase.Writing?
    && n == |w.jobs[k].artifacts| < 2
    && var key := BuildArtifactKey(w.jobs[k].tenant, w.jobs[k].claim.run.id, a.artifactId, FORMATS[n]);
       key.Ok?
       && artifact == NewArtifact(c, w.jobs[k], a.artifactId, FORMATS[n], key.value, NextPayload(w.jobs[k]))
  }

  lemma StepHeld(c: Config, w: World, a: Action, k: nat, n: nat)
    requires k in Step(c, w, a).jobs && n < |Step(c, w, a).jobs[k].artifacts|
    ensures
      || (k in w.jobs && n < |w.jobs[k].artifacts| && Step(c, w, a).jobs[k].artifacts[n] == w.jobs[k].artifacts[n])
      || PutsArtifact(c, w, a, k, n, Step(c, w, a).jobs[k].artifacts[n])
  {
    hide Exec, RunTable.ClaimNext, RunTable.Transition, RunTable.TransitionUpdate, ArtifactTable.Publish, Put, PathOf,
      BuildArtifactKey, Delete, NewArtifact;
  }

  lemma ClientKeepsRow(db: Db, e: Event, id: string)
    requires Keyed(db) && ClientEvent(e) && id in Exec(db, e).0.artifacts
    ensures id in db.artifacts
    ensures Exec(db, e).0.artifacts[id] == db.artifacts[id].(deletedAt := Exec(db, e).0.artifacts[id].deletedAt)
  {
    hide ArtifactTable.Publish, ArtifactTable.AddArtifact, ArtifactTable.GetForRun, ProjectTable.ListProjects,
      RunTable.LookupRun;
  }

  lemma CommitAddsHeld(w: World, worker: nat, seen: RunStatus, at: int, id: string)
    requires id in CommitStep(w, worker, seen, at).db.artifacts
    ensures var row := CommitStep(w, worker, seen, at).db.artifacts[id];
      || (id in w.db.artifacts && row == w.db.artifacts[id])
      || (worker in w.jobs && w.jobs[worker].phase.Writing? && |w.jobs[worker].artifacts| == 2
          && (row == w.jobs[worker].artifacts[0] || row == w.jobs[worker].artifacts[1]))
  {
    hide ArtifactTable.Publish;
    if worker in w.jobs && w.jobs[worker].phase.Writing? && |w.jobs[worker].artifacts| == 2 {
      var job := w.jobs[worker];
      ArtifactTable.PublishIsAtomic(w.db, job.tenant, job.artifacts[0], job.artifacts[1], job.claim, seen, at);
    }
  }

  lemma OthersKeepRows(c: Config, w: World, a: Action)
    requires !a.Client? && !a.Commit?
    ensures Step(c, w, a).db.artifacts == w.db.artifacts
  {
    hide Exec, Put, PathOf, BuildArtifactKey, Delete, CommitStep;
  }

  /** A row was there before, but for its mark of deletion, or is one that a call has held and now commits. */
  lemma StepReportRow(c: Config, w: World, a: Action, id: string)
    requires Invariant(c, w) && (a.Client? ==> ClientEvent(a.event)) && id in Step(c, w, a).db.artifacts
    ensures var row := Step(c, w, a).db.artifacts[id];
      || (id in w.db.artifacts && row == w.db.artifacts[id].(deletedAt := row.deletedAt))
      || (a.Commit? && a.worker in w.jobs && |w.jobs[a.worker].artifacts| == 2
          && (row == w.jobs[a.worker].artifacts[0] || row == w.jobs[a.worker].artifacts[1]))
  {
    hide Exec, CommitStep, BeginStep, EvaluateStep, PutStep, DeleteStep, FailRunStep, Unique, TenantSound,
      OnlyCompleted, CompletedHasPair, RowsStored, FilesKnown, JobsOk, NoStrays;
    match a
    case Client(e) => ClientKeepsRow(w.db, e, id);
    case Commit(worker, seen, at) => CommitAddsHeld(w, worker, seen, at, id);
    case _ => OthersKeepRows(c, w, a);
  }

  // ----- whole runs -----

  /** Call `k` evaluated its reports at action `e`. */
  ghost predicate Evaluates(c: Config, actions: seq<Action>, e: nat, k: nat, tenant: string, runId: string)
  {
    && e < |actions| && actions[e].Evaluate? && actions[e].worker == k
    && k in WorldAt(c, actions, e).jobs
    && WorldAt(c, actions, e).jobs[k].tenant == tenant && WorldAt(c, actions, e).jobs[k].claim.run.id == runId
  }

  /** What a call writes is what it evaluated. */
  lemma {:induction false} WritingWasEvaluated(c: Config, actions: seq<Action>, i: nat, k: nat) returns (e: nat)
    requires i <= |actions| && k in WorldAt(c, actions, i).jobs && WorldAt(c, actions, i).jobs[k].phase.Writing?
    ensures var job := WorldAt(c, actions, i).jobs[k];
      && e < i && Evaluates(c, actions, e, k, job.tenant, job.claim.run.id)
      && job.phase == Writing(actions[e].json, actions[e].markdown, actions[e].at)
    decreases i
  {
    hide Step;
    if i == 0 {
      assert false;
    } else {
      StepWriting(c, WorldAt(c, actions, i - 1), actions[i - 1], k);
      if WorldAt(c, actions, i - 1).jobs[k].phase == WorldAt(c, actions, i).jobs[k].phase {
        e := WritingWasEvaluated(c, actions, i - 1, k);
      } else {
        e := i - 1;
      }
    }
  }

  /** Every artifact a call holds is one it put. */
  lemma {:induction false} HeldWasPut(c: Config, actions: seq<Action>, i: nat, k: nat, n: nat) returns (m: nat)
    requires i <= |actions| && k in WorldAt(c, actions, i).jobs && n < |WorldAt(c, actions, i).jobs[k].artifacts|
    ensures m < i
    ensures PutsArtifact(c, WorldAt(c, actions, m), actions[m], k, n, WorldAt(c, actions, i).jobs[k].artifacts[n])
    decreases i
  {
    hide Step, PutsArtifact;
    if i == 0 {
      assert false;
    } else {
      var w := WorldAt(c, actions, i - 1);
      var held := WorldAt(c, actions, i).jobs[k].artifacts[n];
      StepHeld(c, w, actions[i - 1], k, n);
      if k in w.jobs && n < |w.jobs[k].artifacts| && w.jobs[k].artifacts[n] == held {
        m := HeldWasPut(c, actions, i - 1, k, n);
      } else {
        m := i - 1;
      }
    }
  }

  /** Every row was held by the call that committed it. */
  lemma {:induction false} RowWasHeld(c: Config, actions: seq<Action>, i: nat, id: string) returns (q: nat, n: nat)
    requires AllAllowed(c, actions) && i <= |actions| && id in WorldAt(c, actions, i).db.artifacts
    ensures q < i && actions[q].Commit? && actions[q].worker in WorldAt(c, actions, q).jobs
    ensures n < |WorldAt(c, actions, q).jobs[actions[q].worker].artifacts|
    ensures var row := WorldAt(c, actions, i).db.artifacts[id];
      row == WorldAt(c, actions, q).jobs[actions[q].worker].artifacts[n].(deletedAt := row.deletedAt)
    decreases i
  {
    hide Step, Invariant, Admissible, Log;
    if i == 0 {
      assert false;
    } else {
      var w, a := WorldAt(c, actions, i - 1), actions[i - 1];
      WorldNext(c, actions, i - 1);
      StepReportRow(c, w, a, id);
      var row := WorldAt(c, actions, i).db.artifacts[id];
      if id in w.db.artifacts && row == w.db.artifacts[id].(deletedAt := row.deletedAt) {
        q, n := RowWasHeld(c, actions, i - 1, id);
      } else {
        q, n := i - 1, if row == w.jobs[a.worker].artifacts[0] then 0 else 1;
      }
    }
  }

  /** The report of that format among those an evaluation produced. */
  function ReportIn(a: Action, format: string): Bytes
    requires a.Evaluate?
  {
    if format == "markdown" then a.markdown else a.json
  }

  /** The columns of a row that records a report of evaluation `a`, kept for so many days. */
  predicate Describes(c: Config, row: Artifact, a: Action)
    requires a.Evaluate?
  {
    && (row.format == "json" || row.format == "markdown")
    && row.contentType == (if row.format == "json" then "application/json" else "text/markdown; charset=utf-8")
    && row.sha256 == c.sha256(ReportIn(a, row.format)) && row.sizeBytes == |ReportIn(a, row.format)|
    && row.createdAt == a.at && row.expiresAt == a.at + c.retentionDays * 86_400 * 1_000_000
    && row.objectKey
       == row.tenantId + "/" + row.runId + "/" + row.id + (if row.format == "json" then ".json" else ".md")
  }

  lemma NewIsDescribed(c: Config, job: Job, id: string, n: nat, key: string, a: Action)
    requires n == |job.artifacts| < 2 && a.Evaluate? && job.phase == Writing(a.json, a.markdown, a.at)
    requires BuildArtifactKey(job.tenant, job.claim.run.id, id, FORMATS[n]) == Ok(key)
    ensures Describes(c, NewArtifact(c, job, id, FORMATS[n], key, NextPayload(job)), a)
    ensures NewArtifact(c, job, id, FORMATS[n], key, NextPayload(job)).tenantId == job.tenant
    ensures NewArtifact(c, job, id, FORMATS[n], key, NextPayload(job)).runId == job.claim.run.id
  {
    hide BuildArtifactKey, KeyPart;
    KeyText(job.tenant, job.claim.run.id, id, FORMATS[n]);
    assert "json" != "markdown";
    if n == 0 {
      assert FORMATS[n] == "json";
    } else {
      assert FORMATS[n] == "markdown";
    }
  }

  /**
   In every reachable world each artifact row records a report that the call which had claimed its run
   evaluated: its content type, checksum, size, dates and key are those of that report.
   */
  lemma RowsDescribeTheirReports(c: Config, actions: seq<Action>, i: nat, id: string) returns (e: nat)
    requires AllAllowed(c, actions) && i <= |actions| && id in WorldAt(c, actions, i).db.artifacts
    ensures var row := WorldAt(c, actions, i).db.artifacts[id];
      && e < i && actions[e].Evaluate? && Describes(c, row, actions[e])
      && Evaluates(c, actions, e, actions[e].worker, row.tenantId, row.runId)
  {
    hide WorldAt, AllAllowed, BuildArtifactKey, NewArtifact, NextPayload;
    var q, n := RowWasHeld(c, actions, i, id);
    var k := actions[q].worker;
    var m := HeldWasPut(c, actions, q, k, n);
    e := WritingWasEvaluated(c, actions, m, k);
    var job := WorldAt(c, actions, m).jobs[k];
    var key := BuildArtifactKey(job.tenant, job.claim.run.id, actions[m].artifactId, FORMATS[n]).value;
    NewIsDescribed(c, job, actions[m].artifactId, n, key, actions[e]);
  }

  /**
   The bytes that action `m` put for artifact `id` are the report of that format from the evaluation at `e` by
   the same call.
   */
  ghost predicate WasReported(actions: seq<Action>, e: nat, m: nat, id: string, format: string, data: Bytes)
  {
    && e < m < |actions| && actions[e].Evaluate? && (actions[m].PutNext? || actions[m].PutLost?)
    && actions[e].worker == actions[m].worker && actions[m].artifactId == id
    && data == ReportIn(actions[e], format)
  }

  /** What a published row's object holds is the report of its format that its call evaluated. */
  lemma PublishedBytesAreReports(c: Config, actions: seq<Action>, i: nat, j: nat, a: string) returns (e: nat, m: nat)
    requires AllAllowed(c, actions) && i <= j <= |actions| && a in WorldAt(c, actions, i).db.artifacts
    requires var row := WorldAt(c, actions, i).db.artifacts[a];
      PathOf(row.objectKey).Ok? && PathOf(row.objectKey).value in WorldAt(c, actions, j).tree.files
    ensures var row := WorldAt(c, actions, i).db.artifacts[a];
      WasReported(actions, e, m, row.id, row.format, WorldAt(c, actions, j).tree.files[PathOf(row.objectKey).value])
  {
    hide WorldAt, AllAllowed, PathOf;
    m := PublishedBytesWerePut(c, actions, i, j, a);
    e := WritingWasEvaluated(c, actions, m, actions[m].worker);
    var described := RowsDescribeTheirReports(c, actions, i, a);
  }
}
