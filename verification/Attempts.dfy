/** What one attempt of a worker achieves, from any reachable world. */
module Attempts {
  import opened Outcome
  import opened Ordering
  import opened Runs
  import opened Database
  import opened Replies
  import opened History
  import opened ArtifactStore
  import opened Worker
  import opened Journal
  import opened Publication
  import Atomicity
  import Fencing
  import Objects
  import Queue
  import Revocation
  import RunTable
  import ArtifactTable
  import Statements

  // ----- the first transaction -----

  /** Claim and move to RUNNING: the second update of the first transaction cannot fail. */
  lemma ClaimThenRun(db: Db, tenant: string, owner: string, now: Moment)
    requires Queue.AllReachable(db) && LeaseArgumentsOk(owner, now, LEASE_SECONDS)
    requires RunTable.ClaimableRows(db, tenant, now.at) != map[]
    ensures var id := First(RunTable.ClaimableRows(db, tenant, now.at));
      var (db1, r1) := RunTable.ClaimNext(db, tenant, owner, now, LEASE_SECONDS);
      && r1.Claimed? && r1.claim.Some? && r1.claim.value.run.id == id && r1.claim.value.owner == owner
      && var (db2, r2) := RunTable.Transition(db1, tenant, r1.claim.value, Running, now.at + MILLISECOND);
      && r2 == Flag(true) && id in db2.runs && db2.runs[id].status == Running
      && db2.runs[id].tenantId == tenant
      && db2.runs[id].leaseOwner == Some(owner) && db2.runs[id].fencingToken == r1.claim.value.fencingToken
      && db2.runs[id].leaseExpiresAt == Some(now.at + LEASE_SECONDS * SECOND)
      && db2.artifacts == db.artifacts
  {
    var id := First(RunTable.ClaimableRows(db, tenant, now.at));
    var row := db.runs[id];
    assert Fencing.RowInvariant(row) && row.id == id;
    var claimed := RunTable.ClaimRow(row, owner, now.at, LEASE_SECONDS);
    assert claimed.Valid();
  }

  lemma BeginFrom(w: World, worker: nat, tenant: string, owner: string, now: Moment)
    requires Queue.AllReachable(w.db) && LeaseArgumentsOk(owner, now, LEASE_SECONDS) && worker !in w.started
    ensures var rows := RunTable.ClaimableRows(w.db, tenant, now.at);
      var w' := BeginStep(w, worker, tenant, owner, now);
      if rows == map[] then w' == w
      else
        var id := First(rows);
        && worker in w'.jobs && w'.jobs[worker].claim.run.id == id && w'.jobs[worker].tenant == tenant
        && w'.jobs[worker].phase.Benchmarking? && w'.jobs[worker].keys == [] && w'.jobs[worker].artifacts == []
        && id in w'.db.runs && w'.db.runs[id].status == Running
        && w'.tree == w.tree && w'.minted == w.minted && w'.db.artifacts == w.db.artifacts
        && forall at :: at < now.at + LEASE_SECONDS * SECOND ==>
             RunTable.HeldBy(w'.db.runs[id], tenant, w'.jobs[worker].claim, at)
  {
    hide RunTable.ClaimNext, RunTable.Transition, RunTable.ClaimableRows;
    if RunTable.ClaimableRows(w.db, tenant, now.at) != map[] {
      ClaimThenRun(w.db, tenant, owner, now);
    } else {
      Queue.ClaimTakesFirst(w.db, tenant, owner, now, LEASE_SECONDS);
    }
  }

  /**
   In every reachable world the first transaction leaves the claimed run RUNNING under the new token, never
   claimed but idle.
   */
  lemma BeginRunsTheClaim(c: Config, actions: seq<Action>, i: nat, worker: nat, tenant: string, owner: string,
                          now: Moment)
    requires AllAllowed(c, actions) && i <= |actions|
    requires LeaseArgumentsOk(owner, now, LEASE_SECONDS) && worker !in WorldAt(c, actions, i).started
    ensures var w := WorldAt(c, actions, i);
      var rows := RunTable.ClaimableRows(w.db, tenant, now.at);
      var w' := Step(c, w, Begin(worker, tenant, owner, now));
      if rows == map[] then w' == w
      else
        var id := First(rows);
        && worker in w'.jobs && w'.jobs[worker].claim.run.id == id && w'.jobs[worker].tenant == tenant
        && w'.jobs[worker].phase.Benchmarking?
        && id in w'.db.runs && w'.db.runs[id].status == Running
        && forall at :: at < now.at + LEASE_SECONDS * SECOND ==>
             RunTable.HeldBy(w'.db.runs[id], tenant, w'.jobs[worker].claim, at)
  {
    hide Exec, BeginStep, WorldAt, AllAllowed, Queue.AllReachable, RunTable.ClaimableRows, RunTable.HeldBy;
    WorldsAreReachable(c, actions, i);
    BeginFrom(WorldAt(c, actions, i), worker, tenant, owner, now);
  }

  /** A run as the first transaction leaves it: RUNNING under a lease of five minutes and the next token. */
  function Begun(row: Run, owner: string, now: int): Run
  {
    row.(status := Running, leaseOwner := Some(owner), leaseExpiresAt := Some(now + 300 * 1_000_000),
         attempt := row.attempt + 1, fencingToken := row.fencingToken + 1, version := row.version + 2,
         updatedAt := now + 1_000)
  }

  lemma RowsAreKeyed(db: Db)
    requires Queue.AllReachable(db)
    ensures Keyed(db) && forall id :: id in db.runs ==> db.runs[id].Valid()
  {}

  lemma ClaimThenRunExactly(db: Db, tenant: string, owner: string, now: Moment)
    requires Queue.AllReachable(db) && LeaseArgumentsOk(owner, now, LEASE_SECONDS)
    requires RunTable.ClaimNext(db, tenant, owner, now, LEASE_SECONDS).1 != Claimed(None)
    ensures var (db1, r1) := RunTable.ClaimNext(db, tenant, owner, now, LEASE_SECONDS);
      && r1.Claimed? && r1.claim.Some?
      && var id := r1.claim.value.run.id;
         var (db2, r2) := RunTable.Transition(db1, tenant, r1.claim.value, Running, now.at + MILLISECOND);
         && id in db.runs && r2 == Flag(true)
         && db2 == db.(runs := db.runs[id := Begun(db.runs[id], owner, now.at)])
  {
    hide RunTable.ClaimNext, RunTable.Transition, RunTable.ClaimableRows, Queue.AllReachable;
    Queue.ClaimTakesFirst(db, tenant, owner, now, LEASE_SECONDS);
    RowsAreKeyed(db);
    Statements.ClaimTakesOldest(db, tenant, owner, now, LEASE_SECONDS);
    var (db1, r1) := RunTable.ClaimNext(db, tenant, owner, now, LEASE_SECONDS);
    RowsAreKeyed(db1);
    Statements.TransitionExactly(db1, tenant, r1.claim.value, Running, now.at + MILLISECOND);
  }

  /**
   The first transaction over the rows themselves: of the claimable runs it takes the one created first, and
   leaves it RUNNING for five minutes; without one, and on arguments that are refused, it changes nothing.
   */
  lemma FirstTransaction(c: Config, actions: seq<Action>, i: nat, worker: nat, tenant: string, owner: string,
                         now: Moment)
    requires AllAllowed(c, actions) && i <= |actions| && worker !in WorldAt(c, actions, i).started
    ensures var w := WorldAt(c, actions, i);
      var w' := Step(c, w, Begin(worker, tenant, owner, now));
      if !(0 < |owner| <= 128 && now.aware)
         || forall x :: x in w.db.runs ==> !RunTable.Claimable(w.db.runs[x], tenant, now.at)
      then w' == w
      else
        && worker in w'.jobs
        && var claim := w'.jobs[worker].claim;
           var id := claim.run.id;
           && w'.jobs[worker] == Job(tenant, claim, Benchmarking, [], [])
           && id in w.db.runs && RunTable.Claimable(w.db.runs[id], tenant, now.at)
           && (forall x :: x in w.db.runs && x != id && RunTable.Claimable(w.db.runs[x], tenant, now.at) ==>
                 Statements.Older(w.db, id, x))
           && claim.owner == owner && claim.fencingToken == w.db.runs[id].fencingToken + 1
           && w' == w.(db := w.db.(runs := w.db.runs[id := Begun(w.db.runs[id], owner, now.at)]),
                       started := w.started + {worker}, jobs := w.jobs[worker := w'.jobs[worker]])
  {
    hide WorldAt, AllAllowed, RunTable.ClaimNext, RunTable.Transition, Queue.AllReachable, RunTable.Claimable,
      Statements.Older, Begun, Exec;
    WorldsAreReachable(c, actions, i);
    var w := WorldAt(c, actions, i);
    RowsAreKeyed(w.db);
    Statements.ClaimTakesOldest(w.db, tenant, owner, now, LEASE_SECONDS);
    var reply := RunTable.ClaimNext(w.db, tenant, owner, now, LEASE_SECONDS).1;
    if 0 < |owner| <= 128 && now.aware && reply != Claimed(None) {
      ClaimThenRunExactly(w.db, tenant, owner, now);
    }
  }

  // ----- moving on, and failing -----

  /**
   A call moves on to EVALUATING exactly while its lease is current on a RUNNING run; otherwise it enters its
   handler.
   */
  lemma EvaluatesExactlyWhenHeld(c: Config, w: World, worker: nat, json: Bytes, markdown: Bytes, seen: RunStatus,
                                 at: int)
    requires worker in w.jobs && w.jobs[worker].phase.Benchmarking?
    ensures var job := w.jobs[worker];
      var id := job.claim.run.id;
      var w' := Step(c, w, Evaluate(worker, json, markdown, seen, at));
      if Statements.Leases(w.db, job.tenant, job.claim, at) && w.db.runs[id].status == seen == Running then
        w' == w.(db := w.db.(runs := w.db.runs[id := Statements.Moved(w.db.runs[id], Evaluating, at)]),
                 jobs := w.jobs[worker := job.(phase := Writing(json, markdown, at))])
      else w' == w.(jobs := w.jobs[worker := job.(phase := Compensating(false))])
  {
    hide Exec, BeginStep, PutStep, CommitStep, DeleteStep, FailRunStep;
  }

  /** A put the store refuses takes the call to its handler, with no object stored and no key recorded. */
  lemma RefusedPutRaises(c: Config, w: World, worker: nat, id: string)
    requires Invariant(c, w) && id !in w.minted
    requires worker in w.jobs && w.jobs[worker].phase.Writing? && |w.jobs[worker].artifacts| < 2
    requires var job := w.jobs[worker];
      var key := BuildArtifactKey(job.tenant, job.claim.run.id, id, FORMATS[|job.artifacts|]);
      key.Err? || Put(w.tree, c.maxBytes, c.sha256, key.value, NextPayload(job)).1.Err?
    ensures var w' := Step(c, w, PutNext(worker, id));
      && w'.jobs == w.jobs[worker := w.jobs[worker].(phase := Compensating(false))]
      && w'.tree.files == w.tree.files && w'.db == w.db
  {
    hide Invariant, Exec, BeginStep, CommitStep, DeleteStep, FailRunStep, EvaluateStep, BuildArtifactKey, Put, PathOf;
    var job := w.jobs[worker];
    var key := BuildArtifactKey(job.tenant, job.claim.run.id, id, FORMATS[|job.artifacts|]);
    if key.Ok? {
      JobOf(c, w, worker);
      PutAddsOneFile(w.tree, c.maxBytes, c.sha256, key.value, NextPayload(job));
    }
  }

  /** With both reports put, the call completes its run and publishes both rows exactly while its lease is current. */
  lemma CompletesExactlyWhenHeld(c: Config, w: World, worker: nat, seen: RunStatus, at: int)
    requires Invariant(c, w) && worker in w.jobs && w.jobs[worker].phase.Writing? && |w.jobs[worker].artifacts| == 2
    ensures var job := w.jobs[worker];
      var id, json, markdown := job.claim.run.id, job.artifacts[0], job.artifacts[1];
      var w' := Step(c, w, Commit(worker, seen, at));
      if Statements.Leases(w.db, job.tenant, job.claim, at) && w.db.runs[id].status == seen == Evaluating then
        w' == w.(db := Db(w.db.projects,
                          w.db.runs[id := Statements.Moved(w.db.runs[id], Completed, at)],
                          w.db.artifacts[json.id := json][markdown.id := markdown]),
                 jobs := w.jobs[worker := job.(phase := Committed)])
      else w' == w.(jobs := w.jobs[worker := job.(phase := Compensating(false))])
  {
    hide Invariant, ArtifactTable.Publish, ArtifactTable.FreeArtifact, PathOf, Names, Exec, BeginStep, PutStep,
      DeleteStep, EvaluateStep, FailRunStep;
    var job := w.jobs[worker];
    Atomicity.CommitsExactlyWhenHeld(c, w, worker, seen, at);
    ArtifactTable.PublishIsAtomic(w.db, job.tenant, job.artifacts[0], job.artifacts[1], job.claim, seen, at);
  }

  /** The handler's last transaction makes the run FAILED, without a lease, exactly while the lease is current. */
  lemma FailsExactlyWhenHeld(c: Config, w: World, worker: nat, seen: RunStatus, at: int)
    requires worker in w.jobs && w.jobs[worker].phase.Compensating? && w.jobs[worker].keys == []
    ensures var job := w.jobs[worker];
      var id := job.claim.run.id;
      var w' := Step(c, w, FailRun(worker, seen, at));
      if Statements.Leases(w.db, job.tenant, job.claim, at) && w.db.runs[id].status == seen
         && seen in {Queued, Preparing, Running, Evaluating}
      then w' == w.(db := w.db.(runs := w.db.runs[id := Statements.Moved(w.db.runs[id], Failed, at)]),
                    jobs := w.jobs - {worker})
      else w' == w.(jobs := w.jobs - {worker})
  {
    hide Exec, BeginStep, PutStep, CommitStep, DeleteStep, EvaluateStep;
  }

  /** Each turn of the handler removes the next recorded object, and nothing else. */
  lemma HandlerRemovesOne(c: Config, w: World, worker: nat)
    requires Invariant(c, w) && worker in w.jobs && w.jobs[worker].phase.Compensating? && w.jobs[worker].keys != []
    ensures var job := w.jobs[worker];
      var w' := Step(c, w, DeleteNext(worker));
      && PathOf(job.keys[0]).Ok? && PathOf(job.keys[0]).value in w.tree.files
      && w'.tree == w.tree.(files := w.tree.files - {PathOf(job.keys[0]).value}) && w'.db == w.db
      && w'.jobs == w.jobs[worker := job.(keys := job.keys[1..])]
  {
    hide Invariant, Exec, BeginStep, PutStep, CommitStep, EvaluateStep, FailRunStep, PathOf;
    Objects.HandlerDeletes(c, w, worker);
    DeleteRemovesOne(w.tree, w.jobs[worker].keys[0]);
  }

  /** A call whose benchmark fails: it claims, enters its handler, and fails the run. */
  function FailingSteps(worker: nat, tenant: string, owner: string, now: Moment, at: int): seq<Action>
  {
    [Begin(worker, tenant, owner, now), Fail(worker), FailRun(worker, Running, at)]
  }

  lemma FailRaises(c: Config, w: World, worker: nat)
    requires worker in w.jobs && w.jobs[worker].phase.Benchmarking?
    ensures Step(c, w, Fail(worker)) == w.(jobs := w.jobs[worker := w.jobs[worker].(phase := Compensating(false))])
  {
    hide Exec;
  }

  /**
   From every reachable world, a call whose benchmark fails while it still holds its lease leaves the run it
   claimed FAILED, without a lease; no other row and no object changes, and the call is over.
   */
  lemma FailingBenchmarkFailsTheRun(c: Config, actions: seq<Action>, worker: nat, tenant: string, owner: string,
                                    now: Moment, at: int) returns (id: string)
    requires AllAllowed(c, actions) && worker !in WorldAt(c, actions, |actions|).started
    requires 0 < |owner| <= 128 && now.aware && at < now.at + 300 * 1_000_000
    requires var db := WorldAt(c, actions, |actions|).db;
      exists x :: x in db.runs && RunTable.Claimable(db.runs[x], tenant, now.at)
    ensures var w := WorldAt(c, actions, |actions|);
      var whole := actions + FailingSteps(worker, tenant, owner, now, at);
      var w3 := WorldAt(c, whole, |whole|);
      && AllAllowed(c, whole) && worker !in w3.jobs
      && id in w.db.runs && RunTable.Claimable(w.db.runs[id], tenant, now.at)
      && w3.tree == w.tree && w3.db.projects == w.db.projects && w3.db.artifacts == w.db.artifacts
      && w3.db.runs == w.db.runs[id := w.db.runs[id].(
           status := Failed, leaseOwner := None, leaseExpiresAt := None, attempt := w.db.runs[id].attempt + 1,
           fencingToken := w.db.runs[id].fencingToken + 1, version := w.db.runs[id].version + 3, updatedAt := at)]
  {
    hide Step, WorldAt, AllAllowed, Steps;
    var w := WorldAt(c, actions, |actions|);
    var steps := FailingSteps(worker, tenant, owner, now, at);
    FirstTransaction(c, actions, |actions|, worker, tenant, owner, now);
    var w1 := Step(c, w, steps[0]);
    id := w1.jobs[worker].claim.run.id;
    FailRaises(c, w1, worker);
    var w2 := Step(c, w1, steps[1]);
    FailsExactlyWhenHeld(c, w2, worker, Running, at);
    Revocation.StepsThree(c, w, steps[0], steps[1], steps[2]);
    WorkersMayGoOn(c, actions, steps);
    WorldAtPrefix(c, actions, steps, |actions|);
  }

  // ----- the puts -----

  /** Where the object of an artifact goes: single dots vanish. */
  function ObjectPath(tenant: string, run: string, id: string, ext: string): seq<string>
  {
    Dirs(tenant, run) + [FileName(id, ext)]
  }

  /** Nothing stored is in the way of an object at `path`. */
  predicate Clear(tree: Tree, path: seq<string>)
  {
    path !in tree.dirs && !FileAbove(tree, path)
  }

  /** The store takes this report: acceptable identifiers, a file name and a size within bounds, and a clear place. */
  predicate Fits(c: Config, tree: Tree, tenant: string, run: string, id: string, ext: string, data: Bytes)
  {
    && KeyPart(tenant) && KeyPart(run) && KeyPart(id) && tenant != ".." && run != ".."
    && |FileName(id, ext)| <= 128 && |data| <= c.maxBytes
    && Clear(tree, ObjectPath(tenant, run, id, ext))
  }

  lemma FittingKey(c: Config, tree: Tree, tenant: string, run: string, id: string, format: string, data: Bytes)
    requires format in FORMATS && Fits(c, tree, tenant, run, id, Extension(format).value, data)
    ensures BuildArtifactKey(tenant, run, id, format).Ok?
    ensures PathOf(BuildArtifactKey(tenant, run, id, format).value)
         == Ok(ObjectPath(tenant, run, id, Extension(format).value))
    ensures Names(ObjectPath(tenant, run, id, Extension(format).value), id)
  {
    hide PathOf, KeyPart, Clear;
    BuiltKeyPath(tenant, run, id, format);
  }

  lemma PutGrows(tree: Tree, maxBytes: nat, sha256: Bytes -> string, key: string, data: Bytes, path: seq<string>)
    requires WellFormed(tree) && PathOf(key) == Ok(path) && Put(tree, maxBytes, sha256, key, data).1.Ok?
    ensures var tree' := Put(tree, maxBytes, sha256, key, data).0;
      && tree'.files == tree.files[path := data]
      && forall p :: p in tree'.dirs ==> p in tree.dirs || |p| < |path|
  {
    hide PathOf, WellFormed;
  }

  /** A report that fits is stored and recorded. */
  lemma PutSucceeds(c: Config, w: World, worker: nat, id: string)
    requires Invariant(c, w) && id !in w.minted
    requires worker in w.jobs && w.jobs[worker].phase.Writing? && |w.jobs[worker].artifacts| < 2
    requires var job := w.jobs[worker];
      Fits(c, w.tree, job.tenant, job.claim.run.id, id, Extension(FORMATS[|job.artifacts|]).value, NextPayload(job))
    ensures var job := w.jobs[worker];
      var format := FORMATS[|job.artifacts|];
      var path := ObjectPath(job.tenant, job.claim.run.id, id, Extension(format).value);
      var key := BuildArtifactKey(job.tenant, job.claim.run.id, id, format);
      var w' := PutStep(c, w, worker, id, false);
      && key.Ok? && PathOf(key.value) == Ok(path)
      && worker in w'.jobs
      && w'.jobs[worker] == job.(keys := job.keys + [key.value],
                                 artifacts := job.artifacts
                                              + [NewArtifact(c, job, id, format, key.value, NextPayload(job))])
      && w'.db == w.db && w'.minted == w.minted[id := worker]
      && w'.tree.files == w.tree.files[path := NextPayload(job)]
      && forall p :: p in w'.tree.dirs ==> p in w.tree.dirs || |p| < |path|
  {
    hide Invariant, PathOf, BuildArtifactKey, Put, KeyPart, Names, WellFormed;
    var job := w.jobs[worker];
    var format := FORMATS[|job.artifacts|];
    var path := ObjectPath(job.tenant, job.claim.run.id, id, Extension(format).value);
    FittingKey(c, w.tree, job.tenant, job.claim.run.id, id, format, NextPayload(job));
    var key := BuildArtifactKey(job.tenant, job.claim.run.id, id, format).value;
    FreshIdIsUnused(c, w, id);
    JobOf(c, w, worker);
    PutAddsOneFile(w.tree, c.maxBytes, c.sha256, key, NextPayload(job));
    PutGrows(w.tree, c.maxBytes, c.sha256, key, NextPayload(job), path);
  }

  /** The first report does not get in the way of the second. */
  lemma StillFits(c: Config, before: Tree, after: Tree, tenant: string, run: string, first: string, second: string,
                  data: Bytes)
    requires Fits(c, before, tenant, run, second, "md", data)
    requires var path := ObjectPath(tenant, run, first, "json");
      && after.files.Keys == before.files.Keys + {path}
      && forall p :: p in after.dirs ==> p in before.dirs || |p| < |path|
    ensures Fits(c, after, tenant, run, second, "md", data)
  {
    hide KeyPart;
    var path, other := ObjectPath(tenant, run, first, "json"), ObjectPath(tenant, run, second, "md");
    assert |path| == |other|;
    assert forall n :: 0 < n < |other| ==> |other[..n]| < |path|;
    assert forall n :: 0 < n < |other| && other[..n] in before.files ==> FileAbove(before, other);
  }

  // ----- a whole attempt -----

  /** The steps of a call that nothing disturbs, up to its commit. */
  function AttemptSteps(worker: nat, tenant: string, owner: string, now: Moment, json: Bytes, markdown: Bytes,
                   first: string, second: string, t1: int, t2: int): seq<Action>
  {
    [Begin(worker, tenant, owner, now),
     Evaluate(worker, json, markdown, Running, t1),
     PutNext(worker, first),
     PutNext(worker, second),
     Commit(worker, Evaluating, t2)]
  }

  lemma StepsFive(c: Config, w: World, a1: Action, a2: Action, a3: Action, a4: Action, a5: Action)
    ensures Steps(c, w, [a1, a2, a3, a4, a5]) == Step(c, Step(c, Step(c, Step(c, Step(c, w, a1), a2), a3), a4), a5)
  {
    hide Step;
    Revocation.StepsThree(c, w, a1, a2, a3);
    var three := [a1, a2, a3];
    assert three + [a4] == [a1, a2, a3, a4] && (three + [a4])[..3] == three;
    assert three + [a4] + [a5] == [a1, a2, a3, a4, a5] && (three + [a4] + [a5])[..4] == three + [a4];
    assert Steps(c, w, three + [a4]) == Step(c, Steps(c, w, three), a4);
    assert Steps(c, w, three + [a4] + [a5]) == Step(c, Steps(c, w, three + [a4]), a5);
  }

  lemma EvaluateFrom(c: Config, w: World, worker: nat, json: Bytes, markdown: Bytes, at: int)
    requires worker in w.jobs && w.jobs[worker].phase.Benchmarking?
    requires RunTable.CanMove(w.db, w.jobs[worker].tenant, w.jobs[worker].claim, Running, at)
    ensures var job := w.jobs[worker];
      Step(c, w, Evaluate(worker, json, markdown, Running, at))
      == SetJob(w.(db := w.db.(runs := w.db.runs[job.claim.run.id :=
                                                    RunTable.MoveRow(w.db.runs[job.claim.run.id], Evaluating, at)])),
                worker, job.(phase := Writing(json, markdown, at)))
  {
    hide Exec, BeginStep;
  }

  /** The claimed run's next reports fit. */
  predicate ReportsFit(c: Config, w: World, tenant: string, run: string, json: Bytes, markdown: Bytes, first: string,
                       second: string)
  {
    && first != second && first !in w.minted && second !in w.minted
    && Fits(c, w.tree, tenant, run, first, "json", json)
    && Fits(c, w.tree, tenant, run, second, "md", markdown)
  }

  /** Both puts of a writing worker succeed, one after the other. */
  lemma BothPutsSucceed(c: Config, w: World, worker: nat, first: string, second: string)
    requires Invariant(c, w) && worker in w.jobs && w.jobs[worker].phase.Writing? && w.jobs[worker].artifacts == []
    requires var job := w.jobs[worker];
      ReportsFit(c, w, job.tenant, job.claim.run.id, job.phase.json, job.phase.markdown, first, second)
    ensures var job := w.jobs[worker];
      var w2 := Step(c, Step(c, w, PutNext(worker, first)), PutNext(worker, second));
      && Invariant(c, w2) && w2.db == w.db
      && worker in w2.jobs && w2.jobs[worker].phase == job.phase
      && w2.jobs[worker].claim == job.claim && w2.jobs[worker].tenant == job.tenant
      && |w2.jobs[worker].artifacts| == 2
      && w2.jobs[worker].artifacts[0].id == first && w2.jobs[worker].artifacts[1].id == second
      && w2.jobs[worker].artifacts[0].deletedAt == None && w2.jobs[worker].artifacts[1].deletedAt == None
  {
    hide Invariant, Exec, BeginStep, PutStep, Fits, PathOf, BuildArtifactKey, ObjectPath, Put;
    var job := w.jobs[worker];
    var w1 := Step(c, w, PutNext(worker, first));
    PutSucceeds(c, w, worker, first);
    StepKeeps(c, w, PutNext(worker, first));
    StillFits(c, w.tree, w1.tree, job.tenant, job.claim.run.id, first, second, job.phase.markdown);
    PutSucceeds(c, w1, worker, second);
    StepKeeps(c, w1, PutNext(worker, second));
  }

  lemma AttemptFrom(c: Config, w: World, worker: nat, tenant: string, owner: string, now: Moment,
                    json: Bytes, markdown: Bytes, first: string, second: string, t1: int, t2: int)
    requires Invariant(c, w) && Queue.AllReachable(w.db) && worker !in w.started
    requires LeaseArgumentsOk(owner, now, LEASE_SECONDS) && RunTable.ClaimableRows(w.db, tenant, now.at) != map[]
    requires t1 < now.at + LEASE_SECONDS * SECOND && t2 < now.at + LEASE_SECONDS * SECOND
    requires ReportsFit(c, w, tenant, First(RunTable.ClaimableRows(w.db, tenant, now.at)), json, markdown,
                        first, second)
    ensures var w5 := Steps(c, w, AttemptSteps(worker, tenant, owner, now, json, markdown, first, second, t1, t2));
      var run := First(RunTable.ClaimableRows(w.db, tenant, now.at));
      && worker in w5.jobs && w5.jobs[worker].phase.Committed?
      && w5.jobs[worker].tenant == tenant && w5.jobs[worker].claim.run.id == run
      && run in w5.db.runs && w5.db.runs[run].status == Completed && w5.db.runs[run].tenantId == tenant
      && |w5.jobs[worker].keys| == 2 && |w5.jobs[worker].artifacts| == 2
      && w5.jobs[worker].artifacts[0].id == first && w5.jobs[worker].artifacts[1].id == second
      && w5.db.artifacts
         == w.db.artifacts[first := w5.jobs[worker].artifacts[0]][second := w5.jobs[worker].artifacts[1]]
      && forall n :: 0 <= n < 2 ==>
           && w5.jobs[worker].artifacts[n].objectKey == w5.jobs[worker].keys[n]
           && w5.jobs[worker].artifacts[n].deletedAt == None
  {
    hide Invariant, Exec, BeginStep, EvaluateStep, PutStep, CommitStep, RunTable.ClaimableRows, Queue.AllReachable,
      Fits, Steps;
    var run := First(RunTable.ClaimableRows(w.db, tenant, now.at));
    StepsFive(c, w, Begin(worker, tenant, owner, now), Evaluate(worker, json, markdown, Running, t1),
              PutNext(worker, first), PutNext(worker, second), Commit(worker, Evaluating, t2));
    var w1 := Step(c, w, Begin(worker, tenant, owner, now));
    BeginFrom(w, worker, tenant, owner, now);
    StepKeeps(c, w, Begin(worker, tenant, owner, now));
    var w2 := Step(c, w1, Evaluate(worker, json, markdown, Running, t1));
    EvaluateFrom(c, w1, worker, json, markdown, t1);
    StepKeeps(c, w1, Evaluate(worker, json, markdown, Running, t1));
    BothPutsSucceed(c, w2, worker, first, second);
    var w4 := Step(c, Step(c, w2, PutNext(worker, first)), PutNext(worker, second));
    assert RunTable.HeldBy(w1.db.runs[run], tenant, w1.jobs[worker].claim, t2);
    HeldOf(c, w4, worker, 0);
    HeldOf(c, w4, worker, 1);
    Atomicity.CommitsExactlyWhenHeld(c, w4, worker, Evaluating, t2);
  }

  /**
   From every reachable world, an attempt nobody disturbs completes the run it claims: it needs a
   claimable run, clock readings within the lease, two fresh artifact ids, and reports the store takes.
   */
  lemma UndisturbedAttemptCompletes(c: Config, actions: seq<Action>, worker: nat, tenant: string, owner: string,
                                    now: Moment, json: Bytes, markdown: Bytes, first: string, second: string, t1: int,
                                    t2: int)
    requires AllAllowed(c, actions) && worker !in WorldAt(c, actions, |actions|).started
    requires LeaseArgumentsOk(owner, now, LEASE_SECONDS)
    requires t1 < now.at + LEASE_SECONDS * SECOND && t2 < now.at + LEASE_SECONDS * SECOND
    requires var w := WorldAt(c, actions, |actions|);
      var rows := RunTable.ClaimableRows(w.db, tenant, now.at);
      rows != map[] && ReportsFit(c, w, tenant, First(rows), json, markdown, first, second)
    ensures var w := WorldAt(c, actions, |actions|);
      var run := First(RunTable.ClaimableRows(w.db, tenant, now.at));
      var whole := actions + AttemptSteps(worker, tenant, owner, now, json, markdown, first, second, t1, t2);
      var w5 := WorldAt(c, whole, |whole|);
      && AllAllowed(c, whole)
      && worker in w5.jobs && w5.jobs[worker].phase.Committed?
      && w5.jobs[worker].tenant == tenant && w5.jobs[worker].claim.run.id == run
      && run in w5.db.runs && w5.db.runs[run].status == Completed && w5.db.runs[run].tenantId == tenant
      && |w5.jobs[worker].keys| == 2 && |w5.jobs[worker].artifacts| == 2
      && w5.jobs[worker].artifacts[0].id == first && w5.jobs[worker].artifacts[1].id == second
      && w5.db.artifacts
         == w.db.artifacts[first := w5.jobs[worker].artifacts[0]][second := w5.jobs[worker].artifacts[1]]
      && forall n :: 0 <= n < 2 ==>
           && w5.jobs[worker].artifacts[n].objectKey == w5.jobs[worker].keys[n]
           && w5.jobs[worker].artifacts[n].deletedAt == None
  {
    hide Invariant, Step, Steps, WorldAt, AllAllowed, ReportsFit, RunTable.ClaimableRows, Queue.AllReachable, First;
    var attempt := AttemptSteps(worker, tenant, owner, now, json, markdown, first, second, t1, t2);
    InvariantAt(c, actions, |actions|);
    WorldsAreReachable(c, actions, |actions|);
    AttemptFrom(c, WorldAt(c, actions, |actions|), worker, tenant, owner, now, json, markdown, first, second, t1, t2);
    WorkersMayGoOn(c, actions, attempt);
    WorldAtPrefix(c, actions, attempt, |actions|);
  }

  // ----- a late failure that happens -----

  const SETUP: seq<Action> := [
    Client(Event("t", AddProject(Fencing.EXAMPLE_PROJECT))),
    Client(Event("t", LookupRun("k", "p"))),
    Client(Event("t", InsertRun(Fencing.EXAMPLE_RUN)))]

  const ATTEMPT := AttemptSteps(0, "t", "o", Moment(0, true), [], [], "a", "b", 2000, 3000)

  lemma SetupTables()
    ensures Fencing.CANCEL_RACE[..3] == [SETUP[0].event, SETUP[1].event, SETUP[2].event]
    ensures At(Fencing.CANCEL_RACE, 1) == At(Fencing.CANCEL_RACE, 2) == Exec(EMPTY, SETUP[0].event).0
    ensures At(Fencing.CANCEL_RACE, 3) == Fencing.WITH_RUN
    ensures Exec(Exec(EMPTY, SETUP[0].event).0, SETUP[1].event).0 == Exec(EMPTY, SETUP[0].event).0
    ensures Exec(Exec(EMPTY, SETUP[0].event).0, SETUP[2].event).0 == Fencing.WITH_RUN
  {
    hide Exec;
    Fencing.ExampleSteps();
    Fencing.ExampleStates();
  }

  /** A project and a queued run, created by their tenant. */
  lemma SetupWorld(c: Config)
    ensures AllAllowed(c, SETUP)
    ensures WorldAt(c, SETUP, 3) == START.(db := Fencing.WITH_RUN)
  {
    hide Exec, Admissible, OwnStep;
    SetupTables();
    assert WorldAt(c, SETUP, 0) == START;
    assert WorldAt(c, SETUP, 1) == START.(db := Exec(EMPTY, SETUP[0].event).0);
    assert WorldAt(c, SETUP, 2) == START.(db := Exec(EMPTY, SETUP[0].event).0);
    assert WorldAt(c, SETUP, 3) == START.(db := Fencing.WITH_RUN);
    assert Log(c, SETUP, 0) == [];
    assert Log(c, SETUP, 1) == [SETUP[0].event];
    assert Log(c, SETUP, 2) == [SETUP[0].event, SETUP[1].event];
    assert Log(c, SETUP, 3) == Fencing.CANCEL_RACE[..3];
    Fencing.CancelRaceExample();
    PrefixIsAdmissible(Fencing.CANCEL_RACE, 3);
    assert ServiceFresh(Fencing.EXAMPLE_RUN);
  }

  lemma SetupFits(c: Config)
    ensures var w := START.(db := Fencing.WITH_RUN);
      var rows := RunTable.ClaimableRows(w.db, "t", 0);
      rows != map[] && First(rows) == "r" && ReportsFit(c, w, "t", "r", [], [], "a", "b")
  {
    var rows := RunTable.ClaimableRows(Fencing.WITH_RUN, "t", 0);
    assert "r" in rows;
    assert First(rows) in rows;
  }

  /** The reports of run `r` are committed, and then lost by a failure after the commit. */
  lemma LateFailureExample(c: Config)
    ensures var before := SETUP + ATTEMPT;
      var after := before + Revocation.LateFailure(0);
      var w, lost := WorldAt(c, before, |before|), WorldAt(c, after, |after|);
      && AllAllowed(c, after)
      && Revocation.FailsLate(c, after, |before|, 0)
      && lost.db == w.db && "r" in lost.db.runs && lost.db.runs["r"].status == Completed
      && forall format, choice :: format in FORMATS ==>
           Atomicity.ReadReport(c, lost.db, lost.tree, "t", "r", format, choice).Err?
  {
    hide Invariant, Step, WorldAt, AllAllowed, ReportsFit, RunTable.ClaimableRows, First, PathOf, Atomicity.ReadReport,
      Read, AttemptSteps;
    var before := SETUP + ATTEMPT;
    var after := before + Revocation.LateFailure(0);
    SetupWorld(c);
    SetupFits(c);
    UndisturbedAttemptCompletes(c, SETUP, 0, "t", "o", Moment(0, true), [], [], "a", "b", 2000, 3000);
    Revocation.FailureAfterCommitLosesReports(c, before, 0);
    WorldAtPrefix(c, before, Revocation.LateFailure(0), |before|);
    assert after[|before|] == Revocation.LateFailure(0)[0] == Fail(0);
    var lost := WorldAt(c, after, |after|);
    forall format, choice | format in FORMATS
      ensures Atomicity.ReadReport(c, lost.db, lost.tree, "t", "r", format, choice).Err?
    {
      var a := Atomicity.CompletedRunsAreReadable(c, after, |after|, |after|, "r", format, choice);
    }
  }
}
