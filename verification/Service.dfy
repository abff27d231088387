/**
 The application service as the program runs it (`application/service.py`): transactions one after
 another on the session, objects put and deleted in loops, and an exception handler. Between any two
 of these, others leave the tables and the objects in any state. Each call is proved to be a run of
 the worker's steps, so everything known of those steps holds of the program.
 */
module Service {
  import opened Outcome
  import opened Runs
  import opened Database
  import opened Replies
  import opened ArtifactStore
  import opened Worker
  import opened Repositories
  import opened FileStore
  import RunTable
  import Statements
  import ArtifactTable

  /**
   What one call meets: the reports or the error of the benchmark, the readings of the clock, the new
   identifiers, the error of the read after the commit when its connection fails, and the world as others
   leave it at each pause.
   */
  datatype Surroundings = Surroundings(
    benchmark: Result<(Bytes, Bytes)>,
    generatedAt: int, completedAt: int, failedAt: int,
    ids: nat -> string,
    lostRead: Option<Error>,
    others: nat -> World)

  ghost predicate UnusedIds(s: Surroundings, w: World)
  {
    && s.ids(0) != s.ids(1)
    && s.ids(0) !in w.minted && s.ids(1) !in w.minted
    && forall n :: s.ids(0) !in s.others(n).minted && s.ids(1) !in s.others(n).minted
  }

  ghost predicate TreesWellFormed(s: Surroundings)
  {
    forall n :: WellFormed(s.others(n).tree)
  }

  /** The world others made, with one worker's own job and records put back. */
  function Meanwhile(mine: World, theirs: World, worker: nat): World
  {
    World(theirs.db, theirs.tree,
          if worker in mine.jobs then theirs.jobs[worker := mine.jobs[worker]] else theirs.jobs - {worker},
          if worker in mine.started then theirs.started + {worker} else theirs.started - {worker},
          theirs.minted + mine.minted,
          theirs.revoked + mine.revoked,
          theirs.lost + mine.lost)
  }

  /** One step of the call, or a pause in it. */
  datatype Happening = Mine(action: Action) | Pause(theirs: World)

  ghost function Happen(c: Config, worker: nat, w: World, h: Happening): World
  {
    match h
    case Mine(action) => if action.Client? then w else OwnStep(c, w, action)
    case Pause(theirs) => Meanwhile(w, theirs, worker)
  }

  ghost function Replay(c: Config, worker: nat, w: World, trace: seq<Happening>): World
  {
    if trace == [] then w
    else Happen(c, worker, Replay(c, worker, w, trace[..|trace| - 1]), trace[|trace| - 1])
  }

  /** The status a fresh read in the same transaction sees; a final one when there is nothing to see. */
  function SeenStatus(db: Db, tenant: string, id: string): RunStatus
  {
    match RunTable.GetRun(db, tenant, id)
    case RunFound(Some(current)) => current.status
    case _ => Cancelled
  }

  /** What the program does next, from where its call stands. */
  predicate Intended(tenant: string, owner: string, now: Moment, around: Surroundings, worker: nat, w: World, a: Action)
  {
    if worker !in w.jobs then
      worker !in w.started && a == Begin(worker, tenant, owner, now)
    else
      var job := w.jobs[worker];
      var seen := SeenStatus(w.db, tenant, job.claim.run.id);
      var unreadable := RunTable.GetRun(w.db, tenant, job.claim.run.id).Raised?;
      match job.phase
      case Benchmarking =>
        (match around.benchmark
         case Err(_) => a == Fail(worker)
         case Ok((json, markdown)) => a == Evaluate(worker, json, markdown, seen, around.generatedAt))
      case Writing(_, _, _) =>
        a == if |job.artifacts| < 2 then PutNext(worker, around.ids(|job.artifacts|))
             else Commit(worker, seen, around.completedAt)
      case Committed =>
        a == if unreadable || around.lostRead.Some? then Fail(worker) else Finish(worker)
      case Compensating(_) =>
        a == if job.keys != [] then DeleteNext(worker)
             else if unreadable then Crash(worker)
             else FailRun(worker, seen, around.failedAt)
  }

  /** The program's own steps, each the intended one, with a pause after each. */
  ghost predicate ByProgram(c: Config, tenant: string, owner: string, now: Moment, around: Surroundings, worker: nat,
                            w: World, trace: seq<Happening>)
  {
    trace == [] || (
      var init, last := trace[..|trace| - 1], trace[|trace| - 1];
      && ByProgram(c, tenant, owner, now, around, worker, w, init)
      && if |init| % 2 == 0
         then last.Mine? && Intended(tenant, owner, now, around, worker, Replay(c, worker, w, init), last.action)
         else last == Pause(around.others(|init| / 2)))
  }

  /** A transition in one transaction is a guarded update that saw the current status. */
  lemma OneTransaction(db: Db, tenant: string, claim: LeaseClaim, target: RunStatus, now: int)
    ensures var seen := SeenStatus(db, tenant, claim.run.id);
      && RunTable.TransitionUpdate(db, tenant, claim, seen, target, now).0
         == RunTable.Transition(db, tenant, claim, target, now).0
      && (RunTable.TransitionUpdate(db, tenant, claim, seen, target, now).1 == Flag(true)
          <==> RunTable.Transition(db, tenant, claim, target, now).1 == Flag(true))
  {}

  lemma RefusedChangesNothing(db: Db, tenant: string, claim: LeaseClaim, target: RunStatus, now: int)
    ensures var (db', r) := RunTable.Transition(db, tenant, claim, target, now);
      (r == Flag(true) || r == Flag(false) || r == Raised(ValueError)) && (r != Flag(true) ==> db' == db)
  {}

  lemma FinalIsRefused(db: Db, tenant: string, claim: LeaseClaim, seen: RunStatus, now: int)
    requires seen.Terminal()
    ensures RunTable.TransitionUpdate(db, tenant, claim, seen, Failed, now).0 == db
  {}

  lemma AddKeepsRuns(db: Db, tenant: string, artifact: Artifact)
    ensures ArtifactTable.AddArtifact(db, tenant, artifact).0.runs == db.runs
  {}

  lemma AddNeverFlags(db: Db, tenant: string, artifact: Artifact)
    ensures !ArtifactTable.AddArtifact(db, tenant, artifact).1.Flag?
  {}

  lemma RefusedDeleteKeeps(tree: Tree, key: string)
    ensures Delete(tree, key).1.Err? ==> Delete(tree, key).0 == tree
    ensures Delete(tree, key).1.Err? ==> Delete(tree, key).1.error in {ValueError, OSError}
  {}

  lemma StoredSizeAndSum(tree: Tree, maxBytes: nat, sha256: Bytes -> string, key: string, data: Bytes)
    ensures var r := Put(tree, maxBytes, sha256, key, data).1; r.Ok? ==> r.value == (|data|, sha256(data))
    ensures Put(tree, maxBytes, sha256, key, data).1.Ok? ==>
      && PathOf(key).Ok? && PathOf(key).value in Put(tree, maxBytes, sha256, key, data).0.files
      && Put(tree, maxBytes, sha256, key, data).0.files[PathOf(key).value] == data
  {}

  /** The next report can be put, and what for. */
  ghost predicate PutsNext(w: World, worker: nat, id: string, key: Result<string>, data: Bytes)
  {
    && worker in w.jobs && w.jobs[worker].phase.Writing? && |w.jobs[worker].artifacts| < 2 && id !in w.minted
    && data == NextPayload(w.jobs[worker])
    && var job := w.jobs[worker];
       key == BuildArtifactKey(job.tenant, job.claim.run.id, id, FORMATS[|job.artifacts|])
  }

  /** A refused put raises. */
  lemma RefusedPut(c: Config, w: World, worker: nat, id: string, key: Result<string>, data: Bytes)
    requires PutsNext(w, worker, id, key, data)
    requires key.Err? || Put(w.tree, c.maxBytes, c.sha256, key.value, data).1.Err?
    ensures var w' := PutStep(c, w, worker, id, false);
      && w'.minted == w.minted[id := worker] && w'.db == w.db && w'.started == w.started
      && w'.tree == (if key.Err? then w.tree else Put(w.tree, c.maxBytes, c.sha256, key.value, data).0)
      && w'.jobs == w.jobs[worker := w.jobs[worker].(phase := Compensating(false))]
  {
    hide Put, BuildArtifactKey, PathOf;
  }

  /** A put that is taken is recorded. */
  lemma TakenPut(c: Config, w: World, worker: nat, id: string, key: string, data: Bytes)
    requires PutsNext(w, worker, id, Ok(key), data) && Put(w.tree, c.maxBytes, c.sha256, key, data).1.Ok?
    ensures var w', job := PutStep(c, w, worker, id, false), w.jobs[worker];
      var format := FORMATS[|job.artifacts|];
      var row := Artifact(id, job.tenant, job.claim.run.id, format, key, c.sha256(data), |data|,
                          if format == "json" then "application/json" else "text/markdown; charset=utf-8",
                          job.phase.generatedAt, job.phase.generatedAt + c.retentionDays * 86_400 * 1_000_000, None);
      && w'.minted == w.minted[id := worker] && w'.db == w.db && w'.started == w.started
      && w'.tree == Put(w.tree, c.maxBytes, c.sha256, key, data).0
      && w'.jobs == w.jobs[worker := job.(keys := job.keys + [key], artifacts := job.artifacts + [row])]
  {
    hide Put, BuildArtifactKey, PathOf;
  }

  lemma PutIsOwn(c: Config, w: World, worker: nat, id: string, data: Bytes)
    requires worker in w.jobs && w.jobs[worker].phase.Writing? && |w.jobs[worker].artifacts| < 2 && id !in w.minted
    requires var phase := w.jobs[worker].phase;
      data == if |w.jobs[worker].artifacts| == 0 then phase.json else phase.markdown
    ensures OwnStep(c, w, PutNext(worker, id)) == PutStep(c, w, worker, id, false)
    ensures var job := w.jobs[worker];
      PutsNext(w, worker, id, BuildArtifactKey(job.tenant, job.claim.run.id, id, FORMATS[|job.artifacts|]), data)
  {
    hide PutStep, BeginStep, BuildArtifactKey;
  }

  lemma IntendsPut(tenant: string, owner: string, now: Moment, around: Surroundings, worker: nat, w: World)
    requires worker in w.jobs && w.jobs[worker].phase.Writing? && |w.jobs[worker].artifacts| < 2
    ensures Intended(tenant, owner, now, around, worker, w, PutNext(worker, around.ids(|w.jobs[worker].artifacts|)))
  {
    hide RunTable.GetRun, SeenStatus;
  }

  function ClaimOf(w: World, worker: nat): Option<LeaseClaim>
  {
    if worker in w.jobs then Some(w.jobs[worker].claim) else None
  }

  /** One call of the worker, and the machine state it stands for. */
  class ProcessNextCall {
    const session: Session
    const store: FileArtifactStore
    const retentionDays: int
    const tenant: string
    const owner: string
    const now: Moment
    const around: Surroundings
    var pauses: nat
    ghost const worker: nat
    ghost const origin: World
    ghost var world: World
    ghost var trace: seq<Happening>

    constructor (session: Session, store: FileArtifactStore, retentionDays: int, tenant: string, owner: string,
                 now: Moment, around: Surroundings, ghost worker: nat, ghost origin: World)
      requires origin.db == session.db && origin.tree == store.tree && store.Valid()
      requires worker !in origin.started && worker !in origin.jobs
      requires UnusedIds(around, origin) && TreesWellFormed(around)
      ensures this.session == session && this.store == store && this.retentionDays == retentionDays
      ensures this.tenant == tenant && this.owner == owner && this.now == now && this.around == around
      ensures this.worker == worker && this.origin == origin
      ensures Agrees() && world == origin && trace == [] && MintedAtMost(0)
    {
      this.session, this.store, this.retentionDays, this.tenant := session, store, retentionDays, tenant;
      this.owner, this.now := owner, now;
      this.around, this.pauses, this.worker, this.origin := around, 0, worker, origin;
      this.world, this.trace := origin, [];
    }

    ghost function Settings(): Config
    {
      Config(store.maxBytes, store.sha256, retentionDays)
    }

    /** The objects hold the machine's tables and tree, and the machine got there by this call's trace. */
    ghost predicate Agrees()
      reads this, session, store
    {
      && session.db == world.db && store.tree == world.tree && store.Valid()
      && ByProgram(Settings(), tenant, owner, now, around, worker, origin, trace) && pauses == |trace| / 2
      && world == Replay(Settings(), worker, origin, trace)
      && UnusedIds(around, origin) && TreesWellFormed(around)
    }

    /** Only the first `n` new identifiers have been used. */
    ghost predicate MintedAtMost(n: nat)
      reads this
    {
      && (n < 1 ==> around.ids(0) !in world.minted)
      && (n < 2 ==> around.ids(1) !in world.minted)
    }

    /** The call is about to step, rather than to pause. */
    ghost predicate MyTurn()
      reads this
    {
      |trace| % 2 == 0
    }

    ghost predicate Doing(claim: LeaseClaim, phase: Phase, keys: seq<string>, artifacts: seq<Artifact>)
      reads this
    {
      worker in world.jobs && world.jobs[worker] == Job(tenant, claim, phase, keys, artifacts)
    }

    /** Record a step whose effect the objects already show. */
    ghost method Took(action: Action)
      requires !action.Client? && MyTurn() && Intended(tenant, owner, now, around, worker, world, action)
      requires ByProgram(Settings(), tenant, owner, now, around, worker, origin, trace) && pauses == |trace| / 2
      requires world == Replay(Settings(), worker, origin, trace)
      requires UnusedIds(around, origin) && TreesWellFormed(around) && store.Valid()
      requires session.db == OwnStep(Settings(), world, action).db
      requires store.tree == OwnStep(Settings(), world, action).tree
      modifies this`world, this`trace
      ensures Agrees() && !MyTurn() && world == OwnStep(Settings(), old(world), action)
      ensures trace == old(trace) + [Mine(action)]
    {
      hide OwnStep;
      trace := trace + [Mine(action)];
      assert trace[..|trace| - 1] == old(trace);
      world := OwnStep(Settings(), world, action);
    }

    /** Others act. */
    method Wait()
      requires Agrees() && !MyTurn()
      modifies this`pauses, this`world, this`trace, session, store
      ensures Agrees() && MyTurn() && (worker in world.jobs <==> worker in old(world.jobs))
      ensures worker in old(world.jobs) ==> world.jobs[worker] == old(world.jobs)[worker]
      ensures worker in world.started <==> worker in old(world.started)
      ensures forall n :: old(MintedAtMost(n)) ==> MintedAtMost(n)
      ensures old(trace) <= trace
    {
      hide OwnStep;
      var theirs := around.others(pauses);
      pauses := pauses + 1;
      session.db := theirs.db;
      store.tree := theirs.tree;
      trace := trace + [Pause(theirs)];
      assert trace[..|trace| - 1] == old(trace);
      world := Meanwhile(world, theirs, worker);
    }

    /** An exception outside any transaction: the call enters its handler. */
    ghost method RaisedOutside(claim: LeaseClaim, phase: Phase, keys: seq<string>, artifacts: seq<Artifact>)
      requires Agrees() && MyTurn() && Doing(claim, phase, keys, artifacts)
      requires || (phase == Benchmarking && around.benchmark.Err?)
               || (phase == Committed && around.lostRead.Some?)
               || (phase == Committed && RunTable.GetRun(session.db, tenant, claim.run.id).Raised?)
      modifies this`world, this`trace
      ensures Agrees() && old(trace) <= trace && world.started == old(world.started)
      ensures !MyTurn() && Doing(claim, Compensating(phase.Committed?), keys, artifacts)
    {
      hide Replay, ByProgram, BeginStep, UnusedIds, TreesWellFormed;
      Took(Fail(worker));
    }

    ghost method Finished(claim: LeaseClaim, keys: seq<string>, artifacts: seq<Artifact>)
      requires Agrees() && MyTurn() && Doing(claim, Committed, keys, artifacts)
      requires !RunTable.GetRun(session.db, tenant, claim.run.id).Raised? && around.lostRead == None
      modifies this`world, this`trace
      ensures Agrees() && old(trace) <= trace && world.started == old(world.started)
      ensures worker !in world.jobs && trace != [] && trace[|trace| - 1] == Mine(Finish(worker))
    {
      hide Replay, ByProgram, BeginStep, UnusedIds, TreesWellFormed;
      Took(Finish(worker));
    }

    /** The first transaction. */
    method Begin() returns (r: Result<Option<LeaseClaim>>)
      requires Agrees() && MyTurn() && worker !in world.started && worker !in world.jobs
      modifies this`world, this`trace, session
      ensures Agrees() && !MyTurn() && |trace| == |old(trace)| + 1
      ensures world.minted == old(world.minted)
      ensures if r.Ok? && r.value.Some? then worker in world.started && Doing(r.value.value, Benchmarking, [], [])
              else worker !in world.started && worker !in world.jobs
      ensures r.Err? ==> session.db == old(session.db)
    {
      hide RunTable.ClaimNext, RunTable.Transition, Replay, ByProgram;
      var before := session.db;
      var repository := new EvaluationRunRepository(session, tenant);
      var claimed := repository.ClaimNext(owner, now, LEASE_SECONDS);
      if claimed.Err? {
        session.db := before;
        r := Err(claimed.error);
      } else if claimed.value == None {
        session.db := before;
        r := Ok(None);
      } else {
        var claim := claimed.value.value;
        RefusedChangesNothing(session.db, tenant, claim, Running, now.at + MILLISECOND);
        var moved := repository.Transition(claim, Running, now.at + MILLISECOND);
        if moved.Err? {
          session.db := before;
          r := Err(moved.error);
        } else {
          r := Ok(if moved.value then Some(claim) else None);
        }
      }
      Took(Worker.Begin(worker, tenant, owner, now));
    }

    /** The second transaction, with the reports at hand. */
    method Evaluate(claim: LeaseClaim, json: Bytes, markdown: Bytes) returns (r: Result<()>)
      requires Agrees() && MyTurn() && Doing(claim, Benchmarking, [], [])
      requires around.benchmark == Ok((json, markdown))
      modifies this`world, this`trace, session
      ensures Agrees() && !MyTurn() && old(trace) <= trace
      ensures world.minted == old(world.minted) && world.started == old(world.started)
      ensures r.Ok? ==> Doing(claim, Writing(json, markdown, around.generatedAt), [], [])
      ensures r.Err? ==> Doing(claim, Compensating(false), [], [])
    {
      hide RunTable.TransitionUpdate, RunTable.Transition, Replay, ByProgram;
      var before := session.db;
      OneTransaction(before, tenant, claim, Evaluating, around.generatedAt);
      RefusedChangesNothing(before, tenant, claim, Evaluating, around.generatedAt);
      var repository := new EvaluationRunRepository(session, tenant);
      var moved := repository.Transition(claim, Evaluating, around.generatedAt);
      if moved.Err? {
        session.db := before;
        r := Err(moved.error);
      } else if !moved.value {
        session.db := before;
        r := Err(RuntimeError);
      } else {
        r := Ok(());
      }
      Took(Worker.Evaluate(worker, json, markdown, SeenStatus(before, tenant, claim.run.id), around.generatedAt));
    }

    /** Record the put of the next report, whose effect the objects already show. */
    ghost method TookPut(id: string, n: nat)
      requires MyTurn() && Intended(tenant, owner, now, around, worker, world, PutNext(worker, id))
      requires n < 2 && id == around.ids(n) && MintedAtMost(n)
      requires ByProgram(Settings(), tenant, owner, now, around, worker, origin, trace) && pauses == |trace| / 2
      requires world == Replay(Settings(), worker, origin, trace)
      requires UnusedIds(around, origin) && TreesWellFormed(around) && store.Valid()
      requires var next := OwnStep(Settings(), world, PutNext(worker, id));
        && session.db == next.db && store.tree == next.tree
        && next.minted == world.minted[id := worker] && next.started == world.started
      modifies this`world, this`trace
      ensures Agrees() && !MyTurn() && old(trace) <= trace
      ensures world == OwnStep(Settings(), old(world), PutNext(worker, id))
      ensures MintedAtMost(n + 1) && world.started == old(world.started)
    {
      hide OwnStep, Replay, ByProgram, TreesWellFormed, Intended;
      Took(PutNext(worker, id));
    }

    /** Stores one report under its key, and makes its row. */
    method StoreReport(claim: LeaseClaim, format: string, data: Bytes, id: string)
      returns (r: Result<(string, Artifact)>)
      requires store.Valid()
      modifies store
      ensures store.Valid()
      ensures var key := BuildArtifactKey(tenant, claim.run.id, id, format);
        if key.Err? then r == Err(key.error) && store.tree == old(store.tree)
        else
          var (tree', stored) := ArtifactStore.Put(old(store.tree), store.maxBytes, store.sha256, key.value, data);
          && store.tree == tree' && (r.Ok? <==> stored.Ok?)
          && (r.Ok? ==>
                && r.value.0 == key.value
                && r.value.1 == Artifact(id, tenant, claim.run.id, format, key.value, store.sha256(data), |data|,
                                         if format == "json" then "application/json"
                                         else "text/markdown; charset=utf-8",
                                         around.generatedAt,
                                         around.generatedAt + retentionDays * 86_400 * 1_000_000, None)
                && Read(store.tree, store.sha256, key.value, None) == Ok(data))
    {
      hide ArtifactStore.Put, BuildArtifactKey, PathOf;
      var key := BuildArtifactKey(tenant, claim.run.id, id, format);
      if key.Err? {
        return Err(key.error);
      }
      StoredSizeAndSum(store.tree, store.maxBytes, store.sha256, key.value, data);
      var stored := store.Put(key.value, data);
      if stored.Err? {
        return Err(stored.error);
      }
      var (size, digest) := stored.value;
      return Ok((key.value,
        Artifact(id, tenant, claim.run.id, format, key.value, digest, size,
                 if format == "json" then "application/json" else "text/markdown; charset=utf-8",
                 around.generatedAt, around.generatedAt + retentionDays * DAY, None)));
    }

    /** One turn of the loop over the payloads. */
    method PutReport(claim: LeaseClaim, json: Bytes, markdown: Bytes, keys: seq<string>, artifacts: seq<Artifact>)
      returns (r: Result<(string, Artifact)>)
      requires Agrees() && MyTurn() && Doing(claim, Writing(json, markdown, around.generatedAt), keys, artifacts)
      requires |artifacts| < 2 && MintedAtMost(|artifacts|)
      modifies this`world, this`trace, store
      ensures Agrees() && !MyTurn() && old(trace) <= trace
      ensures MintedAtMost(|artifacts| + 1) && world.started == old(world.started)
      ensures r.Ok? ==> Doing(claim, Writing(json, markdown, around.generatedAt),
                              keys + [r.value.0], artifacts + [r.value.1])
      ensures r.Err? ==> Doing(claim, Compensating(false), keys, artifacts)
    {
      hide ArtifactStore.Put, BuildArtifactKey, PathOf, Replay, ByProgram, TreesWellFormed, BeginStep, SeenStatus,
        RunTable.GetRun, OwnStep, PutStep, UnusedIds, NextPayload, NewArtifact, Intended;
      var format := FORMATS[|artifacts|];
      var data := if format == "json" then json else markdown;
      var id := around.ids(|artifacts|);
      ghost var key := BuildArtifactKey(tenant, claim.run.id, id, format);
      IntendsPut(tenant, owner, now, around, worker, world);
      PutIsOwn(Settings(), world, worker, id, data);
      r := StoreReport(claim, format, data, id);
      if r.Err? {
        RefusedPut(Settings(), world, worker, id, key, data);
      } else {
        TakenPut(Settings(), world, worker, id, key.value, data);
      }
      TookPut(id, |artifacts|);
    }

    /** The rows of the last transaction, one by one until one is refused. */
    method AddReports(artifacts: seq<Artifact>) returns (r: Result<()>)
      requires |artifacts| == 2
      modifies session
      ensures var (db1, r1) := ArtifactTable.AddArtifact(old(session.db), tenant, artifacts[0]);
        var (db2, r2) := ArtifactTable.AddArtifact(db1, tenant, artifacts[1]);
        && (r.Ok? <==> r1 == Done && r2 == Done)
        && (r.Ok? ==> session.db == db2)
    {
      hide ArtifactTable.AddArtifact;
      var repository := new ReportArtifactRepository(session, tenant);
      ghost var db1 := ArtifactTable.AddArtifact(session.db, tenant, artifacts[0]).0;
      for n := 0 to |artifacts|
        invariant n == 0 ==> session.db == old(session.db)
        invariant n >= 1 ==> ArtifactTable.AddArtifact(old(session.db), tenant, artifacts[0]).1 == Done
        invariant n == 1 ==> session.db == db1
        invariant n == 2 ==> (session.db, Done) == ArtifactTable.AddArtifact(db1, tenant, artifacts[1])
      {
        r := repository.Add(artifacts[n]);
        if r.Err? {
          return;
        }
      }
      r := Ok(());
    }

    /** The last transaction: all artifact rows, then COMPLETED; an error rolls everything back. */
    method Publish(claim: LeaseClaim, json: Bytes, markdown: Bytes, keys: seq<string>, artifacts: seq<Artifact>)
      returns (r: Result<()>)
      requires Agrees() && MyTurn()
      requires Doing(claim, Writing(json, markdown, around.generatedAt), keys, artifacts) && |artifacts| == 2
      modifies this`world, this`trace, session
      ensures Agrees() && !MyTurn() && old(trace) <= trace
      ensures world.started == old(world.started)
      ensures r.Ok? ==> Doing(claim, Committed, keys, artifacts)
      ensures r.Err? ==> Doing(claim, Compensating(false), keys, artifacts) && session.db == old(session.db)
    {
      hide ArtifactTable.AddArtifact, RunTable.TransitionUpdate, RunTable.Transition, Replay, ByProgram, UnusedIds,
        TreesWellFormed;
      var before := session.db;
      ghost var db1 := ArtifactTable.AddArtifact(before, tenant, artifacts[0]).0;
      ghost var db2 := ArtifactTable.AddArtifact(db1, tenant, artifacts[1]).0;
      AddNeverFlags(before, tenant, artifacts[0]);
      AddNeverFlags(db1, tenant, artifacts[1]);
      OneTransaction(db2, tenant, claim, Completed, around.completedAt);
      AddKeepsRuns(before, tenant, artifacts[0]);
      AddKeepsRuns(db1, tenant, artifacts[1]);
      ghost var seen := SeenStatus(before, tenant, claim.run.id);
      r := AddReports(artifacts);
      if r.Ok? {
        var runs := new EvaluationRunRepository(session, tenant);
        var moved := runs.Transition(claim, Completed, around.completedAt);
        r := if moved.Err? then Err(moved.error) else if moved.value then Ok(()) else Err(RuntimeError);
      }
      if r.Err? {
        session.db := before;
      }
      Took(Commit(worker, seen, around.completedAt));
    }

    method DeleteFirst(ghost claim: LeaseClaim, keys: seq<string>, ghost artifacts: seq<Artifact>,
                       ghost committed: bool)
      returns (deleted: Result<bool>)
      requires Agrees() && MyTurn() && Doing(claim, Compensating(committed), keys, artifacts) && keys != []
      requires worker in world.started
      modifies this`world, this`trace, store
      ensures Agrees() && !MyTurn() && old(trace) <= trace && worker in world.started
      ensures deleted.Ok? ==> Doing(claim, Compensating(committed), keys[1..], artifacts)
      ensures deleted.Err? ==> worker !in world.jobs && trace != [] && trace[|trace| - 1] != Mine(Finish(worker))
      ensures deleted.Err? ==> deleted.error in {ValueError, OSError}
    {
      hide ArtifactStore.Delete, PathOf, Replay, ByProgram, UnusedIds, TreesWellFormed, BeginStep;
      RefusedDeleteKeeps(store.tree, keys[0]);
      deleted := store.Delete(keys[0]);
      Took(DeleteNext(worker));
    }

    /** The exception handler: the recorded objects go, then the run is FAILED if the claim still allows it. */
    method Compensate(claim: LeaseClaim, keys: seq<string>, ghost artifacts: seq<Artifact>, ghost committed: bool,
                      error: Error)
      returns (raised: Error)
      requires Agrees() && !MyTurn() && Doing(claim, Compensating(committed), keys, artifacts)
      requires worker in world.started
      modifies this`pauses, this`world, this`trace, session, store
      ensures Agrees() && old(trace) <= trace
      ensures worker in world.started && worker !in world.jobs
      ensures trace != [] && trace[|trace| - 1] != Mine(Finish(worker))
      ensures raised == error || raised in {ValueError, OSError}
    {
      hide Agrees, Doing;
      for n := 0 to |keys|
        invariant Agrees() && !MyTurn() && old(trace) <= trace && worker in world.started && MintedAtMost(2)
        invariant Doing(claim, Compensating(committed), keys[n..], artifacts)
      {
        WaitDoing(claim, Compensating(committed), keys[n..], artifacts, 2);
        var deleted := DeleteFirst(claim, keys[n..], artifacts, committed);
        assert keys[n..][1..] == keys[n + 1..];
        if deleted.Err? {
          return deleted.error;
        }
      }
      WaitDoing(claim, Compensating(committed), [], artifacts, 2);
      raised := FailRun(claim, artifacts, committed, error);
    }

    /** The run as a failed transition leaves it: FAILED when it is readable, unfinished and still held. */
    function FailedRun(db: Db, claim: LeaseClaim): Db
    {
      if Statements.Leases(db, tenant, claim, around.failedAt) && db.runs[claim.run.id].Valid()
         && db.runs[claim.run.id].status in {Queued, Preparing, Running, Evaluating}
      then db.(runs := db.runs[claim.run.id := Statements.Moved(db.runs[claim.run.id], Failed, around.failedAt)])
      else db
    }

    /** Reads the run again and tries FAILED on an unfinished one; a refusal changes nothing. */
    method MarkFailed(claim: LeaseClaim) returns (unreadable: Option<Error>)
      modifies session
      ensures session.db == FailedRun(old(session.db), claim)
      ensures unreadable.Some? <==> RunTable.GetRun(old(session.db), tenant, claim.run.id).Raised?
      ensures unreadable.Some? ==> unreadable.value == ValueError && session.db == old(session.db)
      ensures unreadable.None? ==>
        session.db == RunTable.TransitionUpdate(old(session.db), tenant, claim,
                                                SeenStatus(old(session.db), tenant, claim.run.id), Failed,
                                                around.failedAt).0
    {
      hide RunTable.TransitionUpdate, RunTable.Transition, RunTable.GetRun;
      var before := session.db;
      Statements.GetExactly(before, tenant, claim.run.id);
      Statements.TransitionExactly(before, tenant, claim, Failed, around.failedAt);
      var repository := new EvaluationRunRepository(session, tenant);
      var current := repository.Get(claim.run.id);
      if current.Err? {
        return Some(current.error);
      }
      if current.value.Some? && !current.value.value.status.Terminal() {
        OneTransaction(before, tenant, claim, Failed, around.failedAt);
        var moved := repository.Transition(claim, Failed, around.failedAt);
      } else {
        FinalIsRefused(before, tenant, claim, SeenStatus(before, tenant, claim.run.id), around.failedAt);
      }
      return None;
    }

    method FailRun(claim: LeaseClaim, ghost artifacts: seq<Artifact>, ghost committed: bool, error: Error)
      returns (raised: Error)
      requires Agrees() && MyTurn() && Doing(claim, Compensating(committed), [], artifacts) && worker in world.started
      modifies this`world, this`trace, session
      ensures Agrees() && old(trace) <= trace
      ensures worker in world.started && worker !in world.jobs
      ensures trace != [] && trace[|trace| - 1] != Mine(Finish(worker))
      ensures raised != error ==>
        raised == ValueError && RunTable.GetRun(old(session.db), tenant, claim.run.id).Raised?
      ensures session.db == FailedRun(old(session.db), claim)
    {
      hide RunTable.TransitionUpdate, RunTable.Transition, RunTable.GetRun, Replay, ByProgram, UnusedIds;
      ghost var before := session.db;
      var unreadable := MarkFailed(claim);
      if unreadable.Some? {
        Took(Crash(worker));
        return unreadable.value;
      }
      Took(Worker.FailRun(worker, SeenStatus(before, tenant, claim.run.id), around.failedAt));
      return error;
    }

    /** The objects are put one by one, each key recorded as soon as its object is there. */
    method PutReports(claim: LeaseClaim, json: Bytes, markdown: Bytes)
      returns (r: Result<()>, keys: seq<string>, artifacts: seq<Artifact>)
      requires Agrees() && !MyTurn() && MintedAtMost(0) && worker in world.started
      requires Doing(claim, Writing(json, markdown, around.generatedAt), [], [])
      modifies this`pauses, this`world, this`trace, session, store
      ensures Agrees() && !MyTurn() && old(trace) <= trace && worker in world.started
      ensures r.Ok? ==> |artifacts| == 2 && Doing(claim, Writing(json, markdown, around.generatedAt), keys, artifacts)
      ensures r.Err? ==> Doing(claim, Compensating(false), keys, artifacts)
    {
      hide Agrees, MintedAtMost, Doing, MyTurn;
      keys, artifacts := [], [];
      while |artifacts| < 2
        invariant Agrees() && !MyTurn() && old(trace) <= trace && worker in world.started
        invariant |artifacts| <= 2 && MintedAtMost(|artifacts|)
        invariant Doing(claim, Writing(json, markdown, around.generatedAt), keys, artifacts)
      {
        WaitDoing(claim, Writing(json, markdown, around.generatedAt), keys, artifacts, |artifacts|);
        var put := PutReport(claim, json, markdown, keys, artifacts);
        if put.Err? {
          r := Err(put.error);
          return;
        }
        keys := keys + [put.value.0];
        artifacts := artifacts + [put.value.1];
      }
      r := Ok(());
    }

    /** Others act, and leave the call where it was. */
    method WaitDoing(ghost claim: LeaseClaim, ghost phase: Phase, ghost keys: seq<string>,
                     ghost artifacts: seq<Artifact>, ghost n: nat)
      requires Agrees() && !MyTurn() && Doing(claim, phase, keys, artifacts) && MintedAtMost(n)
      requires worker in world.started
      modifies this`pauses, this`world, this`trace, session, store
      ensures Agrees() && MyTurn() && old(trace) <= trace && worker in world.started
      ensures Doing(claim, phase, keys, artifacts) && MintedAtMost(n)
    {
      hide Agrees;
      Wait();
    }

    /** The body of the `try`: ends with the run, or in the handler with the keys put so far. */
    method Attempt(claim: LeaseClaim)
      returns (r: Result<Option<Run>>, keys: seq<string>, ghost artifacts: seq<Artifact>, ghost committed: bool)
      requires Agrees() && !MyTurn() && Doing(claim, Benchmarking, [], []) && MintedAtMost(0) && worker in world.started
      modifies this`pauses, this`world, this`trace, session, store
      ensures Agrees() && old(trace) <= trace && worker in world.started
      ensures r.Ok? ==> worker !in world.jobs && trace != [] && trace[|trace| - 1] == Mine(Finish(worker))
      ensures r.Ok? ==> RunFound(r.value) == RunTable.GetRun(session.db, tenant, claim.run.id)
      ensures r.Err? ==> !MyTurn() && Doing(claim, Compensating(committed), keys, artifacts)
      ensures around.benchmark.Err? ==> r == Err(around.benchmark.error)
    {
      hide Agrees, Doing, MyTurn, RunTable.GetRun;
      keys, artifacts, committed := [], [], false;
      WaitDoing(claim, Benchmarking, [], [], 0);
      if around.benchmark.Err? {
        RaisedOutside(claim, Benchmarking, [], []);
        return Err(around.benchmark.error), [], [], false;
      }
      var (json, markdown) := around.benchmark.value;
      var evaluated := Evaluate(claim, json, markdown);
      if evaluated.Err? {
        return Err(evaluated.error), [], [], false;
      }
      var reports;
      var put;
      put, keys, reports := PutReports(claim, json, markdown);
      artifacts := reports;
      if put.Err? {
        return Err(put.error), keys, artifacts, false;
      }
      WaitDoing(claim, Writing(json, markdown, around.generatedAt), keys, reports, 2);
      var published := Publish(claim, json, markdown, keys, reports);
      if published.Err? {
        return Err(published.error), keys, artifacts, false;
      }
      WaitDoing(claim, Committed, keys, artifacts, 2);
      if around.lostRead.Some? {
        RaisedOutside(claim, Committed, keys, artifacts);
        return Err(around.lostRead.value), keys, artifacts, true;
      }
      var repository := new EvaluationRunRepository(session, tenant);
      var run := repository.Get(claim.run.id);
      if run.Err? {
        RaisedOutside(claim, Committed, keys, artifacts);
        return Err(run.error), keys, artifacts, true;
      }
      Finished(claim, keys, artifacts);
      return Ok(run.value), keys, artifacts, false;
    }

    /**
     `process_next`. The call is exactly what the program intends at each point, with others acting in its
     pauses, until it is over; it returns normally exactly when it claimed nothing or finished after its commit.
     */
    method ProcessNext() returns (r: Result<Option<Run>>, ghost claimed: Option<LeaseClaim>)
      requires Agrees() && trace == [] && world == origin && worker !in world.started && worker !in world.jobs
      requires MintedAtMost(0)
      modifies this`pauses, this`world, this`trace, session, store
      ensures session.db == world.db && store.tree == world.tree
      ensures world == Replay(Settings(), worker, origin, trace)
      ensures ByProgram(Settings(), tenant, owner, now, around, worker, origin, trace)
      ensures worker !in world.jobs
      ensures worker in world.started ==> (r.Ok? <==> trace[|trace| - 1] == Mine(Finish(worker)))
      ensures trace != [] && claimed == ClaimOf(Replay(Settings(), worker, origin, trace[..1]), worker)
      ensures if claimed == None then worker !in world.started && (r.Err? || r == Ok(None))
              else worker in world.started
                   && (r.Ok? ==> RunFound(r.value) == RunTable.GetRun(session.db, tenant, claimed.value.run.id))
      ensures claimed.Some? && around.benchmark.Err? ==>
        r.Err? && (r.error == around.benchmark.error || r.error in {ValueError, OSError})
    {
      hide Replay, ByProgram, UnusedIds, TreesWellFormed;
      var begun := Begin();
      ghost var first := trace;
      assert first[..1] == first;
      ghost var w1 := world;
      if begun.Err? {
        return Err(begun.error), None;
      }
      if begun.value == None {
        return Ok(None), None;
      }
      var claim := begun.value.value;
      ghost var artifacts, committed;
      var keys;
      r, keys, artifacts, committed := Attempt(claim);
      if r.Err? {
        var raised := Compensate(claim, keys, artifacts, committed, r.error);
        r := Err(raised);
      }
      assert trace[..1] == first;
      assert Replay(Settings(), worker, origin, trace[..1]) == w1;
      claimed := Some(claim);
    }
  }
}
