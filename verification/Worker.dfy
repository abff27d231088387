/**
 `process_next` as the steps of any number of workers, interleaved with each other, with client
 statements, and with failures: an exception or a crash may strike between any two steps. Each
 database transaction is one step; a rolled-back one changes nothing.
 */
module Worker {
  import opened Outcome
  import opened Runs
  import opened Database
  import opened Replies
  import opened History
  import opened ArtifactStore
  import RunTable
  import ArtifactTable

  datatype Config = Config(maxBytes: nat, sha256: Bytes -> string, retentionDays: int)

  const LEASE_SECONDS := 300
  const DAY := 86_400 * SECOND

  datatype Phase =
    | Benchmarking                                             // the run is RUNNING; reports are being computed
    | Writing(json: Bytes, markdown: Bytes, generatedAt: int)  // the run is EVALUATING; objects are being put
    | Committed                                                // both rows and COMPLETED are committed
    | Compensating(committed: bool)                            // the exception handler is deleting objects

  /** One call of `process_next` after its first transaction, with its local variables. */
  datatype Job = Job(tenant: string, claim: LeaseClaim, phase: Phase, keys: seq<string>, artifacts: seq<Artifact>)

  /**
   The shared state. `minted`, `revoked` and `lost` only record what happened: which worker made
   each artifact id, which paths a worker deleted after it had published them, and which objects
   were stored by a put that then raised.
   */
  datatype World = World(
    db: Db,
    tree: Tree,
    jobs: map<nat, Job>,
    started: set<nat>,
    minted: map<string, nat>,
    revoked: set<seq<string>>,
    lost: set<seq<string>>)

  const START := World(EMPTY, EMPTY_TREE, map[], {}, map[], {}, {})

  datatype Action =
    | Client(event: Event)
    | Begin(worker: nat, tenant: string, owner: string, now: Moment)
    | Evaluate(worker: nat, json: Bytes, markdown: Bytes, seen: RunStatus, at: int)
    | PutNext(worker: nat, artifactId: string)
    | PutLost(worker: nat, artifactId: string)
    | Commit(worker: nat, seen: RunStatus, at: int)
    | Finish(worker: nat)
    | Fail(worker: nat)
    | DeleteNext(worker: nat)
    | FailRun(worker: nat, seen: RunStatus, at: int)
    | Crash(worker: nat)

  function SetJob(w: World, worker: nat, job: Job): World
  {
    w.(jobs := w.jobs[worker := job])
  }

  function Drop(w: World, worker: nat): World
  {
    w.(jobs := w.jobs - {worker})
  }

  /** Enter the exception handler. */
  function Raise(w: World, worker: nat): World
    requires worker in w.jobs
  {
    SetJob(w, worker, w.jobs[worker].(phase := Compensating(w.jobs[worker].phase.Committed?)))
  }

  /** First transaction: claim, then RUNNING one millisecond later; if that fails the claim is still committed. */
  ghost function BeginStep(w: World, worker: nat, tenant: string, owner: string, now: Moment): World
  {
    var (db1, r1) := RunTable.ClaimNext(w.db, tenant, owner, now, LEASE_SECONDS);
    if worker in w.started || !r1.Claimed? || r1.claim == None then w
    else
      var claim := r1.claim.value;
      var (db2, r2) := RunTable.Transition(db1, tenant, claim, Running, now.at + MILLISECOND);
      if r2 == Flag(true) then
        w.(db := db2, started := w.started + {worker},
           jobs := w.jobs[worker := Job(tenant, claim, Benchmarking, [], [])])
      else if r2.Raised? then w
      else w.(db := db1)
  }

  function EvaluateStep(w: World, worker: nat, json: Bytes, markdown: Bytes, seen: RunStatus, at: int): World
  {
    if worker !in w.jobs || !w.jobs[worker].phase.Benchmarking? then w
    else
      var job := w.jobs[worker];
      var (db', r) := RunTable.TransitionUpdate(w.db, job.tenant, job.claim, seen, Evaluating, at);
      if r == Flag(true) then SetJob(w.(db := db'), worker, job.(phase := Writing(json, markdown, at)))
      else Raise(w, worker)
  }

  /** The payloads are written in this order. */
  const FORMATS := ["json", "markdown"]

  function NewArtifact(c: Config, job: Job, id: string, format: string, key: string, data: Bytes): Artifact
    requires job.phase.Writing?
  {
    Artifact(id, job.tenant, job.claim.run.id, format, key, c.sha256(data), |data|,
             if format == "json" then "application/json" else "text/markdown; charset=utf-8",
             job.phase.generatedAt, job.phase.generatedAt + c.retentionDays * DAY, None)
  }

  function NextPayload(job: Job): Bytes
    requires job.phase.Writing?
  {
    if |job.artifacts| == 0 then job.phase.json else job.phase.markdown
  }

  /** Put the next payload under a new key; `lost` when the put stores it but raises before the key is recorded. */
  function PutStep(c: Config, w: World, worker: nat, id: string, lost: bool): World
  {
    if worker !in w.jobs || !w.jobs[worker].phase.Writing? || |w.jobs[worker].artifacts| >= 2 || id in w.minted then w
    else
      var job := w.jobs[worker];
      var format := FORMATS[|job.artifacts|];
      var w1 := w.(minted := w.minted[id := worker]);
      var key := BuildArtifactKey(job.tenant, job.claim.run.id, id, format);
      if key.Err? then Raise(w1, worker)
      else
        var data := NextPayload(job);
        var (tree', r) := Put(w.tree, c.maxBytes, c.sha256, key.value, data);
        var w2 := w1.(tree := tree');
        if r.Err? then Raise(w2, worker)
        else if lost then Raise(w2.(lost := w.lost + {PathOf(key.value).value}), worker)
        else
          SetJob(w2, worker, job.(keys := job.keys + [key.value],
                                  artifacts := job.artifacts + [NewArtifact(c, job, id, format, key.value, data)]))
  }

  /** Last transaction: both artifact rows and COMPLETED. */
  function CommitStep(w: World, worker: nat, seen: RunStatus, at: int): World
  {
    if worker !in w.jobs || !w.jobs[worker].phase.Writing? || |w.jobs[worker].artifacts| != 2 then w
    else
      var job := w.jobs[worker];
      var (db', r) := ArtifactTable.Publish(w.db, job.tenant, job.artifacts[0], job.artifacts[1], job.claim, seen, at);
      if r == Flag(true) then SetJob(w.(db := db'), worker, job.(phase := Committed))
      else Raise(w, worker)
  }

  /** The handler deletes the recorded objects one by one; an error there ends the call. */
  function DeleteStep(w: World, worker: nat): World
  {
    if worker !in w.jobs || !w.jobs[worker].phase.Compensating? || w.jobs[worker].keys == [] then w
    else
      var job := w.jobs[worker];
      var (tree', r) := Delete(w.tree, job.keys[0]);
      if r.Err? then Drop(w, worker)
      else
        var gone := if job.phase.committed && r.value then {PathOf(job.keys[0]).value} else {};
        SetJob(w.(tree := tree', revoked := w.revoked + gone), worker, job.(keys := job.keys[1..]))
  }

  /** The handler's last transaction: FAILED if the claim still allows it; then the call ends. */
  function FailRunStep(w: World, worker: nat, seen: RunStatus, at: int): World
  {
    if worker !in w.jobs || !w.jobs[worker].phase.Compensating? || w.jobs[worker].keys != [] then w
    else
      var job := w.jobs[worker];
      Drop(w.(db := RunTable.TransitionUpdate(w.db, job.tenant, job.claim, seen, Failed, at).0), worker)
  }

  /** A step of the worker named in the action; a step whose conditions do not hold changes nothing. */
  ghost function OwnStep(c: Config, w: World, a: Action): World
    requires !a.Client?
  {
    match a
    case Begin(worker, tenant, owner, now) => BeginStep(w, worker, tenant, owner, now)
    case Evaluate(worker, json, markdown, seen, at) => EvaluateStep(w, worker, json, markdown, seen, at)
    case PutNext(worker, id) => PutStep(c, w, worker, id, false)
    case PutLost(worker, id) => PutStep(c, w, worker, id, true)
    case Commit(worker, seen, at) => CommitStep(w, worker, seen, at)
    case Finish(worker) => if worker in w.jobs && w.jobs[worker].phase.Committed? then Drop(w, worker) else w
    case Fail(worker) => if worker in w.jobs && !w.jobs[worker].phase.Compensating? then Raise(w, worker) else w
    case DeleteNext(worker) => DeleteStep(w, worker)
    case FailRun(worker, seen, at) => FailRunStep(w, worker, seen, at)
    case Crash(worker) => Drop(w, worker)
  }

  ghost function Step(c: Config, w: World, a: Action): World
  {
    match a
    case Client(e) => w.(db := Exec(w.db, e).0)
    case _ => OwnStep(c, w, a)
  }

  /** Any number of steps, one after another. */
  ghost function Steps(c: Config, w: World, actions: seq<Action>): World
  {
    if actions == [] then w
    else Step(c, Steps(c, w, actions[..|actions| - 1]), actions[|actions| - 1])
  }

  lemma {:induction false} StepsConcat(c: Config, w: World, first: seq<Action>, second: seq<Action>)
    ensures Steps(c, w, first + second) == Steps(c, Steps(c, w, first), second)
    decreases |second|
  {
    hide Step;
    if second == [] {
      assert first + second == first;
    } else {
      assert (first + second)[..|first + second| - 1] == first + second[..|second| - 1];
      StepsConcat(c, w, first, second[..|second| - 1]);
    }
  }

  /** The world before action `i` of a run from empty tables and an empty store. */
  ghost function WorldAt(c: Config, actions: seq<Action>, i: nat): World
    requires i <= |actions|
  {
    if i == 0 then START else Step(c, WorldAt(c, actions, i - 1), actions[i - 1])
  }

  lemma {:induction false} WorldAtSteps(c: Config, actions: seq<Action>, i: nat)
    requires i <= |actions|
    ensures WorldAt(c, actions, i) == Steps(c, START, actions[..i])
  {
    hide Step;
    if i > 0 {
      WorldAtSteps(c, actions, i - 1);
      assert actions[..i][..i - 1] == actions[..i - 1];
    }
  }

  /** The world after a prefix does not depend on what follows. */
  lemma WorldAtPrefix(c: Config, actions: seq<Action>, more: seq<Action>, i: nat)
    requires i <= |actions|
    ensures WorldAt(c, actions + more, i) == WorldAt(c, actions, i)
    ensures WorldAt(c, actions + more, |actions + more|) == Steps(c, WorldAt(c, actions, |actions|), more)
  {
    hide Step;
    WorldAtSteps(c, actions + more, i);
    WorldAtSteps(c, actions, i);
    assert (actions + more)[..i] == actions[..i];
    WorldAtSteps(c, actions + more, |actions + more|);
    WorldAtSteps(c, actions, |actions|);
    assert (actions + more)[..|actions + more|] == actions + more && actions[..|actions|] == actions;
    StepsConcat(c, START, actions, more);
  }

  /** What clients of the service do: anything but publish artifacts or complete runs, and they create runs fresh. */
  predicate ClientEvent(e: Event)
  {
    match e.command
    case AddArtifact(_) => false
    case Publish(_, _, _, _, _) => false
    case TransitionUpdate(_, _, target, _) => target != Completed
    case InsertRun(run) => ServiceFresh(run)
    case _ => true
  }
}
