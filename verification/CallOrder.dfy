/** In which order a call that returns its run did what: one transaction or put after another, and nothing else. */
module CallOrder {
  import opened Runs
  import opened Worker
  import opened Service
  import RunTable
  import ArtifactTable
  import ArtifactStore

  /** The identifiers from number `n` on have not been used. */
  predicate FreshFrom(w: World, around: Surroundings, n: nat)
  {
    (n < 1 ==> around.ids(0) !in w.minted) && (n < 2 ==> around.ids(1) !in w.minted)
  }

  /** The call runs, and not in its exception handler; while its benchmark runs it has put nothing. */
  predicate OnCourse(w: World, worker: nat, around: Surroundings)
  {
    && worker in w.jobs && !w.jobs[worker].phase.Compensating?
    && (w.jobs[worker].phase.Benchmarking? ==> w.jobs[worker].artifacts == [] && FreshFrom(w, around, 0))
    && (w.jobs[worker].phase.Writing? ==>
          |w.jobs[worker].artifacts| <= 2 && FreshFrom(w, around, |w.jobs[worker].artifacts|))
  }

  /** How many steps after its first transaction a call is. */
  function Stage(job: Job): nat
    requires !job.phase.Compensating?
  {
    match job.phase
    case Benchmarking => 0
    case Writing(_, _, _) => 1 + |job.artifacts|
    case Committed => 4
  }

  /** A call that is not in its handler is on course; before it has begun, both its identifiers are fresh. */
  ghost predicate Sane(w: World, worker: nat, around: Surroundings)
  {
    && (worker in w.jobs ==> OnCourse(w, worker, around) || w.jobs[worker].phase.Compensating?)
    && (worker in w.jobs ==> worker in w.started)
    && (worker !in w.started ==> FreshFrom(w, around, 0))
  }

  /** Outside its handler, a call that has just begun is at its first stage. */
  lemma FirstStage(c: Config, tenant: string, owner: string, now: Moment, around: Surroundings, worker: nat, w: World)
    requires worker !in w.started && worker !in w.jobs && FreshFrom(w, around, 0)
    requires worker in OwnStep(c, w, Begin(worker, tenant, owner, now)).jobs
    ensures var w' := OwnStep(c, w, Begin(worker, tenant, owner, now));
      OnCourse(w', worker, around) && Stage(w'.jobs[worker]) == 0
  {
    hide RunTable.ClaimNext, RunTable.Transition;
  }

  /** Outside its handler, a call that runs is a stage further after each of its steps. */
  lemma NextStage(c: Config, tenant: string, owner: string, now: Moment, around: Surroundings, worker: nat, w: World,
                  a: Action)
    requires Intended(tenant, owner, now, around, worker, w, a)
    requires OnCourse(w, worker, around) && around.ids(0) != around.ids(1)
    requires worker in OwnStep(c, w, a).jobs && !OwnStep(c, w, a).jobs[worker].phase.Compensating?
    ensures OnCourse(OwnStep(c, w, a), worker, around)
    ensures Stage(OwnStep(c, w, a).jobs[worker]) == Stage(w.jobs[worker]) + 1
  {
    hide BeginStep, DeleteStep, FailRunStep, RunTable.TransitionUpdate, RunTable.GetRun, ArtifactTable.Publish,
      ArtifactStore.Put, ArtifactStore.BuildArtifactKey, ArtifactStore.PathOf, SeenStatus, NewArtifact;
  }

  /** Once in its handler, a call stays there. */
  lemma HandlerStays(c: Config, tenant: string, owner: string, now: Moment, around: Surroundings, worker: nat,
                     w: World, a: Action)
    requires Intended(tenant, owner, now, around, worker, w, a)
    requires worker in w.jobs && w.jobs[worker].phase.Compensating? && worker in OwnStep(c, w, a).jobs
    ensures OwnStep(c, w, a).jobs[worker].phase.Compensating?
  {
    hide BeginStep, PutStep, CommitStep, EvaluateStep, RunTable.TransitionUpdate, RunTable.GetRun,
      ArtifactStore.Delete, ArtifactStore.PathOf, SeenStatus;
  }

  /** A call on course is a stage further than before its last step, or has just begun. */
  lemma OneStageOn(c: Config, tenant: string, owner: string, now: Moment, around: Surroundings, worker: nat, w: World,
                   a: Action)
    requires Intended(tenant, owner, now, around, worker, w, a)
    requires Sane(w, worker, around) && around.ids(0) != around.ids(1)
    requires worker in OwnStep(c, w, a).jobs && !OwnStep(c, w, a).jobs[worker].phase.Compensating?
    ensures OnCourse(OwnStep(c, w, a), worker, around)
    ensures if worker in w.jobs
            then OnCourse(w, worker, around) && Stage(OwnStep(c, w, a).jobs[worker]) == Stage(w.jobs[worker]) + 1
            else Stage(OwnStep(c, w, a).jobs[worker]) == 0
  {
    hide OwnStep, RunTable.GetRun, SeenStatus, OnCourse, Stage;
    if worker !in w.jobs {
      FirstStage(c, tenant, owner, now, around, worker, w);
    } else if w.jobs[worker].phase.Compensating? {
      HandlerStays(c, tenant, owner, now, around, worker, w, a);
    } else {
      NextStage(c, tenant, owner, now, around, worker, w, a);
    }
  }

  /** Where the call stands after `i` of its own steps and pauses. */
  ghost function Point(c: Config, worker: nat, origin: World, trace: seq<Happening>, i: nat): World
    requires i <= |trace|
  {
    Replay(c, worker, origin, trace[..i])
  }

  /** What the program does at one point of its trace. */
  lemma ProgramAt(c: Config, tenant: string, owner: string, now: Moment, around: Surroundings, worker: nat,
                  origin: World, trace: seq<Happening>, i: nat)
    requires ByProgram(c, tenant, owner, now, around, worker, origin, trace) && i < |trace|
    ensures Point(c, worker, origin, trace, i + 1) == Happen(c, worker, Point(c, worker, origin, trace, i), trace[i])
    ensures if i % 2 == 0
            then trace[i].Mine?
                 && Intended(tenant, owner, now, around, worker, Point(c, worker, origin, trace, i), trace[i].action)
            else trace[i] == Pause(around.others(i / 2))
    decreases |trace|
  {
    hide Intended, Happen;
    var n := |trace| - 1;
    if i == n {
      assert trace[..i + 1] == trace && trace[..i + 1][..i] == trace[..i];
    } else {
      ProgramAt(c, tenant, owner, now, around, worker, origin, trace[..n], i);
      assert trace[..n][..i] == trace[..i] && trace[..n][..i + 1] == trace[..i + 1];
    }
  }

  /** A pause leaves the call's own part as it was. */
  lemma PauseKeepsJob(c: Config, worker: nat, w: World, theirs: World)
    ensures var w' := Happen(c, worker, w, Pause(theirs));
      && (worker in w'.jobs <==> worker in w.jobs) && (worker in w.jobs ==> w'.jobs[worker] == w.jobs[worker])
      && (worker in w'.started <==> worker in w.started) && w'.minted == theirs.minted + w.minted
  {}

  lemma ProgramsOwn(tenant: string, owner: string, now: Moment, around: Surroundings, worker: nat, w: World, a: Action)
    requires Intended(tenant, owner, now, around, worker, w, a)
    ensures !a.Client? && a.worker == worker
    ensures worker !in w.jobs ==> a == Begin(worker, tenant, owner, now)
  {
    hide RunTable.GetRun;
  }

  /** A call that has begun stays so; before, its own step uses no identifier unless it begins. */
  lemma StartedStays(c: Config, worker: nat, w: World, a: Action)
    requires !a.Client? && (worker in w.jobs || a.Begin?)
    requires worker in w.jobs ==> worker in w.started
    ensures worker in w.started ==> worker in OwnStep(c, w, a).started
    ensures worker !in OwnStep(c, w, a).started ==> OwnStep(c, w, a).minted == w.minted
    ensures worker in OwnStep(c, w, a).jobs ==> a.worker != worker || worker in OwnStep(c, w, a).started
  {
    hide RunTable.ClaimNext, RunTable.Transition, RunTable.TransitionUpdate, ArtifactTable.Publish, ArtifactStore.Put,
      ArtifactStore.Delete, ArtifactStore.BuildArtifactKey, ArtifactStore.PathOf;
  }

  lemma {:induction false} SaneAt(c: Config, tenant: string, owner: string, now: Moment, around: Surroundings,
                                  worker: nat, origin: World, trace: seq<Happening>, i: nat)
    requires ByProgram(c, tenant, owner, now, around, worker, origin, trace) && i <= |trace|
    requires worker !in origin.jobs && UnusedIds(around, origin)
    ensures Sane(Point(c, worker, origin, trace, i), worker, around)
    decreases i
  {
    hide ByProgram, OwnStep, Intended, Stage, Meanwhile;
    if i == 0 {
      assert trace[..0] == [];
    } else {
      hide Replay, Point;
      SaneAt(c, tenant, owner, now, around, worker, origin, trace, i - 1);
      ProgramAt(c, tenant, owner, now, around, worker, origin, trace, i - 1);
      var w, w' := Point(c, worker, origin, trace, i - 1), Point(c, worker, origin, trace, i);
      if (i - 1) % 2 == 1 {
        PauseKeepsJob(c, worker, w, around.others((i - 1) / 2));
      } else {
        ProgramsOwn(tenant, owner, now, around, worker, w, trace[i - 1].action);
        StartedStays(c, worker, w, trace[i - 1].action);
        if worker in w'.jobs && !w'.jobs[worker].phase.Compensating? {
          OneStageOn(c, tenant, owner, now, around, worker, w, trace[i - 1].action);
        }
      }
    }
  }

  /** One turn of the program back: a stage earlier, or at the beginning of the call. */
  lemma OneTurnBack(c: Config, tenant: string, owner: string, now: Moment, around: Surroundings, worker: nat,
                    origin: World, trace: seq<Happening>, i: nat)
    requires ByProgram(c, tenant, owner, now, around, worker, origin, trace) && i <= |trace| && i % 2 == 0
    requires worker !in origin.jobs && UnusedIds(around, origin)
    requires OnCourse(Point(c, worker, origin, trace, i), worker, around)
    ensures i >= 2 && trace[i - 2].Mine?
    ensures var w := Point(c, worker, origin, trace, i - 2);
      var stage := Stage(Point(c, worker, origin, trace, i).jobs[worker]);
      && Intended(tenant, owner, now, around, worker, w, trace[i - 2].action)
      && (stage > 0 ==> OnCourse(w, worker, around) && Stage(w.jobs[worker]) == stage - 1)
      && (stage == 0 ==> trace[i - 2].action == Begin(worker, tenant, owner, now))
  {
    hide ByProgram, OwnStep, Intended, Meanwhile, Stage;
    assert trace[..0] == [];
    assert i > 0;
    hide Replay, Point;
    ProgramAt(c, tenant, owner, now, around, worker, origin, trace, i - 1);
    ProgramAt(c, tenant, owner, now, around, worker, origin, trace, i - 2);
    SaneAt(c, tenant, owner, now, around, worker, origin, trace, i - 2);
    var w := Point(c, worker, origin, trace, i - 2);
    PauseKeepsJob(c, worker, Point(c, worker, origin, trace, i - 1), around.others((i - 1) / 2));
    ProgramsOwn(tenant, owner, now, around, worker, w, trace[i - 2].action);
    OneStageOn(c, tenant, owner, now, around, worker, w, trace[i - 2].action);
  }

  /** What the program does on course depends on the stage alone. */
  lemma StageDecides(tenant: string, owner: string, now: Moment, around: Surroundings, worker: nat, w: World, a: Action)
    requires Intended(tenant, owner, now, around, worker, w, a) && OnCourse(w, worker, around)
    ensures match Stage(w.jobs[worker])
      case 0 => if around.benchmark.Err? then a == Fail(worker)
                else a.Evaluate? && a.worker == worker && a.json == around.benchmark.value.0
                     && a.markdown == around.benchmark.value.1 && a.at == around.generatedAt
      case 1 => a == PutNext(worker, around.ids(0))
      case 2 => a == PutNext(worker, around.ids(1))
      case 3 => a.Commit? && a.worker == worker && a.at == around.completedAt
      case _ => a == Finish(worker) || a == Fail(worker)
  {
    hide RunTable.GetRun, SeenStatus;
  }

  /** The program finishes only a call that has committed. */
  lemma FinishIsLast(tenant: string, owner: string, now: Moment, around: Surroundings, worker: nat, w: World)
    requires Intended(tenant, owner, now, around, worker, w, Finish(worker)) && Sane(w, worker, around)
    ensures OnCourse(w, worker, around) && Stage(w.jobs[worker]) == 4
  {
    hide RunTable.GetRun, SeenStatus;
  }

  /** A failure takes a call off its course. */
  lemma FailLeaves(c: Config, worker: nat, w: World, around: Surroundings)
    requires OnCourse(w, worker, around)
    ensures worker in Happen(c, worker, w, Mine(Fail(worker))).jobs
    ensures Happen(c, worker, w, Mine(Fail(worker))).jobs[worker].phase.Compensating?
  {}

  /** A call that is on course a turn later has not failed. */
  lemma CourseWasKept(c: Config, tenant: string, owner: string, now: Moment, around: Surroundings, worker: nat,
                      origin: World, trace: seq<Happening>, i: nat)
    requires ByProgram(c, tenant, owner, now, around, worker, origin, trace) && i + 2 < |trace| && i % 2 == 0
    requires OnCourse(Point(c, worker, origin, trace, i), worker, around)
    requires OnCourse(Point(c, worker, origin, trace, i + 2), worker, around)
    ensures trace[i] != Mine(Fail(worker))
  {
    hide ByProgram, Intended, Point, FreshFrom, OwnStep, Meanwhile, Happen;
    FailLeaves(c, worker, Point(c, worker, origin, trace, i), around);
    ProgramAt(c, tenant, owner, now, around, worker, origin, trace, i);
    ProgramAt(c, tenant, owner, now, around, worker, origin, trace, i + 1);
    PauseKeepsJob(c, worker, Point(c, worker, origin, trace, i + 1), around.others((i + 1) / 2));
  }

  /**
   A call that ends by finishing did exactly this before, with a pause after each: it claimed, evaluated the
   two reports of its benchmark, put the first and then the second under its two identifiers, and committed.
   */
  lemma FinishedCallDid(c: Config, tenant: string, owner: string, now: Moment, around: Surroundings, worker: nat,
                        origin: World, trace: seq<Happening>)
    requires ByProgram(c, tenant, owner, now, around, worker, origin, trace)
    requires worker !in origin.jobs && UnusedIds(around, origin)
    requires trace != [] && trace[|trace| - 1] == Mine(Finish(worker))
    ensures around.benchmark.Ok? && |trace| >= 11
    ensures var did := trace[|trace| - 11..];
      && did[0] == Mine(Begin(worker, tenant, owner, now))
      && did[2].Mine? && did[2].action.Evaluate? && did[2].action.worker == worker
      && (did[2].action.json, did[2].action.markdown) == around.benchmark.value
      && did[2].action.at == around.generatedAt
      && did[4] == Mine(PutNext(worker, around.ids(0))) && did[6] == Mine(PutNext(worker, around.ids(1)))
      && did[8].Mine? && did[8].action.Commit? && did[8].action.worker == worker
      && did[8].action.at == around.completedAt
  {
    hide ByProgram, Intended, Point, Stage;
    var n := |trace| - 1;
    ProgramAt(c, tenant, owner, now, around, worker, origin, trace, n);
    SaneAt(c, tenant, owner, now, around, worker, origin, trace, n);
    FinishIsLast(tenant, owner, now, around, worker, Point(c, worker, origin, trace, n));
    OneTurnBack(c, tenant, owner, now, around, worker, origin, trace, n);
    OneTurnBack(c, tenant, owner, now, around, worker, origin, trace, n - 2);
    OneTurnBack(c, tenant, owner, now, around, worker, origin, trace, n - 4);
    OneTurnBack(c, tenant, owner, now, around, worker, origin, trace, n - 6);
    OneTurnBack(c, tenant, owner, now, around, worker, origin, trace, n - 8);
    StageDecides(tenant, owner, now, around, worker, Point(c, worker, origin, trace, n - 2), trace[n - 2].action);
    StageDecides(tenant, owner, now, around, worker, Point(c, worker, origin, trace, n - 4), trace[n - 4].action);
    StageDecides(tenant, owner, now, around, worker, Point(c, worker, origin, trace, n - 6), trace[n - 6].action);
    StageDecides(tenant, owner, now, around, worker, Point(c, worker, origin, trace, n - 8), trace[n - 8].action);
    CourseWasKept(c, tenant, owner, now, around, worker, origin, trace, n - 8);
  }
}
