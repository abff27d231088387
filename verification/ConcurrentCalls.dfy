/**
 Calls of `process_next` among other workers and clients: a call is a run of the worker machine, so
 what is proved of the machine's worlds holds of the tables and objects a call leaves.
 */
module ConcurrentCalls {
  import opened Runs
  import opened History
  import opened ArtifactStore
  import opened Worker
  import opened Journal
  import opened Publication
  import opened Service
  import RunTable
  import ArtifactTable

  lemma {:induction false} ProgramStepsAreOwn(c: Config, tenant: string, owner: string, now: Moment,
                                              around: Surroundings, worker: nat, w: World, trace: seq<Happening>,
                                              n: nat)
    requires ByProgram(c, tenant, owner, now, around, worker, w, trace) && n < |trace| && trace[n].Mine?
    ensures !trace[n].action.Client? && trace[n].action.worker == worker
    decreases |trace|
  {
    hide OwnStep, Replay;
    if n < |trace| - 1 {
      ProgramStepsAreOwn(c, tenant, owner, now, around, worker, w, trace[..|trace| - 1], n);
    }
  }

  /** At every pause, others keep the invariant if it held. */
  ghost predicate OthersKeep(c: Config, worker: nat, w: World, trace: seq<Happening>)
  {
    forall n :: 0 <= n < |trace| && trace[n].Pause? ==>
      var before := Replay(c, worker, w, trace[..n]);
      Invariant(c, before) ==> Invariant(c, Meanwhile(before, trace[n].theirs, worker))
  }

  /**
   Whatever a call of `process_next` does and however it ends, artifact rows, stored objects and run
   statuses stay consistent, provided the others it meets in its pauses keep them so.
   */
  lemma {:induction false} CallKeepsInvariant(c: Config, tenant: string, owner: string, now: Moment,
                                              around: Surroundings, worker: nat, w: World, trace: seq<Happening>)
    requires Invariant(c, w) && OthersKeep(c, worker, w, trace)
    requires ByProgram(c, tenant, owner, now, around, worker, w, trace)
    ensures Invariant(c, Replay(c, worker, w, trace))
    decreases |trace|
  {
    hide Invariant, OwnStep;
    if trace != [] {
      var init, last := trace[..|trace| - 1], trace[|trace| - 1];
      forall n | 0 <= n < |init| && init[n].Pause?
        ensures var before := Replay(c, worker, w, init[..n]);
          Invariant(c, before) ==> Invariant(c, Meanwhile(before, init[n].theirs, worker))
      {
        assert init[..n] == trace[..n] && init[n] == trace[n];
      }
      CallKeepsInvariant(c, tenant, owner, now, around, worker, w, init);
      if last.Mine? {
        ProgramStepsAreOwn(c, tenant, owner, now, around, worker, w, trace, |trace| - 1);
        StepKeeps(c, Replay(c, worker, w, init), last.action);
      }
    }
  }

  // ----- the others are the machine's other steps -----

  predicate NotMine(worker: nat, actions: seq<Action>)
  {
    forall a :: a in actions ==> a.Client? || a.worker != worker
  }

  /** A worker's own part of the world is as it was, and records only grew. */
  predicate Undisturbed(worker: nat, before: World, after: World)
  {
    && (worker in after.jobs <==> worker in before.jobs)
    && (worker in before.jobs ==> after.jobs[worker] == before.jobs[worker])
    && (worker in after.started <==> worker in before.started)
    && (forall id :: id in before.minted ==> id in after.minted && after.minted[id] == before.minted[id])
    && before.revoked <= after.revoked && before.lost <= after.lost
  }

  lemma OtherStep(c: Config, worker: nat, w: World, a: Action)
    requires NotMine(worker, [a])
    ensures Undisturbed(worker, w, Step(c, w, a))
  {
    hide Exec, RunTable.ClaimNext, RunTable.Transition, RunTable.TransitionUpdate, ArtifactTable.Publish, Put, PathOf,
      BuildArtifactKey, Delete;
    assert a in [a];
  }

  lemma {:induction false} OtherSteps(c: Config, worker: nat, w: World, others: seq<Action>)
    requires NotMine(worker, others)
    ensures Undisturbed(worker, w, Steps(c, w, others))
    decreases |others|
  {
    hide Step;
    if others != [] {
      OtherSteps(c, worker, w, others[..|others| - 1]);
      OtherStep(c, worker, Steps(c, w, others[..|others| - 1]), others[|others| - 1]);
    }
  }

  /** Whatever clients and other workers do meanwhile, the world they leave still has this worker's part. */
  lemma MeanwhileIsTheirs(c: Config, worker: nat, w: World, others: seq<Action>)
    requires NotMine(worker, others)
    ensures Meanwhile(w, Steps(c, w, others), worker) == Steps(c, w, others)
  {
    hide Steps;
    OtherSteps(c, worker, w, others);
    var after := Steps(c, w, others);
    assert after.minted + w.minted == after.minted;
    assert after.revoked + w.revoked == after.revoked && after.lost + w.lost == after.lost;
    if worker in w.jobs {
      assert after.jobs[worker := w.jobs[worker]] == after.jobs;
    } else {
      assert after.jobs - {worker} == after.jobs;
    }
    assert (if worker in w.started then after.started + {worker} else after.started - {worker}) == after.started;
  }

  /** At each pause, the others take the given steps of clients and other workers. */
  ghost predicate OthersAct(c: Config, worker: nat, w: World, trace: seq<Happening>, others: seq<seq<Action>>)
  {
    && |others| == |trace|
    && forall n :: 0 <= n < |trace| && trace[n].Pause? ==>
         NotMine(worker, others[n]) && trace[n].theirs == Steps(c, Replay(c, worker, w, trace[..n]), others[n])
  }

  /** The call's own steps and those of the others, in the order in which they happened. */
  function Interleaved(trace: seq<Happening>, others: seq<seq<Action>>): seq<Action>
    requires |others| == |trace|
  {
    if trace == [] then []
    else
      var n := |trace| - 1;
      Interleaved(trace[..n], others[..n]) + if trace[n].Mine? then [trace[n].action] else others[n]
  }

  lemma StepsOne(c: Config, w: World, actions: seq<Action>, a: Action)
    ensures Steps(c, w, actions + [a]) == Step(c, Steps(c, w, actions), a)
  {
    hide Step;
  }

  lemma OthersActBefore(c: Config, worker: nat, w: World, trace: seq<Happening>, others: seq<seq<Action>>, i: nat)
    requires OthersAct(c, worker, w, trace, others) && i <= |trace|
    ensures OthersAct(c, worker, w, trace[..i], others[..i])
  {
    hide Replay, Steps;
    assert forall n :: 0 <= n <= i ==> trace[..i][..n] == trace[..n];
  }

  lemma NoSteps(c: Config, w: World)
    ensures Steps(c, w, []) == w
  {}

  /** A call among other workers and clients is a run of the machine. */
  lemma {:induction false} CallIsMachineRun(c: Config, worker: nat, w: World, trace: seq<Happening>,
                                            others: seq<seq<Action>>)
    requires OthersAct(c, worker, w, trace, others)
    requires forall n :: 0 <= n < |trace| && trace[n].Mine? ==> !trace[n].action.Client?
    ensures Replay(c, worker, w, trace) == Steps(c, w, Interleaved(trace, others))
    decreases |trace|
  {
    hide OwnStep, Steps, Meanwhile;
    if trace == [] {
      assert Steps(c, w, []) == w by { NoSteps(c, w); }
    } else {
      var n := |trace| - 1;
      OthersActBefore(c, worker, w, trace, others, n);
      CallIsMachineRun(c, worker, w, trace[..n], others[..n]);
      var before := Interleaved(trace[..n], others[..n]);
      if trace[n].Mine? {
        StepsOne(c, w, before, trace[n].action);
      } else {
        MeanwhileIsTheirs(c, worker, Replay(c, worker, w, trace[..n]), others[n]);
        StepsConcat(c, w, before, others[n]);
      }
    }
  }

  lemma {:induction false} InterleavedPrefix(trace: seq<Happening>, others: seq<seq<Action>>, i: nat)
    requires |others| == |trace| && i <= |trace|
    ensures Interleaved(trace[..i], others[..i]) <= Interleaved(trace, others)
    decreases |trace|
  {
    if i == |trace| {
      assert trace[..i] == trace && others[..i] == others;
    } else {
      var n := |trace| - 1;
      InterleavedPrefix(trace[..n], others[..n], i);
      assert trace[..n][..i] == trace[..i] && others[..n][..i] == others[..i];
    }
  }

  /**
   So a call that starts in a reachable world ends in one, and everything proved of reachable worlds
   holds of the tables and objects it leaves.
   */
  lemma CallEndsReachable(c: Config, past: seq<Action>, tenant: string, owner: string, now: Moment,
                          around: Surroundings, worker: nat, trace: seq<Happening>, others: seq<seq<Action>>, i: nat)
    requires ByProgram(c, tenant, owner, now, around, worker, WorldAt(c, past, |past|), trace)
    requires OthersAct(c, worker, WorldAt(c, past, |past|), trace, others) && i <= |trace|
    requires AllAllowed(c, past + Interleaved(trace, others))
    ensures var whole := past + Interleaved(trace[..i], others[..i]);
      && |whole| <= |past + Interleaved(trace, others)|
      && Replay(c, worker, WorldAt(c, past, |past|), trace[..i])
         == WorldAt(c, past + Interleaved(trace, others), |whole|)
      && Invariant(c, Replay(c, worker, WorldAt(c, past, |past|), trace[..i]))
  {
    hide OwnStep, Steps, Meanwhile, Step, WorldAt, Invariant, AllAllowed, Replay, Interleaved, ByProgram;
    var w := WorldAt(c, past, |past|);
    var all, some := Interleaved(trace, others), Interleaved(trace[..i], others[..i]);
    forall n | 0 <= n < |trace[..i]| && trace[..i][n].Mine?
      ensures !trace[..i][n].action.Client?
    {
      ProgramStepsAreOwn(c, tenant, owner, now, around, worker, w, trace, n);
    }
    OthersActBefore(c, worker, w, trace, others, i);
    CallIsMachineRun(c, worker, w, trace[..i], others[..i]);
    InterleavedPrefix(trace, others, i);
    var rest := all[|some|..];
    assert past + all == (past + some) + rest;
    WorldAtPrefix(c, past, some, |past|);
    WorldAtPrefix(c, past + some, rest, |past + some|);
    InvariantAt(c, past + all, |past + some|);
  }

  /** And others that are steps of an allowed run keep the invariant in every pause. */
  lemma OthersKeepWhenTheyAct(c: Config, past: seq<Action>, tenant: string, owner: string, now: Moment,
                              around: Surroundings, worker: nat, trace: seq<Happening>, others: seq<seq<Action>>)
    requires ByProgram(c, tenant, owner, now, around, worker, WorldAt(c, past, |past|), trace)
    requires OthersAct(c, worker, WorldAt(c, past, |past|), trace, others)
    requires AllAllowed(c, past + Interleaved(trace, others))
    ensures OthersKeep(c, worker, WorldAt(c, past, |past|), trace)
  {
    hide OwnStep, Steps, Meanwhile, Step, WorldAt, Invariant, AllAllowed, Interleaved, ByProgram;
    var w := WorldAt(c, past, |past|);
    forall n | 0 <= n < |trace| && trace[n].Pause?
      ensures Invariant(c, Meanwhile(Replay(c, worker, w, trace[..n]), trace[n].theirs, worker))
    {
      CallEndsReachable(c, past, tenant, owner, now, around, worker, trace, others, n + 1);
      assert trace[..n + 1][..n] == trace[..n];
    }
  }
}
