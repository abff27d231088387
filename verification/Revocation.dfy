/**
 When the exception handler of `process_next` destroys published reports: exactly when the call
 failed after its commit and then deleted the object.
 */
module Revocation {
  import opened Outcome
  import opened History
  import opened ArtifactStore
  import opened Worker
  import opened Journal
  import opened Publication
  import opened Objects
  import Atomicity
  import RunTable
  import ArtifactTable

  /** Action `m` is an exception of worker `k` after its commit. */
  ghost predicate FailsLate(c: Config, actions: seq<Action>, m: nat, k: nat)
  {
    && m < |actions| && actions[m] == Fail(k)
    && k in WorldAt(c, actions, m).jobs && WorldAt(c, actions, m).jobs[k].phase.Committed?
  }

  /** Action `d` is worker `k`, in its handler, deleting the object at `path`. */
  ghost predicate Deletes(c: Config, actions: seq<Action>, d: nat, k: nat, path: seq<string>)
  {
    && d < |actions| && actions[d] == DeleteNext(k)
    && DeletesNow(WorldAt(c, actions, d), k, path)
  }

  // ----- one step -----

  /** A step revokes a path exactly when it deletes it in the handler of a committed call. */
  lemma StepRevokes(c: Config, w: World, a: Action, path: seq<string>)
    requires Invariant(c, w)
    ensures path in Step(c, w, a).revoked <==>
      path in w.revoked || (a.DeleteNext? && DeletesNow(w, a.worker, path) && w.jobs[a.worker].phase.committed)
  {
    hide Invariant, Exec, RunTable.ClaimNext, RunTable.Transition, RunTable.TransitionUpdate, ArtifactTable.Publish,
      Put, PathOf, BuildArtifactKey, Names, MadeBy, Held;
    if a.DeleteNext? && DeletesNow(w, a.worker, path) {
      JobOf(c, w, a.worker);
    }
  }

  /** A call is in its handler after a commit exactly when it was before, or fails now after its commit. */
  lemma StepLate(c: Config, w: World, a: Action, k: nat)
    requires k in Step(c, w, a).jobs
    requires k in w.jobs ==> k in w.started
    ensures Step(c, w, a).jobs[k].phase == Compensating(true) <==>
      k in w.jobs && (w.jobs[k].phase == Compensating(true) || (a == Fail(k) && w.jobs[k].phase.Committed?))
  {
    hide Exec, RunTable.ClaimNext, RunTable.Transition, RunTable.TransitionUpdate, ArtifactTable.Publish, Put, PathOf,
      BuildArtifactKey, Delete;
  }

  /** A worker number is used for one call. */
  lemma StepStarted(c: Config, w: World, a: Action, k: nat)
    requires k in w.started
    ensures k in Step(c, w, a).started && (k in Step(c, w, a).jobs ==> k in w.jobs)
  {
    hide Exec, RunTable.ClaimNext, RunTable.Transition, RunTable.TransitionUpdate, ArtifactTable.Publish, Put, PathOf,
      BuildArtifactKey, Delete;
  }

  // ----- whole runs -----

  lemma {:induction false} StartedStays(c: Config, actions: seq<Action>, m: nat, i: nat, k: nat)
    requires AllAllowed(c, actions) && m <= i <= |actions| && k in WorldAt(c, actions, m).jobs
    ensures k in WorldAt(c, actions, i).started
    ensures k in WorldAt(c, actions, i).jobs ==> forall j: nat :: m <= j <= i ==> k in WorldAt(c, actions, j).jobs
    decreases i
  {
    hide Step, Invariant, AllAllowed, WorldAt;
    if m == i {
      InvariantAt(c, actions, i);
      JobOf(c, WorldAt(c, actions, i), k);
    } else {
      StartedStays(c, actions, m, i - 1, k);
      WorldNext(c, actions, i - 1);
      StepStarted(c, WorldAt(c, actions, i - 1), actions[i - 1], k);
    }
  }

  /** A running call is in its handler after a commit exactly when it failed late. */
  lemma {:induction false} LateExactly(c: Config, actions: seq<Action>, i: nat, k: nat)
    requires AllAllowed(c, actions) && i <= |actions| && k in WorldAt(c, actions, i).jobs
    ensures WorldAt(c, actions, i).jobs[k].phase == Compensating(true) <==>
      exists m: nat :: m < i && FailsLate(c, actions, m, k)
    decreases i
  {
    hide Step, Invariant, AllAllowed, WorldAt;
    if i == 0 {
      NothingAtStart(c, actions);
    } else {
      WorldNext(c, actions, i - 1);
      var w, a := WorldAt(c, actions, i - 1), actions[i - 1];
      StepLate(c, w, a, k);
      if k in w.jobs {
        LateExactly(c, actions, i - 1, k);
        assert FailsLate(c, actions, i - 1, k) <==> a == Fail(k) && w.jobs[k].phase.Committed?;
      } else if m: nat :| m < i && FailsLate(c, actions, m, k) {
        StartedStays(c, actions, m, i, k);
        assert false;
      }
    }
  }

  /** Worker `k` failed late at `m` and deleted `path` at `d`. */
  ghost predicate RevokedBy(c: Config, actions: seq<Action>, i: nat, path: seq<string>, k: nat, m: nat, d: nat)
  {
    m < d < i && FailsLate(c, actions, m, k) && Deletes(c, actions, d, k, path)
  }

  lemma DeletesInHandler(w: World, k: nat, path: seq<string>)
    requires DeletesNow(w, k, path)
    ensures k in w.jobs && w.jobs[k].phase.Compensating?
  {}

  /** An object is revoked exactly when some call failed after its commit and then deleted that object. */
  lemma {:induction false} RevokedExactly(c: Config, actions: seq<Action>, i: nat, path: seq<string>)
    requires AllAllowed(c, actions) && i <= |actions|
    ensures path in WorldAt(c, actions, i).revoked
       <==> exists k: nat, m: nat, d: nat :: RevokedBy(c, actions, i, path, k, m, d)
    decreases i
  {
    hide Step, Invariant, AllAllowed, WorldAt, FailsLate, DeletesNow;
    if i == 0 {
      NothingAtStart(c, actions);
    } else {
      var w, a := WorldAt(c, actions, i - 1), actions[i - 1];
      RevokedExactly(c, actions, i - 1, path);
      WorldNext(c, actions, i - 1);
      StepRevokes(c, w, a, path);
      if a.DeleteNext? && DeletesNow(w, a.worker, path) {
        assert a.worker in w.jobs && w.jobs[a.worker].phase.Compensating? by { DeletesInHandler(w, a.worker, path); }
        LateExactly(c, actions, i - 1, a.worker);
        if w.jobs[a.worker].phase.committed {
          var m: nat :| m < i - 1 && FailsLate(c, actions, m, a.worker);
          assert RevokedBy(c, actions, i, path, a.worker, m, i - 1);
        }
      }
      if path in w.revoked {
        var k: nat, m: nat, d: nat :| RevokedBy(c, actions, i - 1, path, k, m, d);
        assert RevokedBy(c, actions, i, path, k, m, d);
      }
      forall k: nat, m: nat, d: nat | RevokedBy(c, actions, i, path, k, m, d)
        ensures path in WorldAt(c, actions, i).revoked
      {
        if d < i - 1 {
          assert RevokedBy(c, actions, i - 1, path, k, m, d);
        } else {
          assert a == DeleteNext(k) && DeletesNow(w, k, path);
        }
      }
    }
  }

  lemma MintedGrows(c: Config, w: World, a: Action, path: seq<string>, k: nat)
    requires MadeBy(w, path, k)
    ensures MadeBy(Step(c, w, a), path, k)
  {
    hide Exec, RunTable.ClaimNext, RunTable.Transition, RunTable.TransitionUpdate, ArtifactTable.Publish, Put, PathOf,
      BuildArtifactKey, Delete, Names;
    var x :| x in w.minted && w.minted[x] == k && Names(path, x);
    assert x in Step(c, w, a).minted && Step(c, w, a).minted[x] == k;
  }

  lemma {:induction false} MakerStays(c: Config, actions: seq<Action>, d: nat, i: nat, path: seq<string>, k: nat)
    requires AllAllowed(c, actions) && d <= i <= |actions| && MadeBy(WorldAt(c, actions, d), path, k)
    ensures MadeBy(WorldAt(c, actions, i), path, k)
    decreases i
  {
    hide Step, Invariant, AllAllowed, WorldAt, MadeBy;
    if d < i {
      MakerStays(c, actions, d, i - 1, path, k);
      WorldNext(c, actions, i - 1);
      MintedGrows(c, WorldAt(c, actions, i - 1), actions[i - 1], path, k);
    }
  }

  /** Only the maker of an object revokes it, so no failure of any other call, of whatever tenant, endangers it. */
  lemma RevocationNeedsLateFailure(c: Config, actions: seq<Action>, i: nat, path: seq<string>) returns (k: nat, m: nat)
    requires AllAllowed(c, actions) && i <= |actions| && path in WorldAt(c, actions, i).revoked
    ensures m < i && FailsLate(c, actions, m, k) && MadeBy(WorldAt(c, actions, i), path, k)
  {
    hide Step, Invariant, AllAllowed, WorldAt, MadeBy, FailsLate, PathOf;
    RevokedExactly(c, actions, i, path);
    var d;
    k, m, d :| RevokedBy(c, actions, i, path, k, m, d);
    InvariantAt(c, actions, d);
    KeyMade(c, WorldAt(c, actions, d), k, 0);
    MakerStays(c, actions, d, i, path, k);
  }

  /**
   The object of a row published by moment `i` is intact at any later moment `j` exactly when no call had
   failed after its commit and then deleted it.
   */
  lemma ObjectsMatchUnlessLateFailure(c: Config, actions: seq<Action>, i: nat, j: nat, a: string)
    requires AllAllowed(c, actions) && i <= j <= |actions|
    requires a in WorldAt(c, actions, i).db.artifacts
    ensures var row, w := WorldAt(c, actions, i).db.artifacts[a], WorldAt(c, actions, j);
      && PathOf(row.objectKey).Ok?
      && (Read(w.tree, c.sha256, row.objectKey, Some(row.sha256)).Ok? <==>
            !exists k: nat, m: nat, d: nat :: RevokedBy(c, actions, j, PathOf(row.objectKey).value, k, m, d))
  {
    hide Step, Invariant, AllAllowed, WorldAt, PathOf, Read, RevokedBy;
    Atomicity.ObjectsMatchUnlessRevoked(c, actions, i, j, a);
    RevokedExactly(c, actions, j, PathOf(WorldAt(c, actions, i).db.artifacts[a].objectKey).value);
  }

  // ----- the loss itself -----

  /** The handler's steps of a call that put two objects. */
  function LateFailure(worker: nat): seq<Action>
  {
    [Fail(worker), DeleteNext(worker), DeleteNext(worker)]
  }

  lemma StepsThree(c: Config, w: World, a: Action, b: Action, d: Action)
    ensures Steps(c, w, [a, b, d]) == Step(c, Step(c, Step(c, w, a), b), d)
  {
    hide Step;
    assert [a, b, d][..2] == [a, b] && [a, b][..1] == [a] && [a][..0] == [];
    assert Steps(c, w, [a]) == Step(c, w, a);
    assert Steps(c, w, [a, b]) == Step(c, Step(c, w, a), b);
  }

  lemma HandlerDeletesBoth(c: Config, w: World, worker: nat)
    requires Invariant(c, w) && worker in w.jobs && w.jobs[worker].phase.Committed?
    ensures var w3 := Steps(c, w, LateFailure(worker));
      && |w.jobs[worker].keys| == 2 && w3.db == w.db
      && forall n :: 0 <= n < 2 ==>
           && PathOf(w.jobs[worker].keys[n]).Ok?
           && PathOf(w.jobs[worker].keys[n]).value in w3.revoked
           && Read(w3.tree, c.sha256, w.jobs[worker].keys[n], None).Err?
  {
    hide Invariant, PathOf, Exec, Names, MadeBy, Held, Steps;
    JobOf(c, w, worker);
    var keys := w.jobs[worker].keys;
    StepsThree(c, w, Fail(worker), DeleteNext(worker), DeleteNext(worker));
    var w1 := Step(c, w, Fail(worker));
    assert w1.jobs[worker].keys == keys && w1.jobs[worker].phase == Compensating(true);
    var w2 := Step(c, w1, DeleteNext(worker));
    assert w2.jobs[worker].keys == [keys[1]] by { assert keys[1..] == [keys[1]]; }
  }

  /**
   The exception handler does not know that the commit succeeded: whenever the read after it raises,
   the handler may go on to delete the published objects; the tables stay and both reports are gone.
   */
  lemma FailureAfterCommitLosesReports(c: Config, actions: seq<Action>, worker: nat)
    requires AllAllowed(c, actions)
    requires var w := WorldAt(c, actions, |actions|); worker in w.jobs && w.jobs[worker].phase.Committed?
    ensures var w := WorldAt(c, actions, |actions|);
      var late := actions + LateFailure(worker);
      var lost := WorldAt(c, late, |late|);
      && AllAllowed(c, late) && lost.db == w.db && |w.jobs[worker].keys| == 2
      && forall n :: 0 <= n < 2 ==>
           && PathOf(w.jobs[worker].keys[n]).Ok?
           && PathOf(w.jobs[worker].keys[n]).value in lost.revoked
           && Read(lost.tree, c.sha256, w.jobs[worker].keys[n], None).Err?
  {
    hide Step, Invariant, AllAllowed, WorldAt, PathOf, Read;
    InvariantAt(c, actions, |actions|);
    HandlerDeletesBoth(c, WorldAt(c, actions, |actions|), worker);
    WorkersMayGoOn(c, actions, LateFailure(worker));
    WorldAtPrefix(c, actions, LateFailure(worker), |actions|);
  }
}
