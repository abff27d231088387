/**
 The statements that the steps of workers and clients commit, in order. They form a history, so
 every theorem about histories holds of the tables of the worker machine.
 */
module Journal {
  import opened Outcome
  import opened Runs
  import opened Database
  import opened Replies
  import opened History
  import opened Worker
  import ArtifactStore
  import Fencing
  import Provenance
  import Queue
  import RunTable
  import ArtifactTable

  /** The events one step commits; a transaction that rolls back commits none. */
  ghost function Entries(w: World, a: Action): History
  {
    match a
    case Client(e) => [e]
    case Begin(worker, tenant, owner, now) =>
      var (db1, r1) := RunTable.ClaimNext(w.db, tenant, owner, now, LEASE_SECONDS);
      if worker in w.started || !r1.Claimed? || r1.claim == None then []
      else
        var claimed := Event(tenant, ClaimNext(owner, now, LEASE_SECONDS));
        var (id, at) := (r1.claim.value.run.id, now.at + MILLISECOND);
        var r2 := RunTable.Transition(db1, tenant, r1.claim.value, Running, at).1;
        if r2 == Flag(true) && id in db1.runs
        then [claimed, Event(tenant, TransitionUpdate(r1.claim.value, db1.runs[id].status, Running, at))]
        else if r2.Raised? then []
        else [claimed]
    case Evaluate(worker, _, _, seen, at) =>
      if worker !in w.jobs || !w.jobs[worker].phase.Benchmarking? then []
      else [Event(w.jobs[worker].tenant, TransitionUpdate(w.jobs[worker].claim, seen, Evaluating, at))]
    case Commit(worker, seen, at) =>
      if worker !in w.jobs || !w.jobs[worker].phase.Writing? || |w.jobs[worker].artifacts| != 2 then []
      else
        var job := w.jobs[worker];
        [Event(job.tenant, Publish(job.artifacts[0], job.artifacts[1], job.claim, seen, at))]
    case FailRun(worker, seen, at) =>
      if worker !in w.jobs || !w.jobs[worker].phase.Compensating? || w.jobs[worker].keys != [] then []
      else [Event(w.jobs[worker].tenant, TransitionUpdate(w.jobs[worker].claim, seen, Failed, at))]
    case _ => []
  }

  /** Everything committed before action `i`. */
  ghost function Log(c: Config, actions: seq<Action>, i: nat): History
    requires i <= |actions|
  {
    if i == 0 then [] else Log(c, actions, i - 1) + Entries(WorldAt(c, actions, i - 1), actions[i - 1])
  }

  lemma {:induction false} AtPrefix(h: History, more: History, i: nat)
    requires i <= |h|
    ensures At(h + more, i) == At(h, i)
  {
    hide Exec;
    if i > 0 { AtPrefix(h, more, i - 1); }
  }

  lemma AtOneMore(h: History, e: Event)
    ensures At(h + [e], |h| + 1) == Exec(At(h, |h|), e).0
  {
    hide Exec;
    AtPrefix(h, [e], |h|);
  }

  lemma BeginCommits(w: World, a: Action, h: History)
    requires a.Begin? && w.db == At(h, |h|)
    ensures BeginStep(w, a.worker, a.tenant, a.owner, a.now).db == At(h + Entries(w, a), |h + Entries(w, a)|)
  {
    hide RunTable.ClaimNext, RunTable.TransitionUpdate, At;
    var (db1, r1) := RunTable.ClaimNext(w.db, a.tenant, a.owner, a.now, LEASE_SECONDS);
    var claimed := Event(a.tenant, ClaimNext(a.owner, a.now, LEASE_SECONDS));
    AtOneMore(h, claimed);
    assert h + [] == h;
    if a.worker !in w.started && r1.Claimed? && r1.claim.Some? {
      var id, at := r1.claim.value.run.id, a.now.at + MILLISECOND;
      var r2 := RunTable.Transition(db1, a.tenant, r1.claim.value, Running, at).1;
      if r2 == Flag(true) {
        var moved := Event(a.tenant, TransitionUpdate(r1.claim.value, db1.runs[id].status, Running, at));
        AtOneMore(h + [claimed], moved);
        assert h + [claimed] + [moved] == h + [claimed, moved];
      }
    }
  }

  lemma RefusedUpdate(db: Db, tenant: string, claim: LeaseClaim, seen: RunStatus, target: RunStatus, at: int)
    ensures var (db', r) := RunTable.TransitionUpdate(db, tenant, claim, seen, target, at);
      r != Flag(true) ==> db' == db
  {}

  lemma CommittedEvent(c: Config, w: World, a: Action)
    requires !a.Begin? && Entries(w, a) != []
    ensures |Entries(w, a)| == 1 && Step(c, w, a).db == Exec(w.db, Entries(w, a)[0]).0
  {
    hide ArtifactStore.Put, ArtifactStore.PathOf, ArtifactStore.BuildArtifactKey, BeginStep, ArtifactTable.Publish,
      RunTable.TransitionUpdate, RunTable.ClaimNext, At;
    if a.Evaluate? {
      RefusedUpdate(w.db, w.jobs[a.worker].tenant, w.jobs[a.worker].claim, a.seen, Evaluating, a.at);
    } else if a.Commit? {
      var job := w.jobs[a.worker];
      ArtifactTable.PublishIsAtomic(w.db, job.tenant, job.artifacts[0], job.artifacts[1], job.claim, a.seen, a.at);
    }
  }

  lemma NothingCommitted(c: Config, w: World, a: Action)
    requires !a.Begin? && Entries(w, a) == []
    ensures Step(c, w, a).db == w.db
  {
    hide ArtifactStore.Put, ArtifactStore.PathOf, ArtifactStore.BuildArtifactKey, BeginStep, ArtifactTable.Publish,
      RunTable.TransitionUpdate, Exec, At;
  }

  /** A step's effect on the tables is that of its entries. */
  lemma StepCommits(c: Config, w: World, a: Action, h: History)
    requires w.db == At(h, |h|)
    ensures Step(c, w, a).db == At(h + Entries(w, a), |h + Entries(w, a)|)
  {
    hide At, Exec, Entries, BeginStep;
    if a.Begin? {
      BeginCommits(w, a, h);
    } else if Entries(w, a) == [] {
      NothingCommitted(c, w, a);
      assert h + [] == h;
    } else {
      CommittedEvent(c, w, a);
      AtOneMore(h, Entries(w, a)[0]);
      assert h + [Entries(w, a)[0]] == h + Entries(w, a);
    }
  }

  /** The tables of the machine are those of its log. */
  lemma {:induction false} TablesAreLogged(c: Config, actions: seq<Action>, i: nat)
    requires i <= |actions|
    ensures WorldAt(c, actions, i).db == At(Log(c, actions, i), |Log(c, actions, i)|)
  {
    hide Step, Exec, Entries;
    if i > 0 {
      TablesAreLogged(c, actions, i - 1);
      StepCommits(c, WorldAt(c, actions, i - 1), actions[i - 1], Log(c, actions, i - 1));
    }
  }

  lemma {:induction false} LogGrows(c: Config, actions: seq<Action>, i: nat, j: nat)
    requires i <= j <= |actions|
    ensures Log(c, actions, i) <= Log(c, actions, j)
    decreases j
  {
    hide Step, Entries;
    if i < j { LogGrows(c, actions, i, j - 1); }
  }

  // ----- the runs considered -----

  /** Clients send what the service sends, new ids are fresh, and creations look before they insert. */
  ghost predicate AllAllowed(c: Config, actions: seq<Action>)
  {
    && (forall i :: 0 <= i < |actions| && actions[i].Client? ==> ClientEvent(actions[i].event))
    && Admissible(Log(c, actions, |actions|))
  }

  /** What one step needs of the tables it meets. */
  ghost predicate Allowed(w: World, a: Action)
  {
    a.Client? ==> ClientEvent(a.event) && Provenance.OwnInsert(w.db, a.event)
  }

  lemma PrefixIsAdmissible(h: History, n: nat)
    requires Admissible(h) && n <= |h|
    ensures Admissible(h[..n])
  {
    hide Exec, At;
    assert h[..n] + h[n..] == h;
    forall j | 0 <= j < n && h[j].command.InsertRun? && h[j].command.run.tenantId == h[j].tenant
      ensures exists i: nat :: i < j && LookedUp(h[..n], i, h[j].tenant, h[j].command.run)
    {
      var i: nat :| i < j && LookedUp(h, i, h[j].tenant, h[j].command.run);
      AtPrefix(h[..n], h[n..], i);
      assert LookedUp(h[..n], i, h[j].tenant, h[j].command.run);
    }
  }

  lemma {:induction false} LogInserts(c: Config, actions: seq<Action>, i: nat)
    requires i <= |actions|
    requires forall n :: 0 <= n < |actions| && actions[n].Client? ==> ClientEvent(actions[n].event)
    ensures ServiceRuns(Log(c, actions, i))
  {
    hide Step, Exec, RunTable.ClaimNext, RunTable.Transition;
    if i > 0 {
      LogInserts(c, actions, i - 1);
      var entries := Entries(WorldAt(c, actions, i - 1), actions[i - 1]);
      assert forall e :: e in entries && e.command.InsertRun? ==> actions[i - 1] == Client(e);
    }
  }

  /** The log of an allowed run is a history of the service's runs, whatever workers did. */
  lemma {:induction false} LogIsAdmissible(c: Config, actions: seq<Action>, i: nat)
    requires AllAllowed(c, actions) && i <= |actions|
    ensures Admissible(Log(c, actions, i)) && ServiceRuns(Log(c, actions, i))
  {
    hide Step, Exec;
    LogGrows(c, actions, i, |actions|);
    var h := Log(c, actions, |actions|);
    assert h[..|Log(c, actions, i)|] == Log(c, actions, i);
    PrefixIsAdmissible(h, |Log(c, actions, i)|);
    LogInserts(c, actions, i);
  }

  /** So every step of an allowed run meets the tables it needs. */
  lemma StepsAreAllowed(c: Config, actions: seq<Action>, i: nat)
    requires AllAllowed(c, actions) && i < |actions|
    ensures Allowed(WorldAt(c, actions, i), actions[i])
  {
    hide Step, Exec, At, Provenance.OwnInsert, Admissible, WorldAt;
    if actions[i].Client? {
      var h, n := Log(c, actions, i + 1), |Log(c, actions, i)|;
      LogIsAdmissible(c, actions, i + 1);
      assert h == Log(c, actions, i) + [actions[i].event];
      Provenance.InsertsStayOwn(h, n);
      AtPrefix(Log(c, actions, i), [actions[i].event], n);
      TablesAreLogged(c, actions, i);
    }
  }

  /** Every row of every reachable world satisfies the row invariant. */
  lemma WorldsAreReachable(c: Config, actions: seq<Action>, i: nat)
    requires AllAllowed(c, actions) && i <= |actions|
    ensures Queue.AllReachable(WorldAt(c, actions, i).db)
  {
    hide Exec, Step, WorldAt, Log, AllAllowed, Queue.AllReachable;
    TablesAreLogged(c, actions, i);
    LogIsAdmissible(c, actions, i);
    Queue.ReachableAt(Log(c, actions, i), |Log(c, actions, i)|);
  }

  /** So reading a run never trips its entity's validation: the read after a commit fails for outside reasons only. */
  lemma RunReadsNeverRaise(c: Config, actions: seq<Action>, i: nat, tenant: string, id: string)
    requires AllAllowed(c, actions) && i <= |actions|
    ensures RunTable.GetRun(WorldAt(c, actions, i).db, tenant, id).RunFound?
  {
    hide Exec, Step, WorldAt, Log, AllAllowed;
    var h := Log(c, actions, i);
    TablesAreLogged(c, actions, i);
    LogIsAdmissible(c, actions, i);
    Fencing.ReadsNeverRaise(h, |h|, tenant, id, "", "", "", Moment(0, false), 0);
  }

  // ----- extending a run by worker steps -----

  predicate NoInsert(h: History)
  {
    forall e :: e in h ==> !e.command.AddProject? && !e.command.InsertRun?
  }

  lemma AdmissibleWithMore(h: History, more: History)
    requires Admissible(h) && NoInsert(more)
    ensures Admissible(h + more)
  {
    hide Exec, At;
    var all := h + more;
    assert forall j :: |h| <= j < |all| ==> all[j] in more;
    forall j | 0 <= j < |all| && all[j].command.InsertRun? && all[j].command.run.tenantId == all[j].tenant
      ensures exists i: nat :: i < j && LookedUp(all, i, all[j].tenant, all[j].command.run)
    {
      assert j < |h| && all[j] == h[j];
      var i: nat :| i < j && LookedUp(h, i, h[j].tenant, h[j].command.run);
      AtPrefix(h, more, i);
      assert LookedUp(all, i, all[j].tenant, all[j].command.run);
    }
  }

  lemma {:induction false} LogPrefix(c: Config, actions: seq<Action>, more: seq<Action>, i: nat)
    requires i <= |actions|
    ensures Log(c, actions + more, i) == Log(c, actions, i)
  {
    hide Step, Entries, WorldAt;
    if i > 0 {
      LogPrefix(c, actions, more, i - 1);
      WorldAtPrefix(c, actions, more, i - 1);
    }
  }

  lemma WorkerEntry(w: World, a: Action)
    requires !a.Client?
    ensures NoInsert(Entries(w, a))
  {
    hide RunTable.ClaimNext, RunTable.Transition;
  }

  /** Whatever workers do next, the run stays one of those considered. */
  lemma {:induction false} WorkersMayGoOn(c: Config, actions: seq<Action>, more: seq<Action>)
    requires AllAllowed(c, actions) && forall a :: a in more ==> !a.Client?
    ensures AllAllowed(c, actions + more)
    decreases |more|
  {
    hide Step, Entries, Admissible, WorldAt;
    if more == [] {
      assert actions + more == actions;
    } else {
      var init, last := more[..|more| - 1], more[|more| - 1];
      var before := actions + init;
      WorkersMayGoOn(c, actions, init);
      assert actions + more == before + [last];
      LogPrefix(c, before, [last], |before|);
      WorldAtPrefix(c, before, [last], |before|);
      var entries := Entries(WorldAt(c, before, |before|), last);
      WorkerEntry(WorldAt(c, before, |before|), last);
      AdmissibleWithMore(Log(c, before, |before|), entries);
      assert Log(c, before + [last], |before| + 1) == Log(c, before, |before|) + entries;
    }
  }
}
