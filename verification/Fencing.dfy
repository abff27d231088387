/**
 The lease and fencing protocol over whole histories: which claims can act, how statuses move,
 what every reachable row looks like, and why leases of successive attempts never overlap.
 */
module Fencing {
  import opened Outcome
  import opened Runs
  import opened Database
  import opened Replies
  import opened History
  import opened Provenance
  import RunTable
  import ArtifactTable
  import ProjectTable

  /** Event `i` changed run `id`. */
  ghost predicate Changes(h: History, i: nat, id: string)
    requires i < |h|
  {
    Touches(h[i].command, ReplyAt(h, i), id)
  }

  /** Event `i` handed out `claim`. */
  ghost predicate Issues(h: History, i: nat, claim: LeaseClaim)
    requires i < |h|
  {
    h[i].command.ClaimNext? && ReplyAt(h, i) == Claimed(Some(claim))
  }

  ghost predicate IssuesFor(h: History, i: nat, id: string)
    requires i < |h|
  {
    h[i].command.ClaimNext? && Changes(h, i, id)
  }

  /** The statement acts under `claim`. */
  predicate Carries(c: Command, claim: LeaseClaim)
  {
    match c
    case Heartbeat(own, _, _) => own == claim
    case TransitionUpdate(own, _, _, _) => own == claim
    case Publish(_, _, own, _, _) => own == claim
    case _ => false
  }

  /** A statement under a lease, or a cancel, succeeds exactly when it changes its run; otherwise nothing changes. */
  lemma SucceedsOrInert(h: History, i: nat, id: string)
    requires i < |h|
    requires (exists claim :: Carries(h[i].command, claim) && claim.run.id == id)
             || (h[i].command.CancelUpdate? && h[i].command.runId == id)
    ensures ReplyAt(h, i) == Flag(true) <==> Changes(h, i, id)
    ensures ReplyAt(h, i) != Flag(true) ==> At(h, i + 1) == At(h, i)
  {
    UnfoldPublish(At(h, i), h[i]);
    hide ArtifactTable.Publish;
  }

  /** `StepRun` at event `i` of a history. */
  lemma StepAt(h: History, i: nat, id: string)
    requires i < |h| && id in At(h, i).runs
    ensures id in At(h, i + 1).runs || h[i].command.DeleteProject?
    ensures Changes(h, i, id) ==>
      id in At(h, i + 1).runs && Guard(h[i].tenant, h[i].command, At(h, i).runs[id])
      && At(h, i + 1).runs[id] == Updated(h[i].command, At(h, i).runs[id])
    ensures id in At(h, i + 1).runs && !Changes(h, i, id) ==> At(h, i + 1).runs[id] == At(h, i).runs[id]
  {
    hide Exec;
    KeyedAt(h, i);
    StepRun(At(h, i), h[i], id);
  }

  /** Only a run that is there can be changed. */
  lemma ChangedRunExists(h: History, i: nat, id: string)
    requires i < |h| && Changes(h, i, id)
    ensures id in At(h, i).runs
  {
    hide Exec;
    KeyedAt(h, i);
    if id !in At(h, i).runs { StepNewRun(At(h, i), h[i], id); }
  }

  // ----- statuses only move forward -----

  /** `x` is no later than `y` in the order of (fencing token, status rank). */
  predicate NotAfter(x: Run, y: Run)
  {
    x.fencingToken < y.fencingToken || (x.fencingToken == y.fencingToken && x.status.Rank() <= y.status.Rank())
  }

  predicate StrictlyBefore(x: Run, y: Run)
  {
    x.fencingToken < y.fencingToken || (x.fencingToken == y.fencingToken && x.status.Rank() < y.status.Rank())
  }

  /**
   In any tables whatever, a write that changes a status follows an edge of the status machine
   under the same token, or reclaims an active run to PREPARING under the next token; and every
   status write moves (token, rank) strictly up.
   */
  lemma StatusWritesAreLegal(db: Db, e: Event, id: string)
    requires Keyed(db) && id in db.runs && id in Exec(db, e).0.runs
    ensures var before, after := db.runs[id], Exec(db, e).0.runs[id];
      || (after.status == before.status && after.fencingToken == before.fencingToken)
      || (StrictlyBefore(before, after)
          && after.status in Transitions(before.status) && after.fencingToken == before.fencingToken)
      || (StrictlyBefore(before, after) && e.command.ClaimNext? && before.status.Active()
          && after.status == Preparing && after.fencingToken == before.fencingToken + 1)
  {
    StepRun(db, e, id);
  }

  /** (token, rank) never goes down while a run lives. */
  lemma {:induction false} Progress(h: History, i: nat, j: nat, id: string)
    requires FreshIds(h) && i <= j <= |h|
    requires id in At(h, i).runs && id in At(h, j).runs
    ensures NotAfter(At(h, i).runs[id], At(h, j).runs[id])
    decreases j
  {
    hide Exec;
    if i < j {
      RunLivesBetween(h, i, j - 1, j, id);
      Progress(h, i, j - 1, id);
      KeyedAt(h, j - 1);
      StatusWritesAreLegal(At(h, j - 1), h[j - 1], id);
    }
  }

  /** A terminal run is frozen: no later statement changes any of its columns. */
  lemma {:induction false} TerminalIsFrozen(h: History, i: nat, j: nat, id: string)
    requires FreshIds(h) && i <= j <= |h|
    requires id in At(h, i).runs && At(h, i).runs[id].status.Terminal()
    requires id in At(h, j).runs
    ensures At(h, j).runs[id] == At(h, i).runs[id]
    decreases j
  {
    hide Exec;
    if i < j {
      RunLivesBetween(h, i, j - 1, j, id);
      TerminalIsFrozen(h, i, j - 1, id);
      StepAt(h, j - 1, id);
    }
  }

  /** A (token, status) pair that was left is never seen again. */
  lemma NoReturn(h: History, i: nat, k: nat, j: nat, id: string)
    requires FreshIds(h) && i <= k <= j <= |h|
    requires id in At(h, i).runs && id in At(h, j).runs
    requires At(h, i).runs[id].status == At(h, j).runs[id].status
    requires At(h, i).runs[id].fencingToken == At(h, j).runs[id].fencingToken
    ensures id in At(h, k).runs
    ensures At(h, k).runs[id].status == At(h, i).runs[id].status
    ensures At(h, k).runs[id].fencingToken == At(h, i).runs[id].fencingToken
  {
    hide Exec;
    RunLivesBetween(h, i, k, j, id);
    Progress(h, i, k, id);
    Progress(h, k, j, id);
    if At(h, i).runs[id].status.Terminal() {
      TerminalIsFrozen(h, i, k, id);
    }
  }

  /** No statement changes a terminal run. */
  lemma TerminalResists(h: History, j: nat, id: string)
    requires j < |h| && id in At(h, j).runs && At(h, j).runs[id].status.Terminal()
    ensures !Changes(h, j, id)
  {
    hide Exec, Changes, Touches, Updated;
    StepAt(h, j, id);
  }

  lemma TerminalWrite(h: History, i: nat, id: string)
    requires i < |h| && id in At(h, i).runs
    requires Changes(h, i, id) && Updated(h[i].command, At(h, i).runs[id]).status.Terminal()
    ensures id in At(h, i + 1).runs && At(h, i + 1).runs[id].status.Terminal()
  {
    hide Exec, Changes, Touches, Updated, Guard;
    StepAt(h, i, id);
  }

  /** At most one terminal write per run, ever. */
  lemma OneTerminalWrite(h: History, i: nat, j: nat, id: string)
    requires FreshIds(h) && i < j < |h|
    requires id in At(h, i).runs
    requires Changes(h, i, id) && Updated(h[i].command, At(h, i).runs[id]).status.Terminal()
    ensures !Changes(h, j, id)
  {
    hide Exec, Changes, Touches, Updated, Guard, At;
    TerminalWrite(h, i, id);
    if Changes(h, j, id) {
      ChangedRunExists(h, j, id);
      TerminalIsFrozen(h, i + 1, j, id);
      TerminalResists(h, j, id);
    }
  }

  /** The update completes or cancels run `id`, and its own guard holds now. */
  predicate EndsRun(db: Db, e: Event, id: string)
  {
    match e.command
    case TransitionUpdate(claim, seen, target, at) =>
      claim.run.id == id && target == Completed && seen == Evaluating && RunTable.CanMove(db, e.tenant, claim, seen, at)
    case Publish(json, markdown, claim, seen, at) =>
      claim.run.id == id && ArtifactTable.CanPublish(db, e.tenant, json, markdown, claim, seen, at)
    case CancelUpdate(runId, at) => runId == id && RunTable.CanCancel(db, e.tenant, id)
    case _ => false
  }

  predicate CompletesOrCancels(c: Command, id: string)
  {
    || (c.TransitionUpdate? && c.claim.run.id == id && c.target == Completed)
    || (c.Publish? && c.claim.run.id == id)
    || (c.CancelUpdate? && c.runId == id)
  }

  lemma EnabledEndSucceeds(h: History, i: nat, id: string)
    requires i < |h| && EndsRun(At(h, i), h[i], id)
    ensures ReplyAt(h, i) == Flag(true) && Changes(h, i, id) && id in At(h, i).runs
    ensures Updated(h[i].command, At(h, i).runs[id]).status.Terminal()
  {
    UnfoldPublish(At(h, i), h[i]);
    hide ArtifactTable.Publish;
  }

  /**
   A cancel racing a completion: the first of the two updates whose guard holds wins, and the
   other, at any later time and whatever happened in between, has no effect at all.
   */
  lemma CancelCompleteRace(h: History, i: nat, j: nat, id: string)
    requires FreshIds(h) && i < j < |h|
    requires EndsRun(At(h, i), h[i], id)
    requires CompletesOrCancels(h[j].command, id)
    ensures ReplyAt(h, i) == Flag(true) && ReplyAt(h, j) != Flag(true)
    ensures At(h, j + 1) == At(h, j)
  {
    hide Exec;
    EnabledEndSucceeds(h, i, id);
    assert h[j].command.CancelUpdate? || Carries(h[j].command, h[j].command.claim);
    SucceedsOrInert(h, j, id);
    OneTerminalWrite(h, i, j, id);
  }

  // ----- every reachable row -----

  /** What holds of every row of a run the service created. */
  ghost predicate RowInvariant(row: Run)
  {
    && row.Valid()
    && row.attempt == row.fencingToken
    && (row.status == Queued ==> row.fencingToken == 0)
    && (row.status.Leased() ==> row.fencingToken > 0)
    && (row.status.Leased() <==> row.leaseOwner.Some?)
    && (row.status.Leased() <==> row.leaseExpiresAt.Some?)
    && (row.leaseOwner.Some? ==> 0 < |row.leaseOwner.value| <= 128)
  }

  lemma UpdateKeepsInvariant(tenant: string, c: Command, row: Run)
    requires RowInvariant(row) && Guard(tenant, c, row)
    ensures RowInvariant(Updated(c, row))
    ensures Updated(c, row).version == row.version + 1
  {}

  /** How many of the first `i` events changed run `id`. */
  ghost function ChangeCount(h: History, i: nat, id: string): nat
    requires i <= |h|
  {
    if i == 0 then 0 else ChangeCount(h, i - 1, id) + if Changes(h, i - 1, id) then 1 else 0
  }

  lemma {:induction false} NoChangeBeforeInsert(h: History, i: nat, j: nat, id: string)
    requires FreshIds(h) && i <= j < |h| && InsertsRun(h[j], id)
    ensures id !in At(h, i).runs && ChangeCount(h, i, id) == 0
  {
    hide Exec;
    if i > 0 {
      NoChangeBeforeInsert(h, i - 1, j, id);
      KeyedAt(h, i - 1);
      StepNewRun(At(h, i - 1), h[i - 1], id);
    }
  }

  /** Every reachable row satisfies the invariant, and its version counts its successful mutations. */
  lemma {:induction false} RowInvariantAt(h: History, i: nat, id: string)
    requires FreshIds(h) && ServiceRuns(h) && i <= |h| && id in At(h, i).runs
    ensures RowInvariant(At(h, i).runs[id])
    ensures At(h, i).runs[id].version == 1 + ChangeCount(h, i, id)
  {
    hide Exec;
    if id in At(h, i - 1).runs {
      RowInvariantAt(h, i - 1, id);
      StepAt(h, i - 1, id);
      if Changes(h, i - 1, id) {
        UpdateKeepsInvariant(h[i - 1].tenant, h[i - 1].command, At(h, i - 1).runs[id]);
      }
    } else {
      KeyedAt(h, i - 1);
      StepNewRun(At(h, i - 1), h[i - 1], id);
      NoChangeBeforeInsert(h, i - 1, i - 1, id);
    }
  }

  /** Hence no read of a run, and no claim with acceptable arguments, ever raises. */
  lemma ReadsNeverRaise(h: History, i: nat, tenant: string, id: string, key: string, projectId: string,
                        owner: string, now: Moment, leaseSeconds: int)
    requires FreshIds(h) && ServiceRuns(h) && i <= |h|
    ensures RunTable.GetRun(At(h, i), tenant, id).RunFound?
    ensures RunTable.LookupRun(At(h, i), tenant, key, projectId).Looked?
    ensures LeaseArgumentsOk(owner, now, leaseSeconds) ==>
      RunTable.ClaimNext(At(h, i), tenant, owner, now, leaseSeconds).1.Claimed?
  {
    hide Exec;
    var db := At(h, i);
    KeyedAt(h, i);
    forall r | r in db.runs
      ensures RowInvariant(db.runs[r])
    {
      RowInvariantAt(h, i, r);
    }
    assert forall r :: r in db.runs ==> db.runs[r].Valid();
  }

  // ----- fencing -----

  ghost predicate LatestIssue(h: History, k: nat, i: nat, id: string, owner: string, token: int)
    requires k < i <= |h|
  {
    && IssuesFor(h, k, id)
    && ReplyAt(h, k).claim.value.owner == owner
    && ReplyAt(h, k).claim.value.fencingToken == token
    && forall m: nat :: k < m < i ==> !IssuesFor(h, m, id)
  }

  /** The claim handed out by event `i` names the row it just wrote, with the next token. */
  lemma IssuedToken(h: History, i: nat, claim: LeaseClaim)
    requires i < |h| && Issues(h, i, claim)
    ensures IssuesFor(h, i, claim.run.id)
    ensures claim.run.id in At(h, i).runs && claim.run.id in At(h, i + 1).runs
    ensures At(h, i + 1).runs[claim.run.id] == claim.run
    ensures claim.fencingToken == claim.run.fencingToken == At(h, i).runs[claim.run.id].fencingToken + 1
    ensures claim.run.leaseOwner == Some(claim.owner)
  {
    KeyedAt(h, i);
  }

  /** Whoever holds a lease got it from the latest claim of that run. */
  lemma {:induction false} LeaseComesFromLatestClaim(h: History, i: nat, id: string)
    requires FreshIds(h) && ServiceRuns(h) && i <= |h|
    requires id in At(h, i).runs && At(h, i).runs[id].leaseOwner.Some?
    ensures var row := At(h, i).runs[id];
      exists k: nat :: k < i && LatestIssue(h, k, i, id, row.leaseOwner.value, row.fencingToken)
  {
    hide Exec;
    var row := At(h, i).runs[id];
    KeyedAt(h, i - 1);
    if id !in At(h, i - 1).runs {
      StepNewRun(At(h, i - 1), h[i - 1], id);
      assert false;
    }
    StepAt(h, i - 1, id);
    if IssuesFor(h, i - 1, id) {
      IssuedToken(h, i - 1, ReplyAt(h, i - 1).claim.value);
      assert LatestIssue(h, i - 1, i, id, row.leaseOwner.value, row.fencingToken);
    } else {
      assert At(h, i - 1).runs[id].leaseOwner == row.leaseOwner;
      LeaseComesFromLatestClaim(h, i - 1, id);
      var k: nat :| k < i - 1 && LatestIssue(h, k, i - 1, id, row.leaseOwner.value, row.fencingToken);
      assert LatestIssue(h, k, i, id, row.leaseOwner.value, row.fencingToken);
    }
  }

  /**
   Fencing safety, with no assumption about clocks: a heartbeat, transition or publication that
   takes effect carries the owner and token of the latest claim issued for its run.
   */
  lemma OnlyLatestClaimActs(h: History, j: nat, claim: LeaseClaim)
    requires FreshIds(h) && ServiceRuns(h) && j < |h|
    requires Carries(h[j].command, claim) && At(h, j + 1) != At(h, j)
    ensures exists k: nat :: k < j && LatestIssue(h, k, j, claim.run.id, claim.owner, claim.fencingToken)
  {
    hide Exec;
    SucceedsOrInert(h, j, claim.run.id);
    ChangedRunExists(h, j, claim.run.id);
    StepAt(h, j, claim.run.id);
    LeaseComesFromLatestClaim(h, j, claim.run.id);
  }

  /** The tokens issued for a run strictly increase, so each names one claim. */
  lemma TokensStrictlyIncrease(h: History, i: nat, j: nat, first: LeaseClaim, second: LeaseClaim)
    requires FreshIds(h) && i < j < |h|
    requires Issues(h, i, first) && Issues(h, j, second) && first.run.id == second.run.id
    ensures first.fencingToken < second.fencingToken
  {
    hide Exec;
    IssuedToken(h, i, first);
    IssuedToken(h, j, second);
    Progress(h, i + 1, j, first.run.id);
  }

  /** Once a newer claim exists, a worker holding an older one can change nothing. */
  lemma StaleClaimIsInert(h: History, i: nat, k: nat, j: nat, stale: LeaseClaim, newer: LeaseClaim)
    requires FreshIds(h) && ServiceRuns(h) && i < k < j < |h|
    requires Issues(h, i, stale) && Issues(h, k, newer) && stale.run.id == newer.run.id
    requires Carries(h[j].command, stale)
    ensures At(h, j + 1) == At(h, j) && ReplyAt(h, j) != Flag(true)
  {
    hide Exec;
    SucceedsOrInert(h, j, stale.run.id);
    if Changes(h, j, stale.run.id) {
      IssuedToken(h, k, newer);
      TokensStrictlyIncrease(h, i, k, stale, newer);
      ChangedRunExists(h, j, stale.run.id);
      Progress(h, k + 1, j, stale.run.id);
      StepAt(h, j, stale.run.id);
    }
  }

  /** When the status is still what the read saw, the guarded update is the whole `transition`. */
  lemma UninterruptedTransition(db: Db, e: Event)
    requires Keyed(db) && e.command.TransitionUpdate? && Exec(db, e).1 == Flag(true)
    requires e.command.claim.run.id in db.runs && db.runs[e.command.claim.run.id].Valid()
    ensures Exec(db, e) == RunTable.Transition(db, e.tenant, e.command.claim, e.command.target, e.command.at)
  {}

  /**
   The read of `transition` may be stale, but when its update takes effect nothing moved in
   between: from the read to the update the run kept the status the read saw and the claim's token.
   So the two steps act as one uninterrupted `transition`.
   */
  lemma TransitionActsAtomically(h: History, c: nat, i: nat, k: nat, j: nat, claim: LeaseClaim)
    requires FreshIds(h) && c < i <= k <= j < |h| && Issues(h, c, claim)
    requires h[j].command.TransitionUpdate? && h[j].command.claim == claim && ReplyAt(h, j) == Flag(true)
    requires claim.run.id in At(h, i).runs && At(h, i).runs[claim.run.id].status == h[j].command.seen
    ensures claim.run.id in At(h, k).runs
    ensures At(h, k).runs[claim.run.id].status == h[j].command.seen
    ensures At(h, k).runs[claim.run.id].fencingToken == claim.fencingToken
    ensures At(h, j).runs[claim.run.id].Valid() ==>
      Exec(At(h, j), h[j]) == RunTable.Transition(At(h, j), h[j].tenant, claim, h[j].command.target, h[j].command.at)
  {
    hide Exec;
    var id := claim.run.id;
    IssuedToken(h, c, claim);
    ChangedRunExists(h, j, id);
    StepAt(h, j, id);
    Progress(h, c + 1, i, id);
    Progress(h, i, j, id);
    NoReturn(h, i, k, j, id);
    if At(h, j).runs[id].Valid() {
      KeyedAt(h, j);
      UninterruptedTransition(At(h, j), h[j]);
    }
  }

  // ----- leases of successive attempts never overlap in time -----

  function TimeOf(c: Command): Option<int>
  {
    match c
    case ClaimNext(_, now, _) => Some(now.at)
    case Heartbeat(_, now, _) => Some(now.at)
    case TransitionUpdate(_, _, _, at) => Some(at)
    case CancelUpdate(_, at) => Some(at)
    case Publish(_, _, _, _, at) => Some(at)
    case _ => None
  }

  /** The clock never goes back along the history. */
  ghost predicate ClockForward(h: History)
  {
    forall i, j :: 0 <= i < j < |h| && TimeOf(h[i].command).Some? && TimeOf(h[j].command).Some? ==>
      TimeOf(h[i].command).value <= TimeOf(h[j].command).value
  }

  /** Event `k` claimed, renewed or moved run `id`, leaving it under `token`. */
  ghost predicate ActsUnder(h: History, k: nat, id: string, token: int)
    requires k < |h|
  {
    && Changes(h, k, id) && !h[k].command.CancelUpdate?
    && id in At(h, k + 1).runs && At(h, k + 1).runs[id].fencingToken == token
  }

  /** Everything done under a lease so far happened before the lease expires. */
  lemma {:induction false} ActionsPrecedeExpiry(h: History, k: nat, i: nat, id: string)
    requires FreshIds(h) && ClockForward(h) && k < i <= |h|
    requires id in At(h, i).runs && At(h, i).runs[id].leaseExpiresAt.Some?
    requires ActsUnder(h, k, id, At(h, i).runs[id].fencingToken)
    ensures TimeOf(h[k].command).value < At(h, i).runs[id].leaseExpiresAt.value
    decreases i
  {
    hide Exec, FreshIds, Transitions;
    ChangedRunExists(h, k, id);
    RunLivesBetween(h, k, i - 1, i, id);
    StepAt(h, i - 1, id);
    if k < i - 1 {
      Progress(h, k + 1, i - 1, id);
      if !h[i - 1].command.Heartbeat? || !Changes(h, i - 1, id) {
        ActionsPrecedeExpiry(h, k, i - 1, id);
      }
    }
  }

  /** A token only grows by a claim. */
  lemma {:induction false} TokenGrowsByClaim(h: History, a: nat, b: nat, id: string, token: int)
    requires FreshIds(h) && a <= b <= |h|
    requires id in At(h, a).runs && At(h, a).runs[id].fencingToken <= token
    requires id in At(h, b).runs && At(h, b).runs[id].fencingToken > token
    ensures exists m: nat :: a <= m < b && IssuesFor(h, m, id) && id in At(h, m).runs
                             && At(h, m).runs[id].fencingToken == token
    decreases b
  {
    hide Exec;
    RunLivesBetween(h, a, b - 1, b, id);
    StepAt(h, b - 1, id);
    if At(h, b - 1).runs[id].fencingToken > token {
      TokenGrowsByClaim(h, a, b - 1, id, token);
    } else {
      assert IssuesFor(h, b - 1, id);
    }
  }

  /** A claim of a run that was claimed before finds its lease over. */
  lemma ReclaimSeesExpiry(h: History, m: nat, id: string)
    requires FreshIds(h) && ServiceRuns(h) && m < |h| && IssuesFor(h, m, id)
    requires id in At(h, m).runs && At(h, m).runs[id].fencingToken > 0
    ensures At(h, m).runs[id].leaseExpiresAt.Some? && TimeOf(h[m].command).Some?
    ensures At(h, m).runs[id].leaseExpiresAt.value <= TimeOf(h[m].command).value
  {
    hide Exec;
    StepAt(h, m, id);
    RowInvariantAt(h, m, id);
  }

  /** A run that was claimed, renewed or moved has been issued at least one token. */
  lemma NonNegativeToken(h: History, k: nat, id: string)
    requires FreshIds(h) && ServiceRuns(h) && k < |h| && Changes(h, k, id) && !h[k].command.CancelUpdate?
    ensures id in At(h, k + 1).runs && At(h, k + 1).runs[id].fencingToken > 0
  {
    hide Exec;
    ChangedRunExists(h, k, id);
    StepAt(h, k, id);
    RowInvariantAt(h, k, id);
  }

  /**
   Lease disjointness: when the clock never goes back, whatever is done under one token happens
   strictly before the time at which any later token of that run is issued, although a heartbeat
   may shorten a lease.
   */
  lemma LeasesAreDisjoint(h: History, k: nat, j: nat, id: string, token: int)
    requires FreshIds(h) && ServiceRuns(h) && ClockForward(h) && k < j < |h|
    requires ActsUnder(h, k, id, token)
    requires IssuesFor(h, j, id)
    ensures id in At(h, j + 1).runs && At(h, j + 1).runs[id].fencingToken > token
    ensures TimeOf(h[k].command).value < TimeOf(h[j].command).value
  {
    hide Exec;
    ChangedRunExists(h, j, id);
    StepAt(h, j, id);
    Progress(h, k + 1, j, id);
    TokenGrowsByClaim(h, k + 1, j + 1, id, token);
    var m: nat :| k + 1 <= m < j + 1 && IssuesFor(h, m, id) && id in At(h, m).runs
                  && At(h, m).runs[id].fencingToken == token;
    NonNegativeToken(h, k, id);
    ReclaimSeesExpiry(h, m, id);
    ActionsPrecedeExpiry(h, k, m, id);
  }

  // ----- repeated cancellation -----

  /** The reply of a `cancel` whose read ran before event `i` and whose update, if any, ran before event `j`. */
  ghost function SplitCancel(h: History, i: nat, j: nat, tenant: string, id: string, now: int): Reply
    requires i <= j <= |h|
  {
    match RunTable.GetRun(At(h, i), tenant, id)
    case RunFound(None) => Flag(false)
    case RunFound(Some(seen)) =>
      if seen.status == Cancelled then Flag(true)
      else if seen.status.Terminal() then Flag(false)
      else RunTable.CancelUpdate(At(h, j), tenant, id, now).1
    case reply => reply
  }

  /**
   Cancelling a run that some other call cancels meanwhile reports success exactly when its read
   came after that cancellation; a read that came before it makes the call report failure,
   although the run is cancelled.
   */
  lemma RepeatedCancel(h: History, m: nat, i: nat, j: nat, id: string, now: int)
    requires FreshIds(h) && ServiceRuns(h) && m < j <= |h| && i <= j
    requires h[m].command.CancelUpdate? && h[m].command.runId == id && ReplyAt(h, m) == Flag(true)
    requires id in At(h, i).runs && id in At(h, j).runs
    ensures At(h, j).runs[id].status == Cancelled
    ensures SplitCancel(h, i, j, h[m].tenant, id, now) == Flag(true) <==> m < i
  {
    hide Exec;
    SucceedsOrInert(h, m, id);
    ChangedRunExists(h, m, id);
    StepAt(h, m, id);
    TerminalIsFrozen(h, m + 1, j, id);
    RowInvariantAt(h, i, id);
    if m < i {
      TerminalIsFrozen(h, m + 1, i, id);
    } else {
      if At(h, i).runs[id].status.Terminal() { TerminalIsFrozen(h, i, m, id); }
      IdentityIsForever(h, i, j, id);
    }
    IdentityIsForever(h, i, m, id);
  }

  const EXAMPLE_PROJECT := Project("p", "t", "n", "u", 0, 0, 1)
  const EXAMPLE_RUN := Run("r", "t", "p", "v", 0, "k", Queued, 0, 0, None, None, 0, 0, 1)
  const WITH_PROJECT := Db(map["p" := EXAMPLE_PROJECT], map[], map[])
  const WITH_RUN := Db(map["p" := EXAMPLE_PROJECT], map["r" := EXAMPLE_RUN], map[])
  const WITH_CANCELLED := Db(map["p" := EXAMPLE_PROJECT], map["r" := RunTable.CancelRow(EXAMPLE_RUN, 5)], map[])

  const CANCEL_RACE: History := [
    Event("t", AddProject(EXAMPLE_PROJECT)),
    Event("t", LookupRun("k", "p")),
    Event("t", InsertRun(EXAMPLE_RUN)),
    Event("t", CancelUpdate("r", 5))]

  lemma ExampleSteps()
    ensures Exec(EMPTY, CANCEL_RACE[0]).0 == WITH_PROJECT
    ensures Exec(WITH_PROJECT, CANCEL_RACE[1]) == (WITH_PROJECT, Looked(None, true))
    ensures Exec(WITH_PROJECT, CANCEL_RACE[2]).0 == WITH_RUN
    ensures Exec(WITH_RUN, CANCEL_RACE[3]) == (WITH_CANCELLED, Flag(true))
  {
    assert ProjectTable.AddProject(EMPTY, "t", EXAMPLE_PROJECT).0 == WITH_PROJECT;
    assert RunTable.WithKey(WITH_PROJECT, "t", "k") == map[];
    assert RunTable.LookupRun(WITH_PROJECT, "t", "k", "p") == Looked(None, true);
    assert RunTable.InsertRun(WITH_PROJECT, "t", EXAMPLE_RUN).0 == WITH_RUN;
    assert WITH_RUN.runs["r" := RunTable.CancelRow(EXAMPLE_RUN, 5)] == WITH_CANCELLED.runs;
    assert RunTable.CancelUpdate(WITH_RUN, "t", "r", 5) == (WITH_CANCELLED, Flag(true));
  }

  lemma ExampleStates()
    ensures At(CANCEL_RACE, 1) == WITH_PROJECT && At(CANCEL_RACE, 2) == WITH_PROJECT
    ensures At(CANCEL_RACE, 3) == WITH_RUN && At(CANCEL_RACE, 4) == WITH_CANCELLED
    ensures ReplyAt(CANCEL_RACE, 1) == Looked(None, true)
  {
    hide Exec;
    ExampleSteps();
    assert At(CANCEL_RACE, 0) == EMPTY;
    assert At(CANCEL_RACE, 1) == WITH_PROJECT;
    assert At(CANCEL_RACE, 2) == WITH_PROJECT;
    assert At(CANCEL_RACE, 3) == WITH_RUN;
  }

  /** Two overlapping cancels of one queued run: the second reports failure on a cancelled run. */
  lemma CancelRaceExample()
    ensures Admissible(CANCEL_RACE) && ServiceRuns(CANCEL_RACE)
    ensures At(CANCEL_RACE, 4) == WITH_CANCELLED && WITH_CANCELLED.runs["r"].status == Cancelled
    ensures SplitCancel(CANCEL_RACE, 3, 4, "t", "r", 6) == Flag(false)
  {
    hide Exec;
    ExampleStates();
    assert LookedUp(CANCEL_RACE, 1, "t", EXAMPLE_RUN);
    assert EXAMPLE_RUN.Valid();
    assert RunTable.GetRun(WITH_RUN, "t", "r") == RunFound(Some(EXAMPLE_RUN));
    assert RunTable.CancelUpdate(WITH_CANCELLED, "t", "r", 6).1 == Flag(false);
  }
}
