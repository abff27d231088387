/** Idempotent creation over histories: one (tenant, key) names one run for as long as its project lives. */
module Idempotency {
  import opened Outcome
  import opened Ordering
  import opened Runs
  import opened Database
  import opened Replies
  import opened History
  import opened Provenance
  import Fencing
  import RunTable

  /**
   `create_idempotent` answers `created` exactly on these conditions, none of which looks at another
   tenant's runs.
   */
  lemma CreatesExactlyWhen(db: Db, tenant: string, run: Run)
    requires Sound(db) && forall id :: id in db.runs ==> db.runs[id].Valid()
    ensures RunTable.CreateIdempotent(db, tenant, run).1 == Created(run) <==>
      && run.tenantId == tenant
      && (forall id :: RunTable.OwnRun(db, tenant, id) ==> db.runs[id].idempotencyKey != run.idempotencyKey)
      && RunTable.OwnProject(db, tenant, run.projectId)
      && run.id !in db.runs
  {
    var rows := RunTable.WithKey(db, tenant, run.idempotencyKey);
    if rows != map[] {
      var id := First(rows);
      assert RunTable.OwnRun(db, tenant, id) && db.runs[id].idempotencyKey == run.idempotencyKey;
    } else {
      forall id | RunTable.OwnRun(db, tenant, id)
        ensures db.runs[id].idempotencyKey != run.idempotencyKey
      {
        assert id !in rows;
      }
    }
  }

  /** With unique keys, the lookup returns the one run that has the key. */
  lemma LookupFindsTheRun(db: Db, id: string)
    requires Sound(db) && id in db.runs
    ensures RunTable.FindExisting(db, db.runs[id].tenantId, db.runs[id].idempotencyKey) == Some(db.runs[id])
  {
    var rows := RunTable.WithKey(db, db.runs[id].tenantId, db.runs[id].idempotencyKey);
    assert id in rows;
    assert SameRunKey(db.runs[First(rows)], db.runs[id]);
  }

  /** While a run has a key, creating under that key returns that run, and inserting under it is refused. */
  lemma ExistingKeyWins(db: Db, id: string, again: Run)
    requires Sound(db) && id in db.runs && db.runs[id].Valid() && SameRunKey(again, db.runs[id])
    ensures RunTable.FindExisting(db, again.tenantId, again.idempotencyKey) == Some(db.runs[id])
    ensures RunTable.CreateIdempotent(db, again.tenantId, again) == (db, Existing(db.runs[id]))
    ensures RunTable.InsertRun(db, again.tenantId, again) == (db, Raised(IntegrityError))
  {
    LookupFindsTheRun(db, id);
  }

  lemma CreatedTenant(h: History, i: nat)
    requires i < |h| && h[i].command.InsertRun? && ReplyAt(h, i) == Created(h[i].command.run)
    ensures h[i].command.run.tenantId == h[i].tenant
    ensures h[i].command.run.id in At(h, i + 1).runs
    ensures At(h, i + 1).runs[h[i].command.run.id] == h[i].command.run
  {}

  /**
   After a creation, and whatever claims, moves and cancels follow, every lookup under that key finds
   the same run with its original fields; creating again changes nothing and returns it, whatever the
   other fields of the new request; and a racing insert that missed it is refused.
   */
  lemma BindingPersists(h: History, i: nat, j: nat, again: Run)
    requires Admissible(h) && ServiceRuns(h) && i < j <= |h|
    requires h[i].command.InsertRun? && ReplyAt(h, i) == Created(h[i].command.run)
    requires h[i].command.run.id in At(h, j).runs
    requires SameRunKey(again, h[i].command.run)
    ensures var tenant, row := h[i].tenant, At(h, j).runs[h[i].command.run.id];
      && SameIdentity(row, h[i].command.run)
      && RunTable.FindExisting(At(h, j), tenant, again.idempotencyKey) == Some(row)
      && RunTable.CreateIdempotent(At(h, j), tenant, again) == (At(h, j), Existing(row))
      && RunTable.InsertRun(At(h, j), tenant, again) == (At(h, j), Raised(IntegrityError))
  {
    hide Exec;
    var run := h[i].command.run;
    SoundAt(h, j);
    CreatedTenant(h, i);
    IdentityIsForever(h, i + 1, j, run.id);
    Fencing.RowInvariantAt(h, j, run.id);
    ExistingKeyWins(At(h, j), run.id, again);
  }

  lemma RemovedWithProject(db: Db, e: Event, id: string)
    requires Sound(db) && id in db.runs && id !in Exec(db, e).0.runs
    ensures e == Event(db.runs[id].tenantId, DeleteProject(db.runs[id].projectId))
  {
    StepRun(db, e, id);
  }

  /** A run disappears only when its tenant deletes its project. */
  lemma {:induction false} OnlyDeletionRemoves(h: History, i: nat, j: nat, id: string)
    requires Admissible(h) && i <= j <= |h|
    requires id in At(h, i).runs && id !in At(h, j).runs
    ensures exists k: nat :: i <= k < j && id in At(h, k).runs
              && h[k] == Event(At(h, i).runs[id].tenantId, DeleteProject(At(h, i).runs[id].projectId))
    decreases j
  {
    hide Exec;
    if id in At(h, j - 1).runs {
      SoundAt(h, j - 1);
      RemovedWithProject(At(h, j - 1), h[j - 1], id);
      IdentityIsForever(h, i, j - 1, id);
    } else {
      OnlyDeletionRemoves(h, i, j - 1, id);
    }
  }

  lemma InsertReply(h: History, j: nat)
    requires j < |h| && h[j].command.InsertRun?
    ensures ReplyAt(h, j) == RunTable.InsertRun(At(h, j), h[j].tenant, h[j].command.run).1
  {}

  /**
   Concurrent creators included, one (tenant, key) is created at most once unless the project was deleted in
   between.
   */
  lemma CreatedAtMostOnce(h: History, i: nat, j: nat)
    requires Admissible(h) && ServiceRuns(h) && i < j < |h|
    requires h[i].command.InsertRun? && ReplyAt(h, i) == Created(h[i].command.run)
    requires h[j].command.InsertRun? && ReplyAt(h, j) == Created(h[j].command.run)
    requires SameRunKey(h[i].command.run, h[j].command.run)
    ensures exists k: nat :: i < k < j && h[k] == Event(h[i].tenant, DeleteProject(h[i].command.run.projectId))
  {
    hide Exec;
    var run := h[i].command.run;
    CreatedTenant(h, i);
    CreatedTenant(h, j);
    if run.id in At(h, j).runs {
      BindingPersists(h, i, j, h[j].command.run);
      InsertReply(h, j);
      assert false;
    }
    OnlyDeletionRemoves(h, i + 1, j, run.id);
  }
}
