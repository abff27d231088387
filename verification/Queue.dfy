/** Draining the queue: what a series of claims at one instant hands out, and that no run is ever stuck. */
module Queue {
  import opened Outcome
  import opened Ordering
  import opened Runs
  import opened Database
  import opened Replies
  import opened RunTable
  import History
  import Fencing

  /** A worker asking for a run. */
  datatype Request = Request(owner: string, leaseSeconds: int)

  /** The replies to a series of claims, all at `now`, with nothing else in between. */
  ghost function Drain(db: Db, tenant: string, now: Moment, requests: seq<Request>): (replies: seq<Reply>)
    ensures |replies| == |requests|
    decreases |requests|
  {
    if requests == [] then []
    else
      var (db', reply) := ClaimNext(db, tenant, requests[0].owner, now, requests[0].leaseSeconds);
      [reply] + Drain(db', tenant, now, requests[1..])
  }

  ghost predicate AllReachable(db: Db)
  {
    Keyed(db) && forall id :: id in db.runs ==> Fencing.RowInvariant(db.runs[id])
  }

  /** The tables of every history of the service's runs are such. */
  lemma ReachableAt(h: History.History, i: nat)
    requires History.FreshIds(h) && History.ServiceRuns(h) && i <= |h|
    ensures AllReachable(History.At(h, i))
  {
    hide History.Exec;
    History.KeyedAt(h, i);
    forall id | id in History.At(h, i).runs
      ensures Fencing.RowInvariant(History.At(h, i).runs[id])
    {
      Fencing.RowInvariantAt(h, i, id);
    }
  }

  ghost predicate Accepted(now: Moment, requests: seq<Request>)
  {
    forall r :: r in requests ==> LeaseArgumentsOk(r.owner, now, r.leaseSeconds)
  }

  /** A claim takes the first claimable run, and takes nothing else off the queue. */
  lemma ClaimTakesFirst(db: Db, tenant: string, owner: string, now: Moment, leaseSeconds: int)
    requires AllReachable(db) && LeaseArgumentsOk(owner, now, leaseSeconds)
    ensures var rows := ClaimableRows(db, tenant, now.at);
      var (db', reply) := ClaimNext(db, tenant, owner, now, leaseSeconds);
      && AllReachable(db')
      && (rows == map[] ==> reply == Claimed(None) && db' == db)
      && (rows != map[] ==>
            && reply.Claimed? && reply.claim.Some?
            && reply.claim.value.run.id == First(rows)
            && reply.claim.value.owner == owner
            && ClaimableRows(db', tenant, now.at) == rows - {First(rows)})
  {
    var rows := ClaimableRows(db, tenant, now.at);
    if rows != map[] {
      var id := First(rows);
      var row := ClaimRow(db.runs[id], owner, now.at, leaseSeconds);
      assert Fencing.RowInvariant(row);
      var db' := db.(runs := db.runs[id := row]);
      assert ClaimNext(db, tenant, owner, now, leaseSeconds).0 == db';
      assert !Claimable(row, tenant, now.at);
      assert ClaimableRows(db', tenant, now.at) == rows - {id};
    }
  }

  /**
   With n claimable runs, n claims at one instant hand out exactly those runs, each once, in
   (created_at, id) order, each to the worker that asked; every further claim gets nothing.
   */
  lemma {:induction false} DrainsInOrder(db: Db, tenant: string, now: Moment, requests: seq<Request>)
    requires AllReachable(db) && Accepted(now, requests)
    ensures var queue := InOrder(ClaimableRows(db, tenant, now.at));
      forall i :: 0 <= i < |requests| ==>
        var reply := Drain(db, tenant, now, requests)[i];
        if i < |queue|
        then reply.Claimed? && reply.claim.Some? && reply.claim.value.run.id == queue[i]
             && reply.claim.value.owner == requests[i].owner
        else reply == Claimed(None)
    decreases |requests|
  {
    hide ClaimNext, ClaimableRows;
    if requests != [] {
      var rows := ClaimableRows(db, tenant, now.at);
      var (db', reply) := ClaimNext(db, tenant, requests[0].owner, now, requests[0].leaseSeconds);
      ClaimTakesFirst(db, tenant, requests[0].owner, now, requests[0].leaseSeconds);
      DrainsInOrder(db', tenant, now, requests[1..]);
      var queue := InOrder(rows);
      assert rows != map[] ==> queue[0] == First(rows) && queue[1..] == InOrder(rows - {First(rows)});
      forall i | 0 <= i < |requests|
        ensures var r := Drain(db, tenant, now, requests)[i];
          if i < |queue|
          then r.Claimed? && r.claim.Some? && r.claim.value.run.id == queue[i]
               && r.claim.value.owner == requests[i].owner
          else r == Claimed(None)
      {
        if i > 0 {
          assert Drain(db, tenant, now, requests)[i] == Drain(db', tenant, now, requests[1..])[i - 1];
          assert requests[i] == requests[1..][i - 1];
          if rows != map[] && i < |queue| {
            assert queue[i] == queue[1..][i - 1];
          }
        }
      }
    }
  }

  lemma ClaimableIsListed(db: Db, tenant: string, now: int, id: string)
    requires id in db.runs && Claimable(db.runs[id], tenant, now)
    ensures id in ClaimableRows(db, tenant, now)
  {}

  predicate Hands(reply: Reply, id: string)
  {
    reply.Claimed? && reply.claim.Some? && reply.claim.value.run.id == id
  }

  /** Enough claims at one instant reach every claimable run, and no run is handed out twice. */
  lemma DrainReachesEveryRun(db: Db, tenant: string, now: Moment, requests: seq<Request>, id: string)
    requires AllReachable(db) && Accepted(now, requests)
    requires |requests| >= |ClaimableRows(db, tenant, now.at)|
    requires id in db.runs && Claimable(db.runs[id], tenant, now.at)
    ensures exists i :: 0 <= i < |requests| && Hands(Drain(db, tenant, now, requests)[i], id)
    ensures forall i, j :: 0 <= i < j < |requests| && Hands(Drain(db, tenant, now, requests)[i], id) ==>
      !Hands(Drain(db, tenant, now, requests)[j], id)
  {
    hide Drain, ClaimNext, ClaimableRows, InOrder, AllReachable;
    var rows := ClaimableRows(db, tenant, now.at);
    ClaimableIsListed(db, tenant, now.at, id);
    DrainsInOrder(db, tenant, now, requests);
    InOrderSorts(rows);
    assert id in InOrder(rows);
    var i :| 0 <= i < |InOrder(rows)| && InOrder(rows)[i] == id;
    assert Hands(Drain(db, tenant, now, requests)[i], id);
  }

  /** Of two runs handed out at one instant, the first was created first, or at the same time with the smaller id. */
  lemma DrainsByAge(db: Db, tenant: string, now: Moment, requests: seq<Request>, i: nat, j: nat, x: string, y: string)
    requires AllReachable(db) && Accepted(now, requests) && i < j < |requests|
    requires Hands(Drain(db, tenant, now, requests)[i], x) && Hands(Drain(db, tenant, now, requests)[j], y)
    ensures x in db.runs && y in db.runs
    ensures Claimable(db.runs[x], tenant, now.at) && Claimable(db.runs[y], tenant, now.at)
    ensures
      || db.runs[x].createdAt < db.runs[y].createdAt
      || (db.runs[x].createdAt == db.runs[y].createdAt && StringLess(x, y))
  {
    hide Drain, ClaimNext, InOrder, AllReachable, Claimable;
    var rows := ClaimableRows(db, tenant, now.at);
    var queue := InOrder(rows);
    DrainsInOrder(db, tenant, now, requests);
    InOrderSorts(rows);
    assert queue[i] in queue && queue[j] in queue && Precedes(rows, queue[i], queue[j]);
  }

  /** An active row can be claimed at some time exactly when it is queued or carries a lease. */
  lemma StuckExactlyWithoutLease(row: Run)
    requires row.status.Active()
    ensures (exists now :: Claimable(row, row.tenantId, now)) <==> row.status == Queued || row.leaseExpiresAt.Some?
  {
    if row.leaseExpiresAt.Some? {
      assert Claimable(row, row.tenantId, row.leaseExpiresAt.value);
    } else if row.status == Queued {
      assert Claimable(row, row.tenantId, 0);
    }
  }

  /** Every reachable run that is not terminal is claimable while it is queued and, once leased, from its expiry on. */
  lemma NoRunIsStuck(h: History.History, i: nat, id: string, now: int)
    requires History.FreshIds(h) && History.ServiceRuns(h) && i <= |h|
    requires id in History.At(h, i).runs && !History.At(h, i).runs[id].status.Terminal()
    ensures var row := History.At(h, i).runs[id];
      && (row.status == Queued || row.leaseExpiresAt.Some?)
      && (Claimable(row, row.tenantId, now) <==>
            row.status == Queued || (row.leaseExpiresAt.Some? && row.leaseExpiresAt.value <= now))
  {
    hide History.Exec;
    Fencing.RowInvariantAt(h, i, id);
  }
}
