/** The `ORDER BY created_at, id` used by the run queue and the project list. */
module Ordering {

  /** Lexicographic order on strings by code point. */
  predicate StringLess(a: string, b: string)
  {
    if b == "" then false
    else if a == "" then true
    else a[0] < b[0] || (a[0] == b[0] && StringLess(a[1..], b[1..]))
  }

  /** `created` maps row ids to creation times; `x` sorts strictly before `y`. */
  predicate Before(created: map<string, int>, x: string, y: string)
    requires x in created && y in created
  {
    created[x] < created[y] || (created[x] == created[y] && StringLess(x, y))
  }

  lemma {:induction false} StringLessTotal(a: string, b: string)
    ensures a == b || StringLess(a, b) || StringLess(b, a)
    ensures !(StringLess(a, b) && StringLess(b, a))
    ensures a == b ==> !StringLess(a, b)
  {
    if a != "" && b != "" {
      StringLessTotal(a[1..], b[1..]);
      assert a == [a[0]] + a[1..] && b == [b[0]] + b[1..];
    }
  }

  lemma {:induction false} StringLessTransitive(a: string, b: string, c: string)
    requires StringLess(a, b) && StringLess(b, c)
    ensures StringLess(a, c)
  {
    if a != "" && a[0] == b[0] && b[0] == c[0] {
      StringLessTransitive(a[1..], b[1..], c[1..]);
    }
  }

  /** One string sorts before another exactly when it is smaller, or ends, at the first place where they differ. */
  lemma {:induction false} StringLessExactly(a: string, b: string)
    ensures StringLess(a, b) <==>
      exists k :: 0 <= k <= |a| && k < |b| && a[..k] == b[..k] && (k == |a| || a[k] < b[k])
  {
    if a != "" && b != "" {
      StringLessExactly(a[1..], b[1..]);
      if a[0] == b[0] {
        assert a == [a[0]] + a[1..] && b == [b[0]] + b[1..];
        if k :| 0 <= k <= |a[1..]| && k < |b[1..]| && a[1..][..k] == b[1..][..k]
                && (k == |a[1..]| || a[1..][k] < b[1..][k]) {
          assert a[..k + 1] == [a[0]] + a[1..][..k] && b[..k + 1] == [b[0]] + b[1..][..k];
        }
        if k :| 0 <= k <= |a| && k < |b| && a[..k] == b[..k] && (k == |a| || a[k] < b[k]) {
          assert a[1..][..k - 1] == a[..k][1..] && b[1..][..k - 1] == b[..k][1..];
        }
      } else {
        forall k | 0 < k <= |a| && k < |b|
          ensures a[..k] != b[..k]
        {
          assert a[..k][0] == a[0] && b[..k][0] == b[0];
        }
        assert a[..0] == b[..0];
      }
    } else if a == "" && b != "" {
      assert a[..0] == b[..0];
    }
  }

  lemma BeforeTransitive(created: map<string, int>, x: string, y: string, z: string)
    requires x in created && y in created && z in created
    requires Before(created, x, y) && Before(created, y, z)
    ensures Before(created, x, z)
  {
    if created[x] == created[y] == created[z] {
      StringLessTransitive(x, y, z);
    }
  }

  ghost predicate IsFirst(created: map<string, int>, x: string)
  {
    x in created && forall y :: y in created && y != x ==> Before(created, x, y)
  }

  lemma {:induction false} FirstExists(created: map<string, int>)
    requires created != map[]
    ensures exists x :: IsFirst(created, x)
    decreases |created|
  {
    var z :| z in created;
    var rest := created - {z};
    if rest == map[] {
      assert forall y :: y in created && y != z ==> y in rest;
      assert IsFirst(created, z);
    } else {
      assert |rest.Keys| < |created.Keys| by { assert rest.Keys == created.Keys - {z}; }
      FirstExists(rest);
      var x :| IsFirst(rest, x);
      StringLessTotal(x, z);
      var first := if Before(created, x, z) then x else z;
      forall y | y in created && y != first
        ensures Before(created, first, y)
      {
        if y != z && first == z && y != x {
          assert y in rest && Before(rest, x, y);
          BeforeTransitive(created, z, x, y);
        } else if y != z && first == x {
          assert y in rest && Before(rest, x, y);
        }
      }
      assert IsFirst(created, first);
    }
  }

  lemma FirstUnique(created: map<string, int>, x: string, y: string)
    requires IsFirst(created, x) && IsFirst(created, y)
    ensures x == y
  {
    if x != y { StringLessTotal(x, y); }
  }

  /** The row that `ORDER BY created_at, id LIMIT 1` returns. */
  ghost function First(created: map<string, int>): (x: string)
    requires created != map[]
    ensures IsFirst(created, x)
  {
    FirstExists(created);
    var x :| IsFirst(created, x);
    x
  }

  /** All rows in `ORDER BY created_at, id` order. */
  ghost function InOrder(created: map<string, int>): (ids: seq<string>)
    decreases |created|
  {
    if created == map[] then []
    else
      var x := First(created);
      assert (created - {x}).Keys == created.Keys - {x};
      assert |(created - {x}).Keys| < |created.Keys|;
      [x] + InOrder(created - {x})
  }

  predicate Precedes(created: map<string, int>, x: string, y: string)
  {
    x in created && y in created && x != y && Before(created, x, y)
  }

  /** The listed rows exist, differ, and each sorts before the ones after it. */
  predicate Sorted(created: map<string, int>, ids: seq<string>)
  {
    forall i, j :: 0 <= i < j < |ids| ==> Precedes(created, ids[i], ids[j])
  }

  lemma FirstThenSorted(created: map<string, int>, x: string, ids: seq<string>)
    requires IsFirst(created, x) && Sorted(created - {x}, ids)
    requires forall y :: y in ids ==> y in created - {x}
    ensures Sorted(created, [x] + ids)
  {
    var all := [x] + ids;
    forall i, j | 0 <= i < j < |all|
      ensures Precedes(created, all[i], all[j])
    {
      assert all[j] == ids[j - 1] && ids[j - 1] in ids;
      if i > 0 {
        assert all[i] == ids[i - 1];
        assert Precedes(created - {x}, ids[i - 1], ids[j - 1]);
      }
    }
  }

  lemma FirstIsIn(created: map<string, int>)
    requires created != map[]
    ensures First(created) in created
  {}

  lemma NothingSorted(created: map<string, int>)
    ensures Sorted(created, [])
  {}

  /** `InOrder` lists every row exactly once, and each before the rows that sort after it. */
  lemma {:induction false} InOrderSorts(created: map<string, int>)
    ensures forall x :: x in InOrder(created) <==> x in created
    ensures Sorted(created, InOrder(created))
    ensures |InOrder(created)| == |created|
    decreases |created|
  {
    hide Sorted, Precedes, IsFirst;
    if created == map[] {
      NothingSorted(created);
    } else {
      var x := First(created);
      var rest := created - {x};
      FirstIsIn(created);
      assert rest.Keys == created.Keys - {x};
      assert |rest.Keys| == |created.Keys| - 1;
      InOrderSorts(rest);
      FirstThenSorted(created, x, InOrder(rest));
    }
  }
}
