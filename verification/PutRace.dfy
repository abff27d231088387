/**
 A put whose test and replacement are two steps, with other callers acting in between: exactly when
 the replacement overwrites a file, and why puts of different artifacts never do.
 */
module PutRace {
  import opened Outcome
  import opened ArtifactStore

  /** A put that has passed its test and has not replaced its target yet. */
  datatype Flight = Flight(path: seq<string>, data: Bytes)

  datatype Store = Store(tree: Tree, flights: map<nat, Flight>)

  datatype Move =
    | Test(caller: nat, key: string, data: Bytes)
    | Replace(caller: nat)
    | Abandon(caller: nat)
    | Remove(key: string)

  /** Everything a put does before it writes: it makes the parents and finds its target free, or raises. */
  function Tested(tree: Tree, maxBytes: nat, key: string, data: Bytes): (Tree, Result<seq<string>>)
  {
    if |data| > maxBytes || PathOf(key).Err? then (tree, Err(ValueError))
    else
      var path := PathOf(key).value;
      var grown := tree.(dirs := tree.dirs + ParentsMade(tree, path));
      if FileAbove(tree, path) || path in tree.files || path in grown.dirs then (grown, Err(FileExistsError))
      else (grown, Ok(path))
  }

  /** The replacement overwrites a file, and raises on a directory. */
  function Replaced(tree: Tree, flight: Flight): Tree
  {
    if flight.path in tree.dirs then tree else tree.(files := tree.files[flight.path := flight.data])
  }

  function Perform(s: Store, maxBytes: nat, move: Move): Store
  {
    match move
    case Test(caller, key, data) =>
      if caller in s.flights then s
      else
        var (tree', r) := Tested(s.tree, maxBytes, key, data);
        Store(tree', if r.Ok? then s.flights[caller := Flight(r.value, data)] else s.flights)
    case Replace(caller) =>
      if caller !in s.flights then s else Store(Replaced(s.tree, s.flights[caller]), s.flights - {caller})
    case Abandon(caller) => s.(flights := s.flights - {caller})
    case Remove(key) => s.(tree := Delete(s.tree, key).0)
  }

  ghost function StoreAt(maxBytes: nat, moves: seq<Move>, i: nat): Store
    requires i <= |moves|
  {
    if i == 0 then Store(EMPTY_TREE, map[]) else Perform(StoreAt(maxBytes, moves, i - 1), maxBytes, moves[i - 1])
  }

  /** With nothing in between, the two steps are one put. */
  lemma BackToBackIsPut(tree: Tree, maxBytes: nat, sha256: Bytes -> string, key: string, data: Bytes)
    ensures var (tested, r) := Tested(tree, maxBytes, key, data);
      var whole := Put(tree, maxBytes, sha256, key, data);
      && (r.Ok? <==> whole.1.Ok?) && (r.Err? ==> whole == (tested, Err(r.error)))
      && (r.Ok? ==> whole.0 == Replaced(tested, Flight(r.value, data)))
  {
    hide PathOf, FileAbove, ParentsMade;
  }

  // ----- the tree stays well formed -----

  /** The parents of a target are directories. */
  ghost predicate HasParents(tree: Tree, path: seq<string>)
  {
    path != [] && forall n :: 0 < n < |path| ==> path[..n] in tree.dirs
  }

  ghost predicate Consistent(s: Store)
  {
    WellFormed(s.tree) && forall k :: k in s.flights ==> HasParents(s.tree, s.flights[k].path)
  }

  lemma PathIsNotEmpty(key: string)
    requires PathOf(key).Ok?
    ensures PathOf(key).value != []
  {}

  lemma TestKeeps(tree: Tree, maxBytes: nat, key: string, data: Bytes)
    requires WellFormed(tree)
    ensures var (tree', r) := Tested(tree, maxBytes, key, data);
      && WellFormed(tree') && tree'.files == tree.files && tree.dirs <= tree'.dirs
      && (r.Ok? ==> PathOf(key) == r && r.value !in tree.files && HasParents(tree', r.value))
  {
    hide PathOf;
    var sha256: Bytes -> string := _ => "";
    if |data| <= maxBytes && PathOf(key).Ok? {
      var path := PathOf(key).value;
      PathIsNotEmpty(key);
      PutAddsOneFile(tree, maxBytes, sha256, key, data);
      if !FileAbove(tree, path) {
        forall n | 0 < n < |path|
          ensures path[..n] in ParentsMade(tree, path)
        {}
      }
    }
  }

  lemma ReplaceKeeps(tree: Tree, flight: Flight)
    requires WellFormed(tree) && HasParents(tree, flight.path)
    ensures WellFormed(Replaced(tree, flight)) && Replaced(tree, flight).dirs == tree.dirs
  {}

  lemma PerformKeeps(s: Store, maxBytes: nat, move: Move)
    requires Consistent(s)
    ensures Consistent(Perform(s, maxBytes, move)) && s.tree.dirs <= Perform(s, maxBytes, move).tree.dirs
  {
    hide Tested, Replaced, PathOf, WellFormed;
    match move
    case Test(_, key, data) => TestKeeps(s.tree, maxBytes, key, data);
    case Replace(caller) =>
      if caller in s.flights { ReplaceKeeps(s.tree, s.flights[caller]); }
    case Abandon(_) =>
    case Remove(key) => DeleteKeepsTree(s.tree, key);
  }

  /** However the steps of puts interleave, the tree stays well formed. */
  lemma {:induction false} ConsistentAt(maxBytes: nat, moves: seq<Move>, i: nat)
    requires i <= |moves|
    ensures Consistent(StoreAt(maxBytes, moves, i))
  {
    hide Perform;
    if i > 0 {
      ConsistentAt(maxBytes, moves, i - 1);
      PerformKeeps(StoreAt(maxBytes, moves, i - 1), maxBytes, moves[i - 1]);
    }
  }

  // ----- what happens to one path -----

  ghost predicate WritesAt(maxBytes: nat, moves: seq<Move>, m: nat, path: seq<string>)
    requires m < |moves|
  {
    var s := StoreAt(maxBytes, moves, m);
    && moves[m].Replace? && moves[m].caller in s.flights && s.flights[moves[m].caller].path == path
    && path !in s.tree.dirs
  }

  predicate RemovesAt(moves: seq<Move>, m: nat, path: seq<string>)
    requires m < |moves|
  {
    moves[m].Remove? && PathOf(moves[m].key) == Ok(path)
  }

  /** A write of `path` after step `t`, and no removal since. */
  ghost predicate WrittenSince(maxBytes: nat, moves: seq<Move>, t: nat, i: nat, path: seq<string>)
    requires i <= |moves|
  {
    exists m :: t < m < i && WritesAt(maxBytes, moves, m, path)
                && forall n :: m < n < i ==> !RemovesAt(moves, n, path)
  }

  /** Whether `path` is a file after one more step. */
  lemma OneMoreStep(maxBytes: nat, moves: seq<Move>, i: nat, path: seq<string>)
    requires i < |moves|
    ensures path in StoreAt(maxBytes, moves, i + 1).tree.files <==>
      || WritesAt(maxBytes, moves, i, path)
      || (path in StoreAt(maxBytes, moves, i).tree.files && !RemovesAt(moves, i, path))
  {
    hide PathOf;
    ConsistentAt(maxBytes, moves, i);
    var s := StoreAt(maxBytes, moves, i);
    if moves[i].Test? {
      TestKeeps(s.tree, maxBytes, moves[i].key, moves[i].data);
    }
  }

  lemma {:induction false} FileExactlyWhenWritten(maxBytes: nat, moves: seq<Move>, t: nat, i: nat, path: seq<string>)
    requires t < i <= |moves| && path !in StoreAt(maxBytes, moves, t + 1).tree.files
    ensures path in StoreAt(maxBytes, moves, i).tree.files <==> WrittenSince(maxBytes, moves, t, i, path)
    decreases i
  {
    hide StoreAt, WritesAt, RemovesAt;
    if i > t + 1 {
      FileExactlyWhenWritten(maxBytes, moves, t, i - 1, path);
      OneMoreStep(maxBytes, moves, i - 1, path);
      if WritesAt(maxBytes, moves, i - 1, path) {
        assert WrittenSince(maxBytes, moves, t, i, path);
      } else if WrittenSince(maxBytes, moves, t, i - 1, path) && !RemovesAt(moves, i - 1, path) {
        var m :| t < m < i - 1 && WritesAt(maxBytes, moves, m, path)
                 && forall n :: m < n < i - 1 ==> !RemovesAt(moves, n, path);
        assert WrittenSince(maxBytes, moves, t, i, path);
      }
    }
  }

  // ----- when a replacement overwrites -----

  /** The put of caller `k` that is in flight at `i` passed its test at step `t`. */
  ghost predicate InFlightSince(maxBytes: nat, moves: seq<Move>, t: nat, i: nat, k: nat)
    requires i <= |moves|
  {
    && t < i && moves[t].Test? && moves[t].caller == k && k !in StoreAt(maxBytes, moves, t).flights
    && PathOf(moves[t].key).Ok?
    && var flight := Flight(PathOf(moves[t].key).value, moves[t].data);
       forall j :: t < j <= i ==> k in StoreAt(maxBytes, moves, j).flights
                                  && StoreAt(maxBytes, moves, j).flights[k] == flight
  }

  /** Every put in flight passed its test at some step, when its target was no file. */
  lemma {:induction false} FlightsWereTested(maxBytes: nat, moves: seq<Move>, i: nat, k: nat) returns (t: nat)
    requires i <= |moves| && k in StoreAt(maxBytes, moves, i).flights
    ensures InFlightSince(maxBytes, moves, t, i, k)
    ensures PathOf(moves[t].key).value !in StoreAt(maxBytes, moves, t + 1).tree.files
    decreases i
  {
    hide PathOf, Tested, Replaced;
    if i == 0 {
      assert false;
    } else {
      var before := StoreAt(maxBytes, moves, i - 1);
      ConsistentAt(maxBytes, moves, i - 1);
      if k in before.flights {
        t := FlightsWereTested(maxBytes, moves, i - 1, k);
      } else {
        t := i - 1;
        TestKeeps(before.tree, maxBytes, moves[t].key, moves[t].data);
      }
    }
  }

  /**
   A replacement overwrites a file exactly when another put wrote that path after this one's test,
   and nothing has removed it since.
   */
  lemma OverwritesExactly(maxBytes: nat, moves: seq<Move>, i: nat, k: nat) returns (t: nat)
    requires i < |moves| && moves[i] == Replace(k) && k in StoreAt(maxBytes, moves, i).flights
    ensures InFlightSince(maxBytes, moves, t, i, k)
    ensures var path := StoreAt(maxBytes, moves, i).flights[k].path;
      path in StoreAt(maxBytes, moves, i).tree.files <==> WrittenSince(maxBytes, moves, t, i, path)
  {
    hide StoreAt, PathOf;
    t := FlightsWereTested(maxBytes, moves, i, k);
    FileExactlyWhenWritten(maxBytes, moves, t, i, StoreAt(maxBytes, moves, i).flights[k].path);
  }

  /** Two overlapping puts of one key: both pass the test, and the second replacement overwrites the first file. */
  lemma OverlapOverwrites(maxBytes: nat, key: string, first: Bytes, second: Bytes)
    requires PathOf(key).Ok? && |first| <= maxBytes && |second| <= maxBytes
    ensures var moves := [Test(0, key, first), Test(1, key, second), Replace(0), Replace(1)];
      var path := PathOf(key).value;
      && path in StoreAt(maxBytes, moves, 3).tree.files && StoreAt(maxBytes, moves, 3).tree.files[path] == first
      && path in StoreAt(maxBytes, moves, 4).tree.files && StoreAt(maxBytes, moves, 4).tree.files[path] == second
  {
    hide PathOf;
    var moves := [Test(0, key, first), Test(1, key, second), Replace(0), Replace(1)];
    var path := PathOf(key).value;
    var s0, s1, s2 := StoreAt(maxBytes, moves, 0), StoreAt(maxBytes, moves, 1), StoreAt(maxBytes, moves, 2);
    assert s1 == Perform(s0, maxBytes, moves[0]);
    assert s2 == Perform(s1, maxBytes, moves[1]);
    assert s1.flights == map[0 := Flight(path, first)];
    assert s2.flights == map[0 := Flight(path, first), 1 := Flight(path, second)];
    assert StoreAt(maxBytes, moves, 3) == Perform(s2, maxBytes, moves[2]);
    assert StoreAt(maxBytes, moves, 4) == Perform(StoreAt(maxBytes, moves, 3), maxBytes, moves[3]);
  }

  // ----- puts of different artifacts -----

  /** `key` was built for artifact `id`. */
  ghost predicate KeyOf(key: string, id: string)
  {
    exists t, r, f :: BuildArtifactKey(t, r, id, f) == Ok(key)
  }

  /** Every put is of an artifact of its own; `ids` names them. */
  ghost predicate FreshArtifacts(moves: seq<Move>, ids: seq<string>)
  {
    && |ids| == |moves|
    && (forall n :: 0 <= n < |moves| && moves[n].Test? ==> KeyOf(moves[n].key, ids[n]))
    && (forall m, n :: 0 <= m < n < |moves| && moves[m].Test? && moves[n].Test? ==> ids[m] != ids[n])
  }

  /** Keys of different artifacts have different paths. */
  lemma ArtifactsDecidePaths(key: string, id: string, key': string, id': string)
    requires KeyOf(key, id) && KeyOf(key', id') && id != id'
    requires PathOf(key).Ok? && PathOf(key').Ok?
    ensures PathOf(key) != PathOf(key')
  {
    hide PathOf;
    var t, r, f :| BuildArtifactKey(t, r, id, f) == Ok(key);
    var t', r', f' :| BuildArtifactKey(t', r', id', f') == Ok(key');
    PathNamesItsArtifact(t, r, id, f);
    PathNamesItsArtifact(t', r', id', f');
    if PathOf(key) == PathOf(key') {
      FileNameInjective(id, Extension(f).value, id', Extension(f').value);
    }
  }

  lemma ReplacedIsOver(maxBytes: nat, moves: seq<Move>, m: nat, k: nat)
    requires m < |moves| && moves[m] == Replace(k)
    ensures k !in StoreAt(maxBytes, moves, m + 1).flights
  {
    hide Replaced;
  }

  lemma NoOtherWrites(maxBytes: nat, moves: seq<Move>, ids: seq<string>, t: nat, i: nat, k: nat)
    requires FreshArtifacts(moves, ids) && i <= |moves| && InFlightSince(maxBytes, moves, t, i, k)
    ensures forall m :: t < m < i ==> !WritesAt(maxBytes, moves, m, PathOf(moves[t].key).value)
  {
    hide PathOf, KeyOf, Perform;
    var path := PathOf(moves[t].key).value;
    forall m | t < m < i
      ensures !WritesAt(maxBytes, moves, m, path)
    {
      if WritesAt(maxBytes, moves, m, path) {
        var other := moves[m].caller;
        var u := FlightsWereTested(maxBytes, moves, m, other);
        if u != t {
          ArtifactsDecidePaths(moves[u].key, ids[u], moves[t].key, ids[t]);
          assert false;
        }
        assert other == k;
        ReplacedIsOver(maxBytes, moves, m, k);
      }
    }
  }

  lemma PutAtReplace(maxBytes: nat, sha256: Bytes -> string, moves: seq<Move>, t: nat, i: nat, k: nat)
    requires i < |moves| && moves[i] == Replace(k) && InFlightSince(maxBytes, moves, t, i, k)
    requires PathOf(moves[t].key).value !in StoreAt(maxBytes, moves, i).tree.files
    ensures var tree := StoreAt(maxBytes, moves, i).tree;
      var whole := Put(tree, maxBytes, sha256, moves[t].key, moves[t].data);
      && whole.0 == StoreAt(maxBytes, moves, i + 1).tree
      && (whole.1.Ok? <==> PathOf(moves[t].key).value !in tree.dirs)
  {
    hide PathOf;
    var tree := StoreAt(maxBytes, moves, i).tree;
    var path := PathOf(moves[t].key).value;
    ConsistentAt(maxBytes, moves, i);
    assert HasParents(tree, path);
    assert tree.dirs + ParentsMade(tree, path) == tree.dirs;
    assert |moves[t].data| <= maxBytes by {
      assert t + 1 <= i && k in StoreAt(maxBytes, moves, t + 1).flights;
    }
    assert StoreAt(maxBytes, moves, i + 1).tree == Replaced(tree, Flight(path, moves[t].data));
  }

  /**
   Among puts of different artifacts, each replacement is a whole put at its own instant, whatever
   the other callers do between test and replacement: none overwrites, and none is refused unless
   its path has become a directory.
   */
  lemma FreshPutsAreWhole(maxBytes: nat, sha256: Bytes -> string, moves: seq<Move>, ids: seq<string>, i: nat, k: nat)
    returns (t: nat)
    requires FreshArtifacts(moves, ids)
    requires i < |moves| && moves[i] == Replace(k) && k in StoreAt(maxBytes, moves, i).flights
    ensures InFlightSince(maxBytes, moves, t, i, k)
    ensures var tree := StoreAt(maxBytes, moves, i).tree;
      var whole := Put(tree, maxBytes, sha256, moves[t].key, moves[t].data);
      && whole.0 == StoreAt(maxBytes, moves, i + 1).tree
      && (whole.1.Ok? <==> PathOf(moves[t].key).value !in tree.dirs)
  {
    hide PathOf, KeyOf, WritesAt, RemovesAt;
    t := OverwritesExactly(maxBytes, moves, i, k);
    var path := StoreAt(maxBytes, moves, i).flights[k].path;
    if WrittenSince(maxBytes, moves, t, i, path) {
      NoOtherWrites(maxBytes, moves, ids, t, i, k);
      assert false;
    }
    PutAtReplace(maxBytes, sha256, moves, t, i, k);
  }
}
