/** The workspace check on tool paths (`defender/policy.py`): counting depth against cancelling `..`. */
module PathPolicy {
  import opened PosixPath

  const UP := ".."

  // ----- depth -----

  function DepthChange(part: string): int
  {
    if part == UP then -1 else 1
  }

  function Depth(parts: seq<string>): int
  {
    if parts == [] then 0 else Depth(parts[..|parts| - 1]) + DepthChange(parts[|parts| - 1])
  }

  /** The least depth over all prefixes, the empty one included. */
  function MinDepth(parts: seq<string>): int
  {
    if parts == [] then 0
    else if Depth(parts) < MinDepth(parts[..|parts| - 1]) then Depth(parts)
    else MinDepth(parts[..|parts| - 1])
  }

  lemma {:induction false} MinDepthIsLeast(parts: seq<string>)
    ensures forall i :: 0 <= i <= |parts| ==> MinDepth(parts) <= Depth(parts[..i])
    ensures exists i :: 0 <= i <= |parts| && MinDepth(parts) == Depth(parts[..i])
  {
    assert parts[..|parts|] == parts;
    if parts == [] {
      assert Depth(parts[..0]) == 0;
    } else {
      var init := parts[..|parts| - 1];
      MinDepthIsLeast(init);
      assert forall i :: 0 <= i <= |init| ==> init[..i] == parts[..i];
      var least :| 0 <= least <= |init| && MinDepth(init) == Depth(init[..least]);
      assert MinDepth(parts) == Depth(parts[..least]) || MinDepth(parts) == Depth(parts[..|parts|]);
    }
  }

  // ----- the check -----

  function Slashed(path: string): string
  {
    if path == "" then "" else [if path[0] == '\\' then '/' else path[0]] + Slashed(path[1..])
  }

  predicate HasDrive(path: string)
  {
    |path| >= 2 && path[1] == ':' && ('A' <= path[0] <= 'Z' || 'a' <= path[0] <= 'z')
  }

  /** Paths judged by depth alone. */
  predicate Counted(path: string, sensitive: string -> bool)
  {
    && path != "" && !sensitive(path)
    && !Absolute(Slashed(path)) && !HasDrive(Slashed(path))
  }

  function PathParts(path: string): seq<string>
  {
    Parts(Slashed(path))
  }

  function Escapes(path: string, sensitive: string -> bool): bool
  {
    path != "" && (!Counted(path, sensitive) || MinDepth(PathParts(path)) < 0)
  }

  lemma {:induction false} MinDepthFalls(parts: seq<string>, i: nat)
    requires i <= |parts|
    ensures MinDepth(parts) <= MinDepth(parts[..i])
    decreases |parts| - i
  {
    if i == |parts| {
      assert parts[..i] == parts;
    } else {
      assert parts[..i + 1][..i] == parts[..i];
      MinDepthFalls(parts, i + 1);
    }
  }

  lemma {:induction false} SplitHasNoSlash(s: string)
    ensures forall k :: 0 <= k < |Split(s)| ==> NoSlash(Split(s)[k])
  {
    if s != "" {
      SplitHasNoSlash(s[1..]);
      var rest := Split(s[1..]);
      assert NoSlash(rest[0]);
    }
  }

  /** No part is a dot or the root of an absolute path. */
  lemma PartsAreNames(s: string)
    ensures forall p :: p in Parts(s) ==> p !in {"", ".", "/"}
  {
    hide Split;
    SplitHasNoSlash(s);
    NamedKeeps(Split(s));
    forall p | p in Parts(s)
      ensures p != "/"
    {
      assert NoSlash(p);
      assert '/' in "/";
    }
  }

  method EscapesWorkspace(path: string, sensitive: string -> bool) returns (escapes: bool)
    ensures escapes == Escapes(path, sensitive)
  {
    hide Parts, Slashed, HasDrive, Absolute;
    if path == "" {
      return false;
    }
    if sensitive(path) {
      return true;
    }
    var normalised := Slashed(path);
    if Absolute(normalised) || HasDrive(normalised) {
      return true;
    }
    var depth := 0;
    var parts := Parts(normalised);
    PartsAreNames(normalised);
    for i := 0 to |parts|
      invariant depth == Depth(parts[..i]) && MinDepth(parts[..i]) == 0
    {
      var part := parts[i];
      assert part in parts;
      assert parts[..i + 1][..i] == parts[..i];
      if part == ".." {
        depth := depth - 1;
      } else if part !in {".", "/"} {
        depth := depth + 1;
      }
      if depth < 0 {
        MinDepthFalls(parts, i + 1);
        return true;
      }
    }
    assert parts[..|parts|] == parts;
    return false;
  }

  // ----- what the check depends on -----

  /** The depth counts names up and `..` down. */
  lemma {:induction false} DepthCounts(parts: seq<string>)
    ensures Depth(parts) == |parts| - 2 * multiset(parts)[".."]
    decreases |parts|
  {
    if parts != [] {
      DepthCounts(parts[..|parts| - 1]);
      assert parts == parts[..|parts| - 1] + [parts[|parts| - 1]];
    }
  }

  /** The empty path stays inside; sensitive, rooted and drive paths escape, with either slash. */
  lemma EscapesByCase(path: string, sensitive: string -> bool)
    ensures path == "" ==> !Escapes(path, sensitive)
    ensures path != "" && sensitive(path) ==> Escapes(path, sensitive)
    ensures path != "" && path[0] in {'/', '\\'} ==> Escapes(path, sensitive)
    ensures |path| >= 2 && path[1] == ':' && ('A' <= path[0] <= 'Z' || 'a' <= path[0] <= 'z') ==>
      Escapes(path, sensitive)
  {
    if path != "" {
      assert Slashed(path)[0] == if path[0] == '\\' then '/' else path[0];
      if |path| >= 2 {
        assert Slashed(path)[1] == Slashed(path[1..])[0];
      }
    }
  }

  /** Any other path escapes exactly when some beginning of it has more `..` than names. */
  lemma ClimbsExactly(path: string, sensitive: string -> bool)
    requires path != "" && !sensitive(path) && path[0] !in {'/', '\\'}
    requires !(|path| >= 2 && path[1] == ':' && ('A' <= path[0] <= 'Z' || 'a' <= path[0] <= 'z'))
    ensures Escapes(path, sensitive) <==>
      exists n :: 0 <= n <= |PathParts(path)| && 2 * multiset(PathParts(path)[..n])[".."] > n
  {
    hide PathParts, Depth, MinDepth;
    assert Slashed(path)[0] == path[0];
    if |path| >= 2 {
      assert Slashed(path)[1] == Slashed(path[1..])[0];
    }
    assert Counted(path, sensitive);
    var parts := PathParts(path);
    MinDepthIsLeast(parts);
    forall n | 0 <= n <= |parts|
      ensures Depth(parts[..n]) == n - 2 * multiset(parts[..n])[".."]
    {
      DepthCounts(parts[..n]);
    }
  }

  /** The same character, or both of them slashes of some kind. */
  predicate SameSlash(x: char, y: char)
  {
    x == y || (x in {'/', '\\'} && y in {'/', '\\'})
  }

  lemma {:induction false} SameSlashed(a: string, b: string)
    requires |a| == |b| && forall i :: 0 <= i < |a| ==> SameSlash(a[i], b[i])
    ensures Slashed(a) == Slashed(b)
  {
    if a != "" {
      SameSlashed(a[1..], b[1..]);
    }
  }

  /** Spelling a path with backslashes or with slashes gives the same parts and the same answer. */
  lemma SlashKindIsIrrelevant(a: string, b: string, sensitive: string -> bool)
    requires |a| == |b| && forall i :: 0 <= i < |a| ==> SameSlash(a[i], b[i])
    requires sensitive(a) == sensitive(b)
    ensures PathParts(a) == PathParts(b) && Escapes(a, sensitive) == Escapes(b, sensitive)
  {
    SameSlashed(a, b);
  }

  lemma {:induction false} SlashedIsPlain(piece: string)
    requires '\\' !in piece
    ensures Slashed(piece) == piece
  {
    if piece != "" {
      SlashedIsPlain(piece[1..]);
    }
  }

  /** A piece without slashes is one part, unless it is empty or a dot. */
  lemma OnePart(piece: string)
    requires '/' !in piece && '\\' !in piece
    ensures PathParts(piece) == if piece in {"", "."} then [] else [piece]
  {
    SlashedIsPlain(piece);
    PartOfPiece(piece);
  }

  // ----- the normal form -----

  /** Appending a part, where `..` cancels a name before it. */
  function Push(stack: seq<string>, part: string): seq<string>
  {
    if part == UP && stack != [] && stack[|stack| - 1] != UP then stack[..|stack| - 1] else stack + [part]
  }

  function PushAll(stack: seq<string>, parts: seq<string>): seq<string>
    decreases |parts|
  {
    if parts == [] then stack else PushAll(Push(stack, parts[0]), parts[1..])
  }

  function NormalForm(parts: seq<string>): seq<string>
  {
    PushAll([], parts)
  }

  lemma {:induction false} PushConcat(stack: seq<string>, a: seq<string>, b: seq<string>)
    ensures PushAll(stack, a + b) == PushAll(PushAll(stack, a), b)
    decreases |a|
  {
    if a == [] {
      assert a + b == b;
    } else {
      assert (a + b)[1..] == a[1..] + b;
      PushConcat(Push(stack, a[0]), a[1..], b);
    }
  }

  /** `ups` leading `..`, and names after them. */
  predicate Shaped(form: seq<string>, ups: nat)
  {
    && ups <= |form|
    && (forall i :: 0 <= i < ups ==> form[i] == UP)
    && (forall i :: ups <= i < |form| ==> form[i] != UP)
  }

  /** The normal form climbs as far as the least prefix depth, then descends to the final depth. */
  lemma {:induction false} NormalFormShape(parts: seq<string>)
    ensures MinDepth(parts) <= 0 && MinDepth(parts) <= Depth(parts)
    ensures Shaped(NormalForm(parts), -MinDepth(parts))
    ensures |NormalForm(parts)| == Depth(parts) - 2 * MinDepth(parts)
    decreases |parts|
  {
    if parts != [] {
      var init, last := parts[..|parts| - 1], parts[|parts| - 1];
      assert parts == init + [last];
      NormalFormShape(init);
      PushConcat([], init, [last]);
      assert PushAll(NormalForm(init), [last]) == Push(NormalForm(init), last);
    }
  }

  /** A counted path escapes exactly when its normal form begins with `..`. */
  lemma EscapesExactly(path: string, sensitive: string -> bool)
    requires Counted(path, sensitive)
    ensures Escapes(path, sensitive) <==>
      NormalForm(PathParts(path)) != [] && NormalForm(PathParts(path))[0] == UP
  {
    NormalFormShape(PathParts(path));
  }

  // ----- the order of cancellation does not matter -----

  /** One cancellation of a name and the `..` right after it. */
  predicate CancelsAt(before: seq<string>, i: nat, after: seq<string>)
  {
    && i + 1 < |before|
    && before[i] != UP && before[i + 1] == UP
    && after == before[..i] + before[i + 2..]
  }

  predicate Irreducible(parts: seq<string>)
  {
    forall i :: 0 <= i < |parts| - 1 ==> parts[i] == UP || parts[i + 1] != UP
  }

  lemma CancelKeepsNormalForm(before: seq<string>, i: nat, after: seq<string>)
    requires CancelsAt(before, i, after)
    ensures NormalForm(before) == NormalForm(after)
  {
    var left, pair, right := before[..i], before[i..i + 2], before[i + 2..];
    var stack := NormalForm(left);
    assert before == left + (pair + right) && pair == [before[i], UP];
    PushConcat([], left, pair + right);
    PushConcat(stack, pair, right);
    assert pair[1..] == [UP];
    assert Push(stack, before[i]) == stack + [before[i]] && (stack + [before[i]])[..|stack|] == stack;
    assert PushAll(stack + [before[i]], [UP]) == stack;
    PushConcat([], left, right);
  }

  lemma {:induction false} IrreducibleIsNormal(parts: seq<string>)
    requires Irreducible(parts)
    ensures NormalForm(parts) == parts
    decreases |parts|
  {
    if parts != [] {
      var init, last := parts[..|parts| - 1], parts[|parts| - 1];
      assert parts == init + [last];
      IrreducibleIsNormal(init);
      PushConcat([], init, [last]);
    }
  }

  /** Cancellations one after another, from the first list to the last. */
  ghost predicate Cancellation(chain: seq<seq<string>>, spots: seq<nat>)
  {
    && |chain| == |spots| + 1
    && forall k :: 0 <= k < |spots| ==> CancelsAt(chain[k], spots[k], chain[k + 1])
  }

  lemma {:induction false} CancellationKeepsNormalForm(chain: seq<seq<string>>, spots: seq<nat>)
    requires Cancellation(chain, spots)
    ensures NormalForm(chain[0]) == NormalForm(chain[|spots|])
    decreases |spots|
  {
    if spots != [] {
      CancelKeepsNormalForm(chain[0], spots[0], chain[1]);
      CancellationKeepsNormalForm(chain[1..], spots[1..]);
    }
  }

  /** Whatever is cancelled and in whichever order, when nothing is left to cancel the normal form is reached. */
  lemma AnyOrderReachesNormalForm(chain: seq<seq<string>>, spots: seq<nat>)
    requires Cancellation(chain, spots) && Irreducible(chain[|spots|])
    ensures chain[|spots|] == NormalForm(chain[0])
  {
    CancellationKeepsNormalForm(chain, spots);
    IrreducibleIsNormal(chain[|spots|]);
  }

  lemma {:induction false} CancellationExists(parts: seq<string>) returns (chain: seq<seq<string>>, spots: seq<nat>)
    ensures Cancellation(chain, spots) && chain[0] == parts && chain[|spots|] == NormalForm(parts)
    decreases |parts|
  {
    if Irreducible(parts) {
      IrreducibleIsNormal(parts);
      chain, spots := [parts], [];
    } else {
      var i: nat :| i < |parts| - 1 && parts[i] != UP && parts[i + 1] == UP;
      var next := parts[..i] + parts[i + 2..];
      CancelKeepsNormalForm(parts, i, next);
      var more, rest := CancellationExists(next);
      chain, spots := [parts] + more, [i] + rest;
    }
  }

  // ----- joining -----

  lemma {:induction false} DepthConcat(a: seq<string>, b: seq<string>)
    ensures Depth(a + b) == Depth(a) + Depth(b)
    ensures MinDepth(a + b) ==
      if MinDepth(a) <= Depth(a) + MinDepth(b) then MinDepth(a) else Depth(a) + MinDepth(b)
    decreases |b|
  {
    if b == [] {
      assert a + b == a;
      NormalFormShape(a);
    } else {
      assert (a + b)[..|a + b| - 1] == a + b[..|b| - 1];
      DepthConcat(a, b[..|b| - 1]);
    }
  }

  lemma {:induction false} SlashedConcat(a: string, b: string)
    ensures Slashed(a + b) == Slashed(a) + Slashed(b)
  {
    if a == "" {
      assert a + b == b;
    } else {
      assert (a + b)[1..] == a[1..] + b;
      SlashedConcat(a[1..], b);
    }
  }

  lemma JoinedParts(a: string, b: string)
    ensures PathParts(a + "/" + b) == PathParts(a) + PathParts(b)
  {
    SlashedConcat(a + "/", b);
    SlashedConcat(a, "/");
    assert Slashed("/") == "/";
    JoinParts(Slashed(a), Slashed(b));
  }

  /** A backslash separates parts just as a slash does. */
  lemma BackslashSeparates(a: string, b: string)
    ensures PathParts(a + "\\" + b) == PathParts(a) + PathParts(b)
  {
    SameSlashed(a + "\\" + b, a + "/" + b);
    JoinedParts(a, b);
  }

  /** A join stays counted: no leading slash or drive can appear. */
  lemma JoinedIsCounted(a: string, b: string, sensitive: string -> bool)
    requires Counted(a, sensitive) && !sensitive(a + "/" + b)
    ensures Counted(a + "/" + b, sensitive)
  {
    SlashedConcat(a, "/" + b);
    assert a + "/" + b == a + ("/" + b);
  }

  lemma ShapeIsUnique(form: seq<string>, m: nat, n: nat)
    requires Shaped(form, m) && Shaped(form, n)
    ensures m == n
  {
    assert m < |form| ==> form[m] != UP;
    assert n < |form| ==> form[n] != UP;
  }

  /**
   Below a path that does not escape, a second path escapes exactly when it climbs higher than the
   first one descended; in particular never when it does not escape by itself.
   */
  lemma JoinEscapesExactly(a: string, b: string, sensitive: string -> bool, ups: nat)
    requires Counted(a, sensitive) && !Escapes(a, sensitive) && !sensitive(a + "/" + b)
    requires Shaped(NormalForm(PathParts(b)), ups)
    ensures Escapes(a + "/" + b, sensitive) <==> ups > |NormalForm(PathParts(a))|
    ensures !Escapes(b, sensitive) ==> !Escapes(a + "/" + b, sensitive)
  {
    JoinedParts(a, b);
    JoinedIsCounted(a, b, sensitive);
    NormalFormShape(PathParts(a));
    NormalFormShape(PathParts(b));
    DepthConcat(PathParts(a), PathParts(b));
    ShapeIsUnique(NormalForm(PathParts(b)), ups, -MinDepth(PathParts(b)));
    if b == "" { assert PathParts(b) == []; }
  }
}
