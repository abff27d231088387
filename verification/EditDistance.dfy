/**
 The edit distance behind the npm typosquat rule: the two-row loop computes the full table, the
 table is the length of a shortest edit script, and the distance is a metric.
 */
module EditDistance {
  import opened Outcome

  function Min(a: nat, b: nat): nat
  {
    if a <= b then a else b
  }

  /** The full recursive table: the distance of two prefixes from the three smaller ones. */
  function Dist(a: string, b: string): nat
    decreases |a| + |b|
  {
    if a == "" then |b|
    else if b == "" then |a|
    else
      var a', b' := a[..|a| - 1], b[..|b| - 1];
      Min(Min(Dist(a, b') + 1, Dist(a', b) + 1), Dist(a', b') + if a[|a| - 1] != b[|b| - 1] then 1 else 0)
  }

  lemma {:induction false} Unfold(a: string, b: string)
    requires a != "" && b != ""
    ensures Dist(a, b) == Min(Min(Dist(a, b[..|b| - 1]) + 1, Dist(a[..|a| - 1], b) + 1),
                              Dist(a[..|a| - 1], b[..|b| - 1]) + if a[|a| - 1] != b[|b| - 1] then 1 else 0)
  {
    hide Min;
  }

  /** One cell of the table, from its left, upper and diagonal neighbours. */
  lemma Cell(left: string, right: string, i: nat, j: nat)
    requires i < |left| && j < |right|
    ensures Dist(left[..i + 1], right[..j + 1])
         == Min(Min(Dist(left[..i + 1], right[..j]) + 1, Dist(left[..i], right[..j + 1]) + 1),
                Dist(left[..i], right[..j]) + if left[i] != right[j] then 1 else 0)
  {
    hide Dist;
    var a, b := left[..i + 1], right[..j + 1];
    assert a[..|a| - 1] == left[..i] && b[..|b| - 1] == right[..j];
    Unfold(a, b);
  }

  lemma Edges(left: string, right: string)
    ensures forall j :: 0 <= j <= |right| ==> Dist(left[..0], right[..j]) == j
    ensures forall i :: 0 <= i <= |left| ==> Dist(left[..i], right[..0]) == i
  {}

  /** Two rows: `previous` is the row of one prefix of `left`, `current` grows into the next. */
  method EditDistance(left: string, right: string) returns (distance: nat)
    ensures distance == Dist(left, right)
  {
    hide Dist;
    Edges(left, right);
    var previous: seq<nat> := seq(|right| + 1, i requires 0 <= i => i);
    var leftIndex := 0;
    while leftIndex < |left|
      invariant 0 <= leftIndex <= |left|
      invariant |previous| == |right| + 1
      invariant forall j :: 0 <= j <= |right| ==> previous[j] == Dist(left[..leftIndex], right[..j])
    {
      var leftChar := left[leftIndex];
      var current: seq<nat> := [leftIndex + 1];
      var rightIndex := 0;
      while rightIndex < |right|
        invariant 0 <= rightIndex <= |right|
        invariant |current| == rightIndex + 1
        invariant forall j :: 0 <= j <= rightIndex ==> current[j] == Dist(left[..leftIndex + 1], right[..j])
      {
        var rightChar := right[rightIndex];
        var cost := if leftChar != rightChar then 1 else 0;
        Cell(left, right, leftIndex, rightIndex);
        current := current + [Min(Min(current[|current| - 1] + 1, previous[rightIndex + 1] + 1),
                                  previous[rightIndex] + cost)];
        rightIndex := rightIndex + 1;
      }
      previous := current;
      leftIndex := leftIndex + 1;
    }
    assert left[..|left|] == left && right[..|right|] == right;
    return previous[|previous| - 1];
  }

  // ----- the distance is a metric -----

  lemma {:induction false} Bounds(a: string, b: string)
    ensures |a| - |b| <= Dist(a, b) && |b| - |a| <= Dist(a, b)
    ensures Dist(a, b) <= |a| || Dist(a, b) <= |b|
    decreases |a| + |b|
  {
    if a != "" && b != "" {
      var a', b' := a[..|a| - 1], b[..|b| - 1];
      Bounds(a, b');
      Bounds(a', b);
      Bounds(a', b');
    }
  }

  lemma {:induction false} ZeroOnlyOnEqual(a: string, b: string)
    ensures Dist(a, b) == 0 <==> a == b
    decreases |a| + |b|
  {
    if a != "" && b != "" {
      var a', b' := a[..|a| - 1], b[..|b| - 1];
      assert a == a' + [a[|a| - 1]] && b == b' + [b[|b| - 1]];
      ZeroOnlyOnEqual(a', b');
      Bounds(a, b');
    }
  }

  lemma {:induction false} Symmetric(a: string, b: string)
    ensures Dist(a, b) == Dist(b, a)
    decreases |a| + |b|
  {
    if a != "" && b != "" {
      var a', b' := a[..|a| - 1], b[..|b| - 1];
      Symmetric(a, b');
      Symmetric(a', b);
      Symmetric(a', b');
    }
  }

  /** The three ways to end a script from `a` to `b`; each is an upper bound, and one is exact. */
  lemma CellChoices(a: string, b: string)
    requires a != "" && b != ""
    ensures var a', b' := a[..|a| - 1], b[..|b| - 1];
      var cost := if a[|a| - 1] != b[|b| - 1] then 1 else 0;
      && Dist(a, b) <= Dist(a, b') + 1 && Dist(a, b) <= Dist(a', b) + 1 && Dist(a, b) <= Dist(a', b') + cost
      && (Dist(a, b) == Dist(a, b') + 1 || Dist(a, b) == Dist(a', b) + 1 || Dist(a, b) == Dist(a', b') + cost)
  {}

  lemma {:induction false} Triangle(a: string, b: string, c: string)
    ensures Dist(a, c) <= Dist(a, b) + Dist(b, c)
    decreases |a| + |b| + |c|
  {
    if a == "" || c == "" || b == "" {
      Bounds(a, b);
      Bounds(b, c);
      Bounds(a, c);
    } else {
      var a', b', c' := a[..|a| - 1], b[..|b| - 1], c[..|c| - 1];
      CellChoices(a, b);
      CellChoices(b, c);
      CellChoices(a, c);
      Triangle(a', b, c);
      Triangle(a, b, c');
      Triangle(a, b', c);
      Triangle(a, b', c');
      Triangle(a', b', c);
      Triangle(a', b', c');
    }
  }

  // ----- edit scripts -----

  datatype Edit = Insert(at: nat, c: char) | Remove(at: nat) | Replace(at: nat, c: char)

  /** One edit at a position that exists, or no result. */
  function ApplyEdit(e: Edit, s: string): Option<string>
  {
    match e
    case Insert(at, c) => if at <= |s| then Some(s[..at] + [c] + s[at..]) else None
    case Remove(at) => if at < |s| then Some(s[..at] + s[at + 1..]) else None
    case Replace(at, c) => if at < |s| then Some(s[..at] + [c] + s[at + 1..]) else None
  }

  function RunScript(script: seq<Edit>, s: string): Option<string>
    decreases |script|
  {
    if script == [] then Some(s)
    else
      match ApplyEdit(script[0], s)
      case None => None
      case Some(next) => RunScript(script[1..], next)
  }

  /** Edits that fit a string do the same to it when something follows. */
  lemma ApplyBefore(e: Edit, s: string, tail: string)
    requires ApplyEdit(e, s).Some?
    ensures ApplyEdit(e, s + tail) == Some(ApplyEdit(e, s).value + tail)
  {
    var t := s + tail;
    match e
    case Insert(at, c) =>
      assert t[..at] == s[..at] && t[at..] == s[at..] + tail;
      assert t[..at] + [c] + t[at..] == (s[..at] + [c] + s[at..]) + tail;
    case Remove(at) =>
      assert t[..at] == s[..at] && t[at + 1..] == s[at + 1..] + tail;
      assert t[..at] + t[at + 1..] == (s[..at] + s[at + 1..]) + tail;
    case Replace(at, c) =>
      assert t[..at] == s[..at] && t[at + 1..] == s[at + 1..] + tail;
      assert t[..at] + [c] + t[at + 1..] == (s[..at] + [c] + s[at + 1..]) + tail;
  }

  lemma {:induction false} RunBefore(script: seq<Edit>, s: string, tail: string)
    requires RunScript(script, s).Some?
    ensures RunScript(script, s + tail) == Some(RunScript(script, s).value + tail)
    decreases |script|
  {
    if script != [] {
      ApplyBefore(script[0], s, tail);
      RunBefore(script[1..], ApplyEdit(script[0], s).value, tail);
    }
  }

  lemma {:induction false} RunThen(first: seq<Edit>, last: Edit, s: string)
    requires RunScript(first, s).Some?
    ensures RunScript(first + [last], s) == ApplyEdit(last, RunScript(first, s).value)
    decreases |first|
  {
    if first == [] {
      assert first + [last] == [last];
      assert [last][1..] == [];
    } else {
      assert (first + [last])[1..] == first[1..] + [last];
      RunThen(first[1..], last, ApplyEdit(first[0], s).value);
    }
  }

  /** A script of exactly the computed length, from `a` to `b`. */
  function Script(a: string, b: string): seq<Edit>
    decreases |a| + |b|
  {
    if a == "" && b == "" then []
    else if a == "" then Script(a, b[..|b| - 1]) + [Insert(|b| - 1, b[|b| - 1])]
    else if b == "" then [Remove(|a| - 1)] + Script(a[..|a| - 1], b)
    else
      var a', b' := a[..|a| - 1], b[..|b| - 1];
      if Dist(a, b) == Dist(a, b') + 1 then Script(a, b') + [Insert(|b| - 1, b[|b| - 1])]
      else if Dist(a, b) == Dist(a', b) + 1 then [Remove(|a| - 1)] + Script(a', b)
      else if a[|a| - 1] == b[|b| - 1] then Script(a', b')
      else Script(a', b') + [Replace(|b| - 1, b[|b| - 1])]
  }

  lemma RemoveLast(a: string, rest: seq<Edit>)
    requires a != ""
    ensures RunScript([Remove(|a| - 1)] + rest, a) == RunScript(rest, a[..|a| - 1])
  {
    assert a[..|a| - 1] + a[|a|..] == a[..|a| - 1];
    assert ([Remove(|a| - 1)] + rest)[1..] == rest;
  }

  lemma InsertLast(first: seq<Edit>, a: string, b: string)
    requires b != "" && RunScript(first, a) == Some(b[..|b| - 1])
    ensures RunScript(first + [Insert(|b| - 1, b[|b| - 1])], a) == Some(b)
  {
    var b' := b[..|b| - 1];
    RunThen(first, Insert(|b| - 1, b[|b| - 1]), a);
    assert b'[..|b| - 1] + [b[|b| - 1]] + b'[|b| - 1..] == b;
  }

  lemma RunNothing(s: string)
    ensures RunScript([], s) == Some(s)
  {}

  /** Run a script on all but the last character, then keep or replace that character. */
  lemma SameLength(first: seq<Edit>, a: string, b: string)
    requires a != "" && b != "" && RunScript(first, a[..|a| - 1]) == Some(b[..|b| - 1])
    ensures var y := b[|b| - 1];
      RunScript(if a[|a| - 1] == y then first else first + [Replace(|b| - 1, y)], a) == Some(b)
  {
    hide Dist, Script;
    var a', b', x, y := a[..|a| - 1], b[..|b| - 1], a[|a| - 1], b[|b| - 1];
    RunBefore(first, a', [x]);
    assert a' + [x] == a && b' + [y] == b;
    if x != y {
      RunThen(first, Replace(|b| - 1, y), a);
      var t := b' + [x];
      assert t[..|b| - 1] == b' && t[|b|..] == "";
      assert b' + [y] + "" == b;
    }
  }

  /** The script is as long as the distance and turns `a` into `b`. */
  lemma {:induction false} ScriptWorks(a: string, b: string)
    ensures |Script(a, b)| == Dist(a, b)
    ensures RunScript(Script(a, b), a) == Some(b)
    decreases |a| + |b|
  {
    hide RunScript, ApplyEdit;
    if a == "" && b == "" {
      RunNothing(a);
    } else if a == "" {
      ScriptWorks(a, b[..|b| - 1]);
      InsertLast(Script(a, b[..|b| - 1]), a, b);
    } else if b == "" {
      ScriptWorks(a[..|a| - 1], b);
      RemoveLast(a, Script(a[..|a| - 1], b));
    } else {
      var a', b' := a[..|a| - 1], b[..|b| - 1];
      var x, y := a[|a| - 1], b[|b| - 1];
      if Dist(a, b) == Dist(a, b') + 1 {
        ScriptWorks(a, b');
        InsertLast(Script(a, b'), a, b);
      } else if Dist(a, b) == Dist(a', b) + 1 {
        ScriptWorks(a', b);
        RemoveLast(a, Script(a', b));
      } else {
        ScriptWorks(a', b');
        SameLength(Script(a', b'), a, b);
      }
    }
  }

  // ----- no script is shorter -----

  /** Appending the same text to both sides does not increase the distance. */
  lemma {:induction false} CommonTail(a: string, b: string, tail: string)
    ensures Dist(a + tail, b + tail) <= Dist(a, b)
    decreases |tail|
  {
    hide Dist;
    if tail == "" {
      assert a + tail == a && b + tail == b;
    } else {
      var t', z := tail[..|tail| - 1], tail[|tail| - 1];
      CommonTail(a, b, t');
      assert (a + tail)[..|a + tail| - 1] == a + t' && (b + tail)[..|b + tail| - 1] == b + t';
      CellChoices(a + tail, b + tail);
    }
  }

  lemma StepBound(a: string, b: string)
    requires b != ""
    ensures Dist(a, b) <= Dist(a, b[..|b| - 1]) + 1
  {}

  lemma Longer(p: string, c: string, q: string)
    requires |c| == 1
    ensures Dist(p + q, p + c + q) <= 1 && Dist(p + c + q, p + q) <= 1
  {
    hide Dist;
    ZeroOnlyOnEqual(p, p);
    assert (p + c)[..|p + c| - 1] == p;
    StepBound(p, p + c);
    CommonTail(p, p + c, q);
    Symmetric(p + q, p + c + q);
  }

  lemma Substituted(p: string, x: char, y: char, q: string)
    ensures Dist(p + [x] + q, p + [y] + q) <= 1
  {
    hide Dist;
    ZeroOnlyOnEqual(p, p);
    assert (p + [x])[..|p + [x]| - 1] == p && (p + [y])[..|p + [y]| - 1] == p;
    CellChoices(p + [x], p + [y]);
    CommonTail(p + [x], p + [y], q);
  }

  /** One edit moves a string by at most one. */
  lemma OneEditCostsOne(e: Edit, s: string)
    requires ApplyEdit(e, s).Some?
    ensures Dist(s, ApplyEdit(e, s).value) <= 1
  {
    hide Dist;
    match e
    case Insert(at, c) =>
      var p, q := s[..at], s[at..];
      Longer(p, [c], q);
      assert p + q == s && p + [c] + q == ApplyEdit(e, s).value;
    case Remove(at) =>
      var p, q := s[..at], s[at + 1..];
      Longer(p, [s[at]], q);
      assert p + [s[at]] + q == s && p + q == ApplyEdit(e, s).value;
    case Replace(at, c) =>
      var p, q := s[..at], s[at + 1..];
      Substituted(p, s[at], c, q);
      assert p + [s[at]] + q == s && p + [c] + q == ApplyEdit(e, s).value;
  }

  lemma {:induction false} NoScriptIsShorter(script: seq<Edit>, a: string, b: string)
    requires RunScript(script, a) == Some(b)
    ensures Dist(a, b) <= |script|
    decreases |script|
  {
    if script == [] {
      ZeroOnlyOnEqual(a, b);
    } else {
      var next := ApplyEdit(script[0], a).value;
      OneEditCostsOne(script[0], a);
      NoScriptIsShorter(script[1..], next, b);
      Triangle(a, next, b);
    }
  }

  /** The distance is the length of a shortest script of single-character insertions, deletions and substitutions. */
  lemma DistanceIsShortestScript(a: string, b: string, n: nat)
    ensures Dist(a, b) <= n <==> exists script :: |script| <= n && RunScript(script, a) == Some(b)
  {
    if Dist(a, b) <= n {
      ScriptWorks(a, b);
      assert RunScript(Script(a, b), a) == Some(b);
    }
    if exists script :: |script| <= n && RunScript(script, a) == Some(b) {
      var script :| |script| <= n && RunScript(script, a) == Some(b);
      NoScriptIsShorter(script, a, b);
    }
  }

  // ----- the typosquat rule -----

  /** One edit turns one name into the other. */
  ghost predicate OneEditApart(a: string, b: string)
  {
    a != b && exists e :: ApplyEdit(e, a) == Some(b)
  }

  /** Distance one means exactly: different, and one edit away. So the rule's own equality test never decides. */
  lemma DistanceOne(a: string, b: string)
    ensures Dist(a, b) == 1 <==> OneEditApart(a, b)
    ensures Dist(a, b) == 1 ==> a != b
  {
    ZeroOnlyOnEqual(a, b);
    if Dist(a, b) == 1 {
      ScriptWorks(a, b);
      var script := Script(a, b);
      assert script[1..] == [];
      assert ApplyEdit(script[0], a) == Some(b);
    }
    if OneEditApart(a, b) {
      var e :| ApplyEdit(e, a) == Some(b);
      OneEditCostsOne(e, a);
    }
  }

  /** Whether `NpmTyposquatRule.evaluate` reports a finding: the names are exactly one edit apart. */
  method TyposquatFires(expected: string, installed: string, installScript: bool) returns (fires: bool)
    ensures fires <==> expected != "" && installScript && OneEditApart(expected, installed)
  {
    hide Dist, OneEditApart;
    var distance := EditDistance(expected, installed);
    DistanceOne(expected, installed);
    if expected == "" || expected == installed || distance != 1 || !installScript {
      return false;
    }
    return true;
  }
}
