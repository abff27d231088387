/** `PurePosixPath(text).parts` for relative paths. */
module PosixPath {

  predicate NoSlash(s: string)
  {
    '/' !in s
  }

  /** The text between slashes. */
  function Split(s: string): (pieces: seq<string>)
    ensures |pieces| > 0
  {
    if s == "" then [""]
    else if s[0] == '/' then [""] + Split(s[1..])
    else
      var rest := Split(s[1..]);
      [[s[0]] + rest[0]] + rest[1..]
  }

  /** Pieces that name a component: empty and `.` pieces are dropped. */
  function Named(pieces: seq<string>): seq<string>
  {
    if pieces == [] then []
    else if pieces[0] in {"", "."} then Named(pieces[1..])
    else [pieces[0]] + Named(pieces[1..])
  }

  function Parts(s: string): seq<string>
  {
    Named(Split(s))
  }

  predicate Absolute(s: string)
  {
    s != "" && s[0] == '/'
  }

  lemma {:induction false} SplitFirst(p: string, rest: string)
    requires NoSlash(p)
    ensures Split(p + "/" + rest) == [p] + Split(rest)
  {
    var s := p + "/" + rest;
    if p == "" {
      assert s[1..] == rest;
    } else {
      assert s[1..] == p[1..] + "/" + rest;
      SplitFirst(p[1..], rest);
      assert [p[0]] + p[1..] == p;
    }
  }

  lemma {:induction false} SplitOne(p: string)
    requires NoSlash(p)
    ensures Split(p) == [p]
  {
    if p != "" {
      SplitOne(p[1..]);
      assert [p[0]] + p[1..] == p;
    }
  }

  /** A piece without a slash is one part, unless it is empty or a dot. */
  lemma PartOfPiece(p: string)
    requires NoSlash(p)
    ensures Parts(p) == if p in {"", "."} then [] else [p]
  {
    SplitOne(p);
    assert [p][1..] == [];
    assert Named([]) == [];
    assert Named([p]) == if p in {"", "."} then [] else [p];
  }

  lemma {:induction false} NamedConcat(a: seq<string>, b: seq<string>)
    ensures Named(a + b) == Named(a) + Named(b)
  {
    if a == [] {
      assert a + b == b;
    } else {
      assert (a + b)[1..] == a[1..] + b;
      NamedConcat(a[1..], b);
    }
  }

  lemma {:induction false} SplitConcat(a: string, b: string)
    ensures Split(a + "/" + b) == Split(a) + Split(b)
  {
    var s := a + "/" + b;
    if a == "" {
      assert s[1..] == b;
    } else {
      assert s[1..] == a[1..] + "/" + b;
      SplitConcat(a[1..], b);
    }
  }

  /** Joining two paths with a slash joins their parts. */
  lemma JoinParts(a: string, b: string)
    ensures Parts(a + "/" + b) == Parts(a) + Parts(b)
  {
    SplitConcat(a, b);
    NamedConcat(Split(a), Split(b));
  }

  lemma {:induction false} NamedKeeps(pieces: seq<string>)
    ensures forall p :: p in Named(pieces) ==> p in pieces && p !in {"", "."}
  {
    if pieces != [] { NamedKeeps(pieces[1..]); }
  }
}
