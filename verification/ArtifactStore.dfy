/** The file artifact store: keys, paths, and the write-once file tree. */
module ArtifactStore {
  import opened Outcome
  import opened PosixPath

  type Bytes = seq<bv8>

  // ----- keys -----

  predicate KeyChar(c: char)
  {
    'A' <= c <= 'Z' || 'a' <= c <= 'z' || '0' <= c <= '9' || c in {'.', '_', '-'}
  }

  predicate KeyPart(s: string)
  {
    1 <= |s| <= 128 && forall c :: c in s ==> KeyChar(c)
  }

  /** The components a key denotes, or an error. `PurePosixPath` drops `.` and empty pieces before they are checked. */
  function PathOf(key: string): Result<seq<string>>
  {
    if '\\' in key || Absolute(key) || Parts(key) == [] then Err(ValueError)
    else if exists p :: p in Parts(key) && (p == ".." || !KeyPart(p)) then Err(ValueError)
    else Ok(Parts(key))
  }

  function Extension(format: string): Option<string>
  {
    if format == "json" then Some("json")
    else if format == "markdown" then Some("md")
    else None
  }

  function FileName(artifact: string, ext: string): string
  {
    artifact + "." + ext
  }

  function BuildArtifactKey(tenant: string, run: string, artifact: string, format: string): Result<string>
  {
    match Extension(format)
    case None => Err(ValueError)
    case Some(ext) =>
      if !KeyPart(tenant) || !KeyPart(run) || !KeyPart(artifact) then Err(ValueError)
      else Ok(tenant + "/" + run + "/" + FileName(artifact, ext))
  }

  /**
   A key is built exactly for the two formats, from identifiers of 1 to 128 letters, digits, dots, underscores
   and dashes.
   */
  lemma KeyBuildsExactly(tenant: string, run: string, artifact: string, format: string)
    ensures BuildArtifactKey(tenant, run, artifact, format).Ok? <==>
      && format in {"json", "markdown"}
      && forall id :: id in {tenant, run, artifact} ==>
           && 1 <= |id| <= 128
           && forall c :: c in id ==>
                'a' <= c <= 'z' || 'A' <= c <= 'Z' || '0' <= c <= '9' || c == '.' || c == '_' || c == '-'
  {
    assert tenant in {tenant, run, artifact} && run in {tenant, run, artifact} && artifact in {tenant, run, artifact};
  }

  /** A key spells its identifiers, separated by slashes, and ends with the extension of its format. */
  lemma KeyText(tenant: string, run: string, artifact: string, format: string)
    ensures var key := BuildArtifactKey(tenant, run, artifact, format);
      if key.Err? then key == Err(ValueError)
      else key == Ok(tenant + "/" + run + "/" + artifact + if format == "json" then ".json" else ".md")
  {
    hide KeyPart;
    assert "." + "json" == ".json" && "." + "md" == ".md";
    if BuildArtifactKey(tenant, run, artifact, format).Ok? {
      var suffix := if format == "json" then ".json" else ".md";
      assert FileName(artifact, Extension(format).value) == artifact + suffix;
      assert tenant + "/" + run + "/" + (artifact + suffix) == tenant + "/" + run + "/" + artifact + suffix;
    }
  }

  /** A key with a backslash, an absolute or an empty one is refused. */
  lemma ForeignKeysAreRefused(key: string)
    requires key == "" || '\\' in key || key[0] == '/'
    ensures PathOf(key) == Err(ValueError)
  {
    if key == "" {
      PartOfPiece("");
    }
  }

  /** So is a key with a piece that climbs, is too long, or has a character outside the alphabet. */
  lemma BadPiecesAreRefused(before: string, piece: string, after: string)
    requires NoSlash(piece) && piece !in {"", "."}
    requires piece == ".." || |piece| > 128 || exists c :: c in piece && !KeyChar(c)
    ensures PathOf(before + "/" + piece + "/" + after) == Err(ValueError)
  {
    hide Split, Named;
    var key := before + "/" + piece + "/" + after;
    assert key == (before + "/" + piece) + "/" + after;
    JoinParts(before + "/" + piece, after);
    JoinParts(before, piece);
    PartOfPiece(piece);
    assert Parts(key) == Parts(before) + [piece] + Parts(after);
    assert Parts(key)[|Parts(before)|] == piece;
    assert piece in Parts(key) && (piece == ".." || !KeyPart(piece));
  }

  lemma FileNameInjective(a: string, x: string, b: string, y: string)
    requires x in {"json", "md"} && y in {"json", "md"}
    requires FileName(a, x) == FileName(b, y)
    ensures a == b && x == y
  {
    var s := FileName(a, x);
    assert s[|s| - 1] == x[|x| - 1] == y[|y| - 1];
    assert x == y;
    assert a == s[..|s| - |x| - 1] && b == s[..|s| - |y| - 1];
  }

  /** Key parts contain no separator. */
  lemma KeyPartHasNoSlash(s: string)
    requires forall c :: c in s ==> KeyChar(c)
    ensures NoSlash(s) && '\\' !in s
  {}

  /** The pieces of a built key are its tenant, its run and its file name. */
  lemma BuiltKeyPieces(tenant: string, run: string, artifact: string, format: string)
    requires BuildArtifactKey(tenant, run, artifact, format).Ok?
    ensures var key := BuildArtifactKey(tenant, run, artifact, format).value;
      Split(key) == [tenant, run, FileName(artifact, Extension(format).value)]
      && '\\' !in key && !Absolute(key)
  {
    var file := FileName(artifact, Extension(format).value);
    KeyPartHasNoSlash(tenant);
    KeyPartHasNoSlash(run);
    KeyPartHasNoSlash(file);
    var key := tenant + "/" + run + "/" + file;
    assert key == tenant + "/" + (run + "/" + file);
    SplitFirst(tenant, run + "/" + file);
    SplitFirst(run, file);
    SplitOne(file);
    assert key[0] == tenant[0];
  }

  /** Different (tenant, run, artifact, format) get different keys. */
  lemma KeyInjective(t: string, r: string, a: string, f: string, t': string, r': string, a': string, f': string)
    requires BuildArtifactKey(t, r, a, f).Ok? && BuildArtifactKey(t', r', a', f').Ok?
    requires BuildArtifactKey(t, r, a, f) == BuildArtifactKey(t', r', a', f')
    ensures t == t' && r == r' && a == a' && f == f'
  {
    BuiltKeyPieces(t, r, a, f);
    BuiltKeyPieces(t', r', a', f');
    var p, q := [t, r, FileName(a, Extension(f).value)], [t', r', FileName(a', Extension(f').value)];
    assert p[0] == q[0] && p[1] == q[1] && p[2] == q[2];
    FileNameInjective(a, Extension(f).value, a', Extension(f').value);
  }

  predicate DotName(s: string)
  {
    s in {".", ".."}
  }

  /** The identifiers a path begins with, single dots dropped. */
  function Dirs(t: string, r: string): seq<string>
  {
    (if t == "." then [] else [t]) + (if r == "." then [] else [r])
  }

  lemma NamedThree(tenant: string, run: string, file: string)
    requires file !in {"", "."} && tenant != "" && run != ""
    ensures Named([tenant, run, file]) == Dirs(tenant, run) + [file]
  {
    assert [tenant, run, file][1..] == [run, file];
    assert [run, file][1..] == [file];
    assert [file][1..] == [];
    assert Named([file]) == [file];
    assert Named([run, file]) == (if run == "." then [] else [run]) + [file];
  }

  /** The path of a built key: `.` pieces vanish, a `..` piece or an overlong file name is refused. */
  lemma BuiltKeyPath(tenant: string, run: string, artifact: string, format: string)
    requires BuildArtifactKey(tenant, run, artifact, format).Ok?
    ensures var path := PathOf(BuildArtifactKey(tenant, run, artifact, format).value);
      var file := FileName(artifact, Extension(format).value);
      && (path.Ok? <==> tenant != ".." && run != ".." && |file| <= 128)
      && (path.Ok? ==> path.value == Dirs(tenant, run) + [file])
      && (path.Ok? && !DotName(tenant) && !DotName(run) ==> path.value == [tenant, run, file])
  {
    hide Split, Named;
    BuiltKeyPieces(tenant, run, artifact, format);
    var key := BuildArtifactKey(tenant, run, artifact, format).value;
    var file := FileName(artifact, Extension(format).value);
    NamedThree(tenant, run, file);
    var ts, rs := if tenant == "." then [] else [tenant], if run == "." then [] else [run];
    var parts := Parts(key);
    assert parts == ts + rs + [file];
    assert KeyPart(file) <==> |file| <= 128;
    assert parts[|parts| - 1] == file;
    assert tenant == ".." ==> parts[0] == "..";
    assert run == ".." ==> parts[|ts|] == "..";
    assert forall p :: p in parts ==> p == tenant || p == run || p == file;
  }

  /** The key builds, and `_path` accepts it. */
  predicate AcceptedKey(t: string, r: string, a: string, f: string)
  {
    BuildArtifactKey(t, r, a, f).Ok? && PathOf(BuildArtifactKey(t, r, a, f).value).Ok?
  }

  /** Two accepted keys denote the same file. */
  predicate SameFile(t: string, r: string, a: string, f: string, t': string, r': string, a': string, f': string)
    requires AcceptedKey(t, r, a, f) && AcceptedKey(t', r', a', f')
  {
    PathOf(BuildArtifactKey(t, r, a, f).value) == PathOf(BuildArtifactKey(t', r', a', f').value)
  }

  /** A different report whose accepted key denotes the same file. */
  predicate Alias(t: string, r: string, a: string, f: string, t': string, r': string, a': string, f': string)
    requires AcceptedKey(t, r, a, f)
  {
    && AcceptedKey(t', r', a', f') && SameFile(t, r, a, f, t', r', a', f')
    && (t', r', a', f') != (t, r, a, f)
  }

  lemma SupportedFormats(t: string, r: string, a: string, f: string)
    requires BuildArtifactKey(t, r, a, f).Ok?
    ensures f in {"json", "markdown"}
  {}

  lemma DirsDecide(t: string, r: string, t': string, r': string, file: string)
    requires Dirs(t, r) + [file] == Dirs(t', r') + [file]
    ensures (t == t' && r == r') || ((t == "." || r == ".") && t == r' && r == t')
  {
    var p, q := Dirs(t, r), Dirs(t', r');
    assert (p + [file])[..|p|] == p && (q + [file])[..|q|] == q;
    assert p == q;
    assert |p| > 0 ==> p[0] == q[0];
    assert |p| > 1 ==> p[1] == q[1];
  }

  /**
   Two accepted keys denote the same file exactly when they are of the same artifact and format, and
   of the same tenant and run, up to swapping a tenant or run that is a single dot with the other.
   */
  lemma SameFileExactly(t: string, r: string, a: string, f: string, t': string, r': string, a': string, f': string)
    requires AcceptedKey(t, r, a, f) && AcceptedKey(t', r', a', f')
    ensures SameFile(t, r, a, f, t', r', a', f') <==>
      && a == a' && f == f'
      && ((t == t' && r == r') || ((t == "." || r == ".") && t == r' && r == t'))
  {
    hide PathOf, FileName, BuildArtifactKey;
    SupportedFormats(t, r, a, f);
    SupportedFormats(t', r', a', f');
    BuiltKeyPath(t, r, a, f);
    BuiltKeyPath(t', r', a', f');
    var p := PathOf(BuildArtifactKey(t, r, a, f).value).value;
    var q := PathOf(BuildArtifactKey(t', r', a', f').value).value;
    if p == q {
      assert p[|p| - 1] == q[|q| - 1];
      FileNameInjective(a, Extension(f).value, a', Extension(f').value);
      DirsDecide(t, r, t', r', FileName(a, Extension(f).value));
    }
  }

  lemma SwapIsAccepted(t: string, r: string, a: string, f: string)
    requires AcceptedKey(t, r, a, f)
    ensures AcceptedKey(r, t, a, f)
  {
    hide PathOf;
    BuiltKeyPath(t, r, a, f);
    BuiltKeyPath(r, t, a, f);
  }

  /**
   An accepted key shares its file with a different accepted key exactly when one of its tenant and
   run is a single dot and the other is not; the other key is then the one with the two swapped.
   */
  lemma AliasedExactly(t: string, r: string, a: string, f: string)
    requires AcceptedKey(t, r, a, f)
    ensures (exists t', r', a', f' :: Alias(t, r, a, f, t', r', a', f')) <==> (t == ".") != (r == ".")
    ensures forall t', r', a', f' :: Alias(t, r, a, f, t', r', a', f') ==> (t', r', a', f') == (r, t, a, f)
  {
    hide AcceptedKey, SameFile;
    forall t', r', a', f' | Alias(t, r, a, f, t', r', a', f')
      ensures (t', r', a', f') == (r, t, a, f) && (t == ".") != (r == ".")
    {
      SameFileExactly(t, r, a, f, t', r', a', f');
    }
    if (t == ".") != (r == ".") {
      SwapIsAccepted(t, r, a, f);
      SameFileExactly(t, r, a, f, r, t, a, f);
      assert Alias(t, r, a, f, r, t, a, f);
    }
  }

  /** In particular, keys whose tenants and runs are no dots never share a file. */
  lemma BuiltPathsAreDistinct(t: string, r: string, a: string, f: string, t': string, r': string, a': string,
                              f': string)
    requires BuildArtifactKey(t, r, a, f).Ok? && BuildArtifactKey(t', r', a', f').Ok?
    requires !DotName(t) && !DotName(r) && !DotName(t') && !DotName(r')
    requires PathOf(BuildArtifactKey(t, r, a, f).value).Ok?
    requires PathOf(BuildArtifactKey(t, r, a, f).value) == PathOf(BuildArtifactKey(t', r', a', f').value)
    ensures t == t' && r == r' && a == a' && f == f'
  {
    hide PathOf, BuildArtifactKey;
    SameFileExactly(t, r, a, f, t', r', a', f');
  }

  /** One such pair: tenant `.` with run `r`, and tenant `r` with run `.`. */
  lemma DotIdentifiersAlias()
    ensures AcceptedKey(".", "r", "a", "json") && Alias(".", "r", "a", "json", "r", ".", "a", "json")
    ensures BuildArtifactKey(".", "r", "a", "json") != BuildArtifactKey("r", ".", "a", "json")
  {
    hide PathOf, Parts;
    BuiltKeyPath(".", "r", "a", "json");
    AliasedExactly(".", "r", "a", "json");
    var k1, k2 := BuildArtifactKey(".", "r", "a", "json").value, BuildArtifactKey("r", ".", "a", "json").value;
    assert k1[0] != k2[0];
  }

  /**
   The last component names the artifact, so two different artifacts never share a path, whatever their
   tenants and runs.
   */
  lemma PathNamesItsArtifact(t: string, r: string, a: string, f: string)
    requires BuildArtifactKey(t, r, a, f).Ok? && PathOf(BuildArtifactKey(t, r, a, f).value).Ok?
    ensures var path := PathOf(BuildArtifactKey(t, r, a, f).value).value;
      |path| > 0 && path[|path| - 1] == FileName(a, Extension(f).value)
  {
    BuiltKeyPath(t, r, a, f);
  }

  // ----- the file tree -----

  /** Regular files and directories below the root, by their components; the root itself is implicit. */
  datatype Tree = Tree(files: map<seq<string>, Bytes>, dirs: set<seq<string>>)

  const EMPTY_TREE := Tree(map[], {})

  predicate ProperPrefix(p: seq<string>, q: seq<string>)
  {
    |p| < |q| && p == q[..|p|]
  }

  /** A file is never above another entry, and every entry has its parent directories. */
  ghost predicate WellFormed(tree: Tree)
  {
    && [] !in tree.files && [] !in tree.dirs
    && (forall p :: p in tree.files ==> p !in tree.dirs)
    && (forall p, n :: p in tree.files && 0 < n < |p| ==> p[..n] in tree.dirs)
    && (forall p, n :: p in tree.dirs && 0 < n < |p| ==> p[..n] in tree.dirs)
  }

  /** Stored part lists are prefix-free. */
  lemma StoredPathsArePrefixFree(tree: Tree, p: seq<string>, q: seq<string>)
    requires WellFormed(tree) && p in tree.files && q in tree.files
    ensures !ProperPrefix(p, q)
  {
    if |p| < |q| { assert q[..|p|] in tree.dirs; }
  }

  predicate FileAbove(tree: Tree, path: seq<string>)
  {
    exists n :: 0 < n < |path| && path[..n] in tree.files
  }

  /** The parents that creating directories along `path` adds before it meets a file, if any. */
  function ParentsMade(tree: Tree, path: seq<string>): set<seq<string>>
  {
    set n | 0 < n < |path| && (forall m :: 0 < m <= n ==> path[..m] !in tree.files) :: path[..n]
  }

  function Put(tree: Tree, maxBytes: nat, sha256: Bytes -> string, key: string,
               data: Bytes): (Tree, Result<(nat, string)>)
  {
    if |data| > maxBytes then (tree, Err(ValueError))
    else if PathOf(key).Err? then (tree, Err(ValueError))
    else
      var path := PathOf(key).value;
      var grown := tree.(dirs := tree.dirs + ParentsMade(tree, path));
      if FileAbove(tree, path) || path in grown.files || path in grown.dirs then (grown, Err(FileExistsError))
      else (grown.(files := grown.files[path := data]), Ok((|data|, sha256(data))))
  }

  function Read(tree: Tree, sha256: Bytes -> string, key: string, expected: Option<string>): Result<Bytes>
  {
    if PathOf(key).Err? then Err(ValueError)
    else
      var path := PathOf(key).value;
      if path !in tree.files then Err(if path in tree.dirs || FileAbove(tree, path) then OSError else FileNotFoundError)
      else if expected.Some? && sha256(tree.files[path]) != expected.value then Err(ArtifactIntegrityError)
      else Ok(tree.files[path])
  }

  function Delete(tree: Tree, key: string): (Tree, Result<bool>)
  {
    if PathOf(key).Err? then (tree, Err(ValueError))
    else
      var path := PathOf(key).value;
      if path in tree.files then (tree.(files := tree.files - {path}), Ok(true))
      else if path in tree.dirs || FileAbove(tree, path) then (tree, Err(OSError))
      else (tree, Ok(false))
  }

  /** What a put does to the files: exactly one new entry when it succeeds, nothing otherwise. */
  lemma PutAddsOneFile(tree: Tree, maxBytes: nat, sha256: Bytes -> string, key: string, data: Bytes)
    requires WellFormed(tree)
    ensures var (tree', r) := Put(tree, maxBytes, sha256, key, data);
      && WellFormed(tree')
      && (r.Ok? <==> |data| <= maxBytes && PathOf(key).Ok? && PathOf(key).value !in tree.files
                     && PathOf(key).value !in tree.dirs && !FileAbove(tree, PathOf(key).value))
      && (r.Ok? ==> tree'.files == tree.files[PathOf(key).value := data] && r.value == (|data|, sha256(data)))
      && (r.Err? ==> tree'.files == tree.files)
  {
    if |data| <= maxBytes && PathOf(key).Ok? {
      var path := PathOf(key).value;
      var grown := tree.(dirs := tree.dirs + ParentsMade(tree, path));
      assert path !in ParentsMade(tree, path);
      forall p, n | p in grown.dirs && 0 < n < |p|
        ensures p[..n] in grown.dirs
      {
        if p !in tree.dirs {
          var k :| 0 < k < |path| && (forall m :: 0 < m <= k ==> path[..m] !in tree.files) && p == path[..k];
          assert p[..n] == path[..n];
        }
      }
      forall p | p in grown.files
        ensures p !in grown.dirs
      {}
      if !FileAbove(tree, path) {
        forall n | 0 < n < |path|
          ensures path[..n] in grown.dirs
        {
          assert path[..n] in ParentsMade(tree, path);
        }
      }
    }
  }

  /** An oversized put and one under a bad key raise as such; any other refusal means that something is in the way. */
  lemma PutRaises(tree: Tree, maxBytes: nat, sha256: Bytes -> string, key: string, data: Bytes)
    ensures var r := Put(tree, maxBytes, sha256, key, data).1;
      r.Err? ==> r.error == if |data| > maxBytes || PathOf(key).Err? then ValueError else FileExistsError
  {}

  /** Reading with the checksum of the original notices other bytes in its place, unless they have the same checksum. */
  lemma TamperingIsNoticed(tree: Tree, sha256: Bytes -> string, key: string, data: Bytes, other: Bytes)
    requires PathOf(key).Ok?
    ensures var tampered := tree.(files := tree.files[PathOf(key).value := other]);
      && Read(tampered, sha256, key, None) == Ok(other)
      && Read(tampered, sha256, key, Some(sha256(data)))
         == if sha256(other) == sha256(data) then Ok(other) else Err(ArtifactIntegrityError)
  {}

  /** Reading what is not there raises: a missing file as such, a directory or a file in the way otherwise. */
  lemma MissingIsRaised(tree: Tree, sha256: Bytes -> string, key: string, expected: Option<string>)
    requires PathOf(key).Ok? && PathOf(key).value !in tree.files
    ensures Read(tree, sha256, key, expected)
         == Err(if PathOf(key).value in tree.dirs || FileAbove(tree, PathOf(key).value) then OSError
                else FileNotFoundError)
  {}

  /** A delete answers true exactly when it removed the file of that key, and touches nothing else. */
  lemma DeleteRemovesOne(tree: Tree, key: string)
    ensures var (tree', r) := Delete(tree, key);
      && (r == Ok(true) <==> PathOf(key).Ok? && PathOf(key).value in tree.files)
      && (r == Ok(true) ==> tree' == tree.(files := tree.files - {PathOf(key).value}))
      && (r != Ok(true) ==> tree' == tree)
      && (r == Ok(false) ==> PathOf(key).Ok? && PathOf(key).value !in tree.dirs)
  {}

  lemma DeleteKeepsTree(tree: Tree, key: string)
    requires WellFormed(tree)
    ensures WellFormed(Delete(tree, key).0)
  {}
}
