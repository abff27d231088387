/** The artifact store object, and its histories: a write-once map from paths to bytes. */
module FileStore {
  import opened Outcome
  import opened ArtifactStore

  /** The proper parents of `path` with fewer than `stop` components. */
  function Parents(path: seq<string>, stop: nat): set<seq<string>>
  {
    set n | 0 < n < stop && n < |path| :: path[..n]
  }

  lemma OneMoreParent(path: seq<string>, stop: nat)
    requires 0 < stop < |path|
    ensures Parents(path, stop + 1) == Parents(path, stop) + {path[..stop]}
  {
    assert path[..stop] in Parents(path, stop + 1);
  }

  /** The directories made before the walk stops are the parents shorter than the first file met. */
  lemma MadeUpToFile(tree: Tree, path: seq<string>, stop: nat)
    requires 1 <= stop && (stop < |path| ==> path[..stop] in tree.files)
    requires forall n :: 0 < n < stop && n < |path| ==> path[..n] !in tree.files
    ensures ParentsMade(tree, path) == Parents(path, stop)
  {
    forall n | 0 < n < stop && n < |path|
      ensures path[..n] in ParentsMade(tree, path)
    {}
  }

  class FileArtifactStore {
    var tree: Tree
    const maxBytes: nat
    const sha256: Bytes -> string

    ghost predicate Valid()
      reads this
    {
      WellFormed(tree)
    }

    constructor (maxBytes: nat, sha256: Bytes -> string)
      ensures Valid() && tree == EMPTY_TREE
      ensures this.maxBytes == maxBytes && this.sha256 == sha256
    {
      this.tree := EMPTY_TREE;
      this.maxBytes := maxBytes;
      this.sha256 := sha256;
    }

    /** Makes the parent directories of `path` one by one, and stops at a file. */
    method MakeParents(path: seq<string>) returns (ok: bool)
      modifies this
      ensures tree == old(tree).(dirs := old(tree).dirs + ParentsMade(old(tree), path))
      ensures ok <==> !FileAbove(old(tree), path)
    {
      var made := 1;
      while made < |path|
        invariant 1 <= made && (made <= |path| || |path| == 0)
        invariant forall n :: 0 < n < made && n < |path| ==> path[..n] !in tree.files
        invariant tree.files == old(tree).files
        invariant tree.dirs == old(tree).dirs + Parents(path, made)
      {
        var parent := path[..made];
        if parent in tree.files {
          MadeUpToFile(old(tree), path, made);
          return false;
        }
        OneMoreParent(path, made);
        tree := tree.(dirs := tree.dirs + {parent});
        made := made + 1;
      }
      MadeUpToFile(old(tree), path, made);
      return true;
    }

    /** Makes the parents, then writes the file unless something is there. */
    method Put(key: string, data: Bytes) returns (r: Result<(nat, string)>)
      requires Valid()
      modifies this
      ensures Valid()
      ensures (tree, r) == ArtifactStore.Put(old(tree), maxBytes, sha256, key, data)
    {
      hide ParentsMade, PathOf, FileAbove;
      PutAddsOneFile(tree, maxBytes, sha256, key, data);
      if |data| > maxBytes {
        return Err(ValueError);
      }
      var parsed := PathOf(key);
      if parsed.Err? {
        return Err(ValueError);
      }
      var path := parsed.value;
      var ok := MakeParents(path);
      if !ok || path in tree.files || path in tree.dirs {
        return Err(FileExistsError);
      }
      tree := tree.(files := tree.files[path := data]);
      return Ok((|data|, sha256(data)));
    }

    method Read(key: string, expected: Option<string>) returns (r: Result<Bytes>)
      ensures r == ArtifactStore.Read(tree, sha256, key, expected)
    {
      var parsed := PathOf(key);
      if parsed.Err? {
        return Err(ValueError);
      }
      if parsed.value !in tree.files {
        return Err(if parsed.value in tree.dirs || FileAbove(tree, parsed.value) then OSError else FileNotFoundError);
      }
      var data := tree.files[parsed.value];
      if expected.Some? && sha256(data) != expected.value {
        return Err(ArtifactIntegrityError);
      }
      return Ok(data);
    }

    method Delete(key: string) returns (r: Result<bool>)
      requires Valid()
      modifies this
      ensures Valid()
      ensures (tree, r) == ArtifactStore.Delete(old(tree), key)
    {
      DeleteKeepsTree(tree, key);
      var parsed := PathOf(key);
      if parsed.Err? {
        return Err(ValueError);
      }
      var path := parsed.value;
      if path in tree.files {
        tree := tree.(files := tree.files - {path});
        return Ok(true);
      }
      if path in tree.dirs || FileAbove(tree, path) {
        return Err(OSError);
      }
      return Ok(false);
    }
  }

  // ----- histories of one store -----

  datatype StoreOp = PutOp(key: string, data: Bytes) | ReadOp(key: string) | DeleteOp(key: string)

  function Apply(tree: Tree, maxBytes: nat, sha256: Bytes -> string, op: StoreOp): Tree
  {
    match op
    case PutOp(key, data) => Put(tree, maxBytes, sha256, key, data).0
    case ReadOp(_) => tree
    case DeleteOp(key) => Delete(tree, key).0
  }

  ghost function TreeAt(maxBytes: nat, sha256: Bytes -> string, ops: seq<StoreOp>, i: nat): Tree
    requires i <= |ops|
  {
    if i == 0 then EMPTY_TREE else Apply(TreeAt(maxBytes, sha256, ops, i - 1), maxBytes, sha256, ops[i - 1])
  }

  lemma {:induction false} TreeStaysWellFormed(maxBytes: nat, sha256: Bytes -> string, ops: seq<StoreOp>, i: nat)
    requires i <= |ops|
    ensures WellFormed(TreeAt(maxBytes, sha256, ops, i))
  {
    if i > 0 {
      TreeStaysWellFormed(maxBytes, sha256, ops, i - 1);
      match ops[i - 1]
      case PutOp(key, data) => PutAddsOneFile(TreeAt(maxBytes, sha256, ops, i - 1), maxBytes, sha256, key, data);
      case ReadOp(_) =>
      case DeleteOp(key) => DeleteKeepsTree(TreeAt(maxBytes, sha256, ops, i - 1), key);
    }
  }

  /**
   A successful put is what every later read of that path returns, until a delete of that path:
   no put in between replaces it, and putting there again is refused.
   */
  lemma {:induction false} PutIsVisibleUntilDeleted(maxBytes: nat, sha256: Bytes -> string, ops: seq<StoreOp>,
                                                    i: nat, j: nat, key: string, again: Bytes)
    requires i < j <= |ops| && ops[i].PutOp?
    requires Put(TreeAt(maxBytes, sha256, ops, i), maxBytes, sha256, ops[i].key, ops[i].data).1.Ok?
    requires forall k :: i < k < j && ops[k].DeleteOp? ==> PathOf(ops[k].key) != PathOf(ops[i].key)
    requires PathOf(key) == PathOf(ops[i].key)
    ensures var tree := TreeAt(maxBytes, sha256, ops, j);
      && Read(tree, sha256, key, None) == Ok(ops[i].data)
      && Read(tree, sha256, key, Some(sha256(ops[i].data))) == Ok(ops[i].data)
      && Put(tree, maxBytes, sha256, key, again).0.files == tree.files
      && Put(tree, maxBytes, sha256, key, again).1.Err?
    decreases j
  {
    var tree := TreeAt(maxBytes, sha256, ops, j);
    var before := TreeAt(maxBytes, sha256, ops, j - 1);
    var path := PathOf(key).value;
    TreeStaysWellFormed(maxBytes, sha256, ops, j - 1);
    TreeStaysWellFormed(maxBytes, sha256, ops, j);
    if ops[j - 1].PutOp? {
      PutAddsOneFile(before, maxBytes, sha256, ops[j - 1].key, ops[j - 1].data);
    }
    if i < j - 1 {
      PutIsVisibleUntilDeleted(maxBytes, sha256, ops, i, j - 1, key, again);
      assert path in before.files && before.files[path] == ops[i].data;
    }
    assert path in tree.files && tree.files[path] == ops[i].data;
    PutAddsOneFile(tree, maxBytes, sha256, key, again);
  }

  /** Once deleted, a path reads as missing until some later put succeeds there. */
  lemma {:induction false} DeletedStaysGone(maxBytes: nat, sha256: Bytes -> string, ops: seq<StoreOp>, i: nat, j: nat,
                                            key: string)
    requires i < j <= |ops| && ops[i] == DeleteOp(key)
    requires Delete(TreeAt(maxBytes, sha256, ops, i), key).1 == Ok(true)
    requires forall k :: i < k < j && ops[k].PutOp? ==> PathOf(ops[k].key) != PathOf(key)
    ensures PathOf(key).Ok? && PathOf(key).value !in TreeAt(maxBytes, sha256, ops, j).files
    ensures Read(TreeAt(maxBytes, sha256, ops, j), sha256, key, None).Err?
    decreases j
  {
    if i < j - 1 {
      DeletedStaysGone(maxBytes, sha256, ops, i, j - 1, key);
      TreeStaysWellFormed(maxBytes, sha256, ops, j - 1);
      if ops[j - 1].PutOp? {
        PutAddsOneFile(TreeAt(maxBytes, sha256, ops, j - 1), maxBytes, sha256, ops[j - 1].key, ops[j - 1].data);
      }
    }
  }
}
