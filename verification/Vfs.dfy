/** The in-memory file system a snapshot must rebuild. */
module Vfs {
  import opened Bits
  import opened VfsPath

  datatype Node = Dir(mtime: int) | File(mtime: int, data: Bytes)

  /** Where a file's bytes lie in the image. */
  datatype Entry = Entry(path: Path, off: int, len: int, mtime: int)

  datatype Manifest = Manifest(dirs: seq<Path>, files: seq<Entry>)

  type Nodes = map<Path, Node>

  ghost predicate Normal(nodes: Nodes) {
    forall p :: p in nodes ==> Norm(p) == p
  }

  ghost predicate AncestorClosed(nodes: Nodes) {
    forall a, p :: p in nodes && IsAncestor(a, p) ==> a in nodes
  }

  // ---- what the constructor builds -----------------------------------------------------------------------------

  function WithDirs(nodes: Nodes, dirs: seq<Path>): Nodes
    decreases |dirs|
  {
    if dirs == [] then nodes else WithDirs(nodes[Norm(dirs[0]) := Dir(0)], dirs[1..])
  }

  function WithFiles(nodes: Nodes, image: Bytes, files: seq<Entry>): Nodes
    decreases |files|
  {
    if files == [] then nodes
    else
      var f := files[0];
      WithFiles(nodes[Norm(f.path) := File(f.mtime, Subarray(image, f.off, f.off + f.len))], image, files[1..])
  }

  function Listed(image: Bytes, m: Manifest): Nodes {
    WithFiles(WithDirs(map[], m.dirs), image, m.files)
  }

  /** One file system holds another, and otherwise only directories that are ancestors of it. */
  ghost predicate Completes(nodes: Nodes, base: Nodes) {
    && base.Keys <= nodes.Keys
    && (forall p :: p in base ==> nodes[p] == base[p])
    && forall p :: p in nodes && p !in base ==> nodes[p] == Dir(0) && exists q :: q in base && IsAncestor(p, q)
  }

  ghost predicate HasAncestors(nodes: Nodes, p: Path) {
    forall a :: IsAncestor(a, p) ==> a in nodes
  }

  /** A path's missing ancestors were added as directories, nothing else happened. */
  ghost predicate Grown(before: Nodes, nodes: Nodes, p: Path) {
    && before.Keys <= nodes.Keys
    && (forall q :: q in before ==> nodes[q] == before[q])
    && forall q :: q in nodes && q !in before ==> nodes[q] == Dir(0) && IsAncestor(q, p)
  }

  lemma GrowOne(before: Nodes, nodes: Nodes, a: Path, p: Path)
    requires Grown(before, nodes, p) && a !in nodes && IsAncestor(a, p)
    ensures Grown(before, nodes[a := Dir(0)], p)
  {
  }

  class FileSystem {
    var nodes: Nodes

    /** Add the directories above a path that are missing, and nothing else. */
    method EnsureAncestors(p: Path)
      modifies this
      ensures Grown(old(nodes), nodes, p) && HasAncestors(nodes, p)
    {
      var cur := "";
      var parts := Segments(p);
      for i := 0 to if |parts| == 0 then 0 else |parts| - 1
        invariant Grown(old(nodes), nodes, p)
        invariant cur == Joined(parts[..i])
        invariant forall k :: 0 < k <= i ==> Joined(parts[..k]) in nodes
      {
        JoinedSnoc(parts[..i], parts[i]);
        assert parts[..i] + [parts[i]] == parts[..i + 1];
        cur := cur + "/" + parts[i];
        assert IsAncestor(cur, p);
        if cur !in nodes {
          GrowOne(old(nodes), nodes, cur, p);
          nodes := nodes[cur := Dir(0)];
        }
      }
      assert IsAncestor("/", p);
      if "/" !in nodes {
        GrowOne(old(nodes), nodes, "/", p);
        nodes := nodes["/" := Dir(0)];
      }
    }

    /** A file system from an image and its manifest. */
    constructor (image: Bytes, m: Manifest)
      ensures Completes(nodes, Listed(image, m))
      ensures AncestorClosed(nodes)
    {
      nodes := map[];
      new;
      for i := 0 to |m.dirs|
        invariant WithDirs(nodes, m.dirs[i..]) == WithDirs(map[], m.dirs)
      {
        assert m.dirs[i..][0] == m.dirs[i] && m.dirs[i..][1..] == m.dirs[i + 1..];
        var key := Normalize(m.dirs[i]);
        nodes := nodes[key := Dir(0)];
      }
      for i := 0 to |m.files|
        invariant WithFiles(nodes, image, m.files[i..]) == Listed(image, m)
      {
        assert m.files[i..][0] == m.files[i] && m.files[i..][1..] == m.files[i + 1..];
        var f := m.files[i];
        var key := Normalize(f.path);
        nodes := nodes[key := File(f.mtime, Subarray(image, f.off, f.off + f.len))];
      }
      ghost var base := nodes;
      var todo := nodes.Keys;
      while todo != {}
        invariant todo <= base.Keys
        invariant Completes(nodes, base)
        invariant forall p :: p in base && p !in todo ==> HasAncestors(nodes, p)
      {
        var p :| p in todo;
        ghost var before := nodes;
        EnsureAncestors(p);
        forall q | q in base && q !in todo - {p}
          ensures HasAncestors(nodes, q)
        {
          assert q != p ==> HasAncestors(before, q);
        }
        todo := todo - {p};
      }
      CompletedIsClosed(nodes, base);
    }
  }

  lemma CompletedIsClosed(nodes: Nodes, base: Nodes)
    requires Completes(nodes, base)
    requires forall p :: p in base ==> HasAncestors(nodes, p)
    ensures AncestorClosed(nodes)
  {
    forall a, p | p in nodes && IsAncestor(a, p)
      ensures a in nodes
    {
      if p in base {
        assert HasAncestors(nodes, p);
      } else {
        var q :| q in base && IsAncestor(p, q);
        AncestorsAreClosed(a, p, q);
        assert HasAncestors(nodes, q);
      }
    }
  }

  /** A listing already closed under ancestors gains nothing. */
  lemma ClosedNeedsNothing(nodes: Nodes, base: Nodes)
    requires Completes(nodes, base) && AncestorClosed(base)
    ensures nodes == base
  {
    forall p | p in nodes
      ensures p in base
    {
    }
  }
}
