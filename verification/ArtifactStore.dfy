/** The artifact store on the local file system. */
module ArtifactStore {
  import opened Wrappers
  import opened Bytes
  import opened ArtifactTree

  /** A name no file of a directory has. */
  lemma FreshName(n: Tree, dir: Path)
    ensures exists name: string :: ".tmp-" <= name && dir + [name] !in n
  {
    var paths, seen: set<Path>, bound: nat := n.Keys, {}, 0;
    while paths != {}
      invariant paths + seen == n.Keys
      invariant forall p | p in seen && p != [] :: |p[|p| - 1]| <= bound
    {
      var p :| p in paths;
      if p != [] && |p[|p| - 1]| > bound {
        bound := |p[|p| - 1]|;
      }
      paths, seen := paths - {p}, seen + {p};
    }
    var name: string := ".tmp-" + seq(bound, _ => '0');
    var p := dir + [name];
    assert p[|p| - 1] == name && |name| > bound;
    assert ".tmp-" <= name && p !in seen;
  }

  /** Everything stays, and at most directories on the way to the path are added. */
  ghost predicate Grown(before: Tree, after: Tree, p: Path) {
    && (forall q | q in before :: q in after && after[q] == before[q])
    && (forall q | q in after && q !in before :: q <= p && after[q].Dir?)
  }

  /** The file system calls; where they are reliable they fail for no other reason than the tree gives. */
  class InternalFS {
    const root: Path
    const reliable: bool
    var nodes: Tree

    constructor (root: Path, reliable: bool, nodes: Tree)
      ensures this.root == root && this.reliable == reliable && this.nodes == nodes
    {
      this.root, this.reliable, this.nodes := root, reliable, nodes;
    }

    method Sync() returns (ok: bool)
      ensures reliable ==> ok
    {
      ok := *;
      ok := ok || reliable;
    }

    method MkdirAll(p: Path) returns (ok: bool)
      requires WellFormed(nodes)
      modifies this
      ensures WellFormed(nodes) && Grown(old(nodes), nodes, p)
      ensures ok ==> Clear(old(nodes), p) && nodes == WithDirs(old(nodes), p)
      ensures reliable ==> ok == Clear(old(nodes), p)
      ensures reliable && !ok ==> nodes == old(nodes)
      decreases |p|
    {
      if p in nodes {
        return nodes[p].Dir?;
      }
      ok := MkdirAll(Parent(p));
      if ok {
        ok := Sync();
        if ok {
          WithDirsAre(old(nodes), Parent(p));
          nodes := nodes[p := Dir];
        }
      }
    }

    method CreateTemp(dir: Path) returns (tmp: Option<Path>)
      modifies this
      ensures tmp.Some? ==> tmp.value !in old(nodes) && ChildOf(tmp.value, dir)
      ensures nodes == if tmp.Some? then old(nodes)[tmp.value := File([])] else old(nodes)
      ensures reliable ==> tmp.Some?
    {
      FreshName(nodes, dir);
      var name: string :| ".tmp-" <= name && dir + [name] !in nodes;
      var ok := Sync();
      tmp := None;
      if ok {
        var p := dir + [name];
        tmp := Some(p);
        nodes := nodes[p := File([])];
      }
    }

    /** io.Copy: when it fails, part of the data may have been written. */
    method Copy(p: Path, source: Option<seq<byte>>) returns (ok: bool)
      modifies this
      ensures IsFile(nodes, p) && nodes == old(nodes)[p := nodes[p]]
      ensures ok ==> source == Some(nodes[p].data)
      ensures reliable ==> ok == source.Some?
    {
      ok := Sync();
      var data: seq<byte> := *;
      if ok && source.Some? {
        data := source.value;
      } else {
        ok := false;
      }
      nodes := nodes[p := File(data)];
    }

    method Rename(from: Path, to: Path) returns (ok: bool)
      requires IsFile(nodes, from) && to != [] && IsDir(nodes, Parent(to))
      modifies this
      ensures ok ==> !IsDir(old(nodes), to) && nodes == (old(nodes) - {from})[to := old(nodes)[from]]
      ensures !ok ==> nodes == old(nodes)
      ensures reliable ==> ok == !IsDir(old(nodes), to)
    {
      ok := Sync();
      if ok && !IsDir(nodes, to) {
        nodes := (nodes - {from})[to := nodes[from]];
      } else {
        ok := false;
      }
    }

    method Remove(p: Path) returns (ok: bool)
      modifies this
      ensures ok ==> p != [] && CanRemove(old(nodes), p) && nodes == old(nodes) - {p}
      ensures !ok ==> nodes == old(nodes)
      ensures reliable ==> ok == (p != [] && CanRemove(old(nodes), p))
    {
      ok := Sync();
      if ok && p != [] && CanRemove(nodes, p) {
        nodes := nodes - {p};
      } else {
        ok := false;
      }
    }

    /**
     * On a reliable file system a store succeeds exactly if the source can be read, no file lies on the way and the
     * key is no directory: a file under the key is overwritten. A store that succeeds leaves the data under the
     * key, directories on the way where there was nothing, and no other change. One that fails takes nothing away;
     * where the file system is reliable it leaves no temporary file, either.
     */
    method Put(key: Path, source: Option<seq<byte>>) returns (ok: bool)
      requires key != [] && WellFormed(nodes)
      modifies this
      ensures WellFormed(nodes)
      ensures ok ==> source.Some? && CanPut(old(nodes), root + key)
      ensures ok ==> nodes == PutFile(old(nodes), root + key, source.value)
      ensures ok ==> forall q ::
                && (q in nodes <==> q in old(nodes) || q <= root + key)
                && (q in nodes ==> nodes[q] == if q == root + key then File(source.value)
                                               else if q in old(nodes) then old(nodes)[q] else Dir)
      ensures reliable ==> (ok <==> source.Some? && CanPut(old(nodes), root + key))
      ensures reliable ==>
                (ok <==> && source.Some? && (forall p | p < root + key :: !IsFile(old(nodes), p))
                         && !IsDir(old(nodes), root + key))
      ensures reliable && !ok ==> nodes == var p := Parent(root + key);
                                           if Clear(old(nodes), p) then WithDirs(old(nodes), p) else old(nodes)
      ensures !ok ==> forall p | p in old(nodes) :: p in nodes && nodes[p] == old(nodes)[p]
    {
      var full := root + key;
      WithDirsAreIfClear(old(nodes), Parent(full));
      CanPutExactly(old(nodes), full);
      ok := MkdirAll(Parent(full));
      if ok {
        assert !(full <= Parent(full));
        assert IsDir(nodes, full) <==> IsDir(old(nodes), full);
        ok := Fill(full, source);
        if ok {
          PutKeepsForm(old(nodes), full, source.value);
          forall q
            ensures && (q in nodes <==> q in old(nodes) || q <= full)
                    && (q in nodes ==> nodes[q] == if q == full then File(source.value)
                                                   else if q in old(nodes) then old(nodes)[q] else Dir)
          {
            PutFileExactly(old(nodes), full, source.value, q);
          }
        }
      }
    }

    /** The second half of a store, with the directory in place: by way of a temporary file. */
    method Fill(full: Path, source: Option<seq<byte>>) returns (ok: bool)
      requires full != [] && WellFormed(nodes) && IsDir(nodes, Parent(full))
      modifies this
      ensures !ok ==> WellFormed(nodes)
      ensures ok ==> source.Some? && !IsDir(old(nodes), full) && nodes == old(nodes)[full := File(source.value)]
      ensures reliable ==> (ok <==> source.Some? && !IsDir(old(nodes), full))
      ensures reliable && !ok ==> nodes == old(nodes)
      ensures !ok ==> forall p | p in old(nodes) :: p in nodes && nodes[p] == old(nodes)[p]
    {
      ghost var m := nodes;
      var tmp := CreateTemp(Parent(full));
      if tmp.None? {
        return false;
      }
      var name := tmp.value;
      ok := Copy(name, source);
      TempKeepsForm(m, name, nodes);
      if ok {
        ok := Sync();
      }
      if ok {
        ok := Sync();
      }
      if ok {
        assert IsDir(m, full) <==> IsDir(nodes, full);
        ok := Rename(name, full);
      }
      if !ok {
        Discard(m, name);
      }
    }

    /** Clean-up after a failure: the temporary file goes, unless the file system fails once more. */
    method Discard(ghost m: Tree, name: Path)
      requires WellFormed(m) && name !in m && name != [] && WellFormed(nodes)
      requires IsFile(nodes, name) && nodes == m[name := nodes[name]]
      modifies this
      ensures WellFormed(nodes)
      ensures forall p | p in m :: p in nodes && nodes[p] == m[p]
      ensures reliable ==> nodes == m
    {
      var done := Remove(name);
      if done {
        assert nodes == m;
      }
    }

    /**
     * Deleting a key and the directories it leaves empty: on a reliable file system exactly those strictly below
     * the root that held nothing else. It succeeds on a file and on an empty directory. Where the file system fails
     * in between, the climb ends early and only fewer directories go.
     */
    method Delete(key: Path) returns (ok: bool)
      requires key != [] && WellFormed(nodes)
      modifies this
      ensures WellFormed(nodes)
      ensures ok ==> CanRemove(old(nodes), root + key)
      ensures !ok ==> nodes == old(nodes)
      ensures reliable ==> (ok <==> CanRemove(old(nodes), root + key))
      ensures reliable ==>
                (ok <==> IsFile(old(nodes), root + key) ||
                         (IsDir(old(nodes), root + key) && forall q | q in old(nodes) :: !(root + key < q)))
      ensures reliable && ok ==> nodes == DeleteFile(old(nodes), root + key, root)
      ensures reliable && ok ==> forall q ::
                q in nodes <==>
                q in old(nodes) && !(root < q <= root + key && OnlyOnTheWay(old(nodes), q, root + key))
      ensures forall p | p in nodes :: p in old(nodes) && nodes[p] == old(nodes)[p]
      ensures forall p | p in old(nodes) && p !in nodes ::
                ok && (p == root + key || (IsDir(old(nodes), p) && root < p < root + key))
    {
      var full := root + key;
      CanRemoveExactly(old(nodes), full);
      ok := Remove(full);
      if !ok {
        return;
      }
      RemoveKeepsForm(old(nodes), full);
      ghost var m := nodes;
      var parent := Parent(full);
      assert IsDir(old(nodes), parent);
      while parent != root
        invariant root <= parent < full && WellFormed(nodes) && IsDir(nodes, parent)
        invariant reliable ==> Climb(nodes, parent, root) == Climb(m, Parent(full), root)
        invariant forall p | p in nodes :: p in m && nodes[p] == m[p]
        invariant forall p | p in m && p !in nodes :: IsDir(m, p) && root < p < full
        decreases |parent|
      {
        ghost var before := nodes;
        var removed := Remove(parent);
        if !removed {
          break;
        }
        RemoveKeepsForm(before, parent);
        assert IsDir(before, Parent(parent));
        parent := Parent(parent);
      }
      forall q
        ensures reliable ==>
                  (q in nodes <==> q in old(nodes) && !(root < q <= full && OnlyOnTheWay(old(nodes), q, full)))
      {
        DeleteFileExactly(old(nodes), full, root, q);
      }
    }
  }

  lemma WithDirsAreIfClear(n: Tree, p: Path)
    requires WellFormed(n)
    ensures Clear(n, p) ==> forall q | q in n :: q in WithDirs(n, p) && WithDirs(n, p)[q] == n[q]
    ensures Clear(n, p) ==> forall q | q in WithDirs(n, p) && q !in n :: q <= p && IsDir(WithDirs(n, p), q)
    ensures Clear(n, p) ==> IsDir(WithDirs(n, p), p)
  {
    if Clear(n, p) {
      WithDirsAre(n, p);
    }
  }

  lemma TempKeepsForm(m: Tree, name: Path, n: Tree)
    requires WellFormed(m) && name !in m && name != [] && IsDir(m, Parent(name))
    requires IsFile(n, name) && n == m[name := n[name]]
    ensures WellFormed(n)
  {
    forall p | p in n && p != []
      ensures IsDir(n, Parent(p))
    {
      assert IsDir(m, Parent(p));
    }
  }
}
