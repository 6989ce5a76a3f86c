/** The directory tree behind the artifact store, and what storing and deleting a file make of it. */
module ArtifactTree {
  import opened Bytes
  import opened Wrappers

  /** A path is the sequence of its segments. */
  type Path = seq<string>

  datatype Node = Dir | File(data: seq<byte>)

  type Tree = map<Path, Node>

  function Parent(p: Path): Path
    requires p != []
  {
    p[..|p| - 1]
  }

  predicate IsDir(n: Tree, p: Path) {
    p in n && n[p].Dir?
  }

  predicate IsFile(n: Tree, p: Path) {
    p in n && n[p].File?
  }

  predicate ChildOf(q: Path, p: Path) {
    q != [] && Parent(q) == p
  }

  predicate HasChild(n: Tree, p: Path) {
    exists q | q in n :: ChildOf(q, p)
  }

  /** The top is a directory, and everything else lies in a directory. */
  ghost predicate WellFormed(n: Tree) {
    IsDir(n, []) && forall p | p in n && p != [] :: IsDir(n, Parent(p))
  }

  /** The path lies strictly below the root. */
  predicate Below(root: Path, p: Path) {
    root < p
  }

  ghost predicate NoEmptyBelow(n: Tree, root: Path) {
    forall p | IsDir(n, p) && Below(root, p) :: HasChild(n, p)
  }

  // ----- what the operations make of a tree -----

  /** The nearest place on the way up that exists. */
  function Nearest(n: Tree, p: Path): (a: Path)
    ensures a <= p
    decreases |p|
  {
    if p == [] || p in n then p else Nearest(n, Parent(p))
  }

  /** Directories can be made down to the path. */
  predicate Clear(n: Tree, p: Path) {
    IsDir(n, Nearest(n, p))
  }

  function WithDirs(n: Tree, p: Path): Tree
    decreases |p|
  {
    if p == [] || p in n then n else WithDirs(n, Parent(p))[p := Dir]
  }

  /** Whether a file can be stored at the path. */
  predicate CanPut(n: Tree, full: Path)
    requires full != []
  {
    Clear(n, Parent(full)) && !IsDir(n, full)
  }

  function PutFile(n: Tree, full: Path, data: seq<byte>): Tree
    requires full != []
  {
    WithDirs(n, Parent(full))[full := File(data)]
  }

  /** Files and empty directories can be removed. */
  predicate CanRemove(n: Tree, p: Path) {
    p in n && (n[p].File? || !HasChild(n, p))
  }

  /** Removing emptied directories on the way up to the root. */
  function Climb(n: Tree, p: Path, root: Path): Tree
    requires root <= p
    decreases |p|
  {
    if p == root || !CanRemove(n, p) then n else Climb(n - {p}, Parent(p), root)
  }

  function DeleteFile(n: Tree, full: Path, root: Path): Tree
    requires root < full
  {
    Climb(n - {full}, Parent(full), root)
  }

  // ----- directories on the way -----

  lemma {:induction false} WithDirsAre(n: Tree, p: Path)
    requires WellFormed(n) && Clear(n, p)
    ensures WellFormed(WithDirs(n, p)) && IsDir(WithDirs(n, p), p)
    ensures forall q | q in n :: q in WithDirs(n, p) && WithDirs(n, p)[q] == n[q]
    ensures forall q | q in WithDirs(n, p) && q !in n :: q <= p && IsDir(WithDirs(n, p), q)
    decreases |p|
  {
    if p != [] && p !in n {
      WithDirsAre(n, Parent(p));
    }
  }

  /** A directory that was not there has nothing in it but what was made for the path. */
  lemma NewDirIsEmpty(n: Tree, p: Path)
    requires WellFormed(n) && Clear(n, p) && p != [] && p !in n
    ensures !HasChild(WithDirs(n, p), p)
    ensures WithDirs(n, p) - {p} == WithDirs(n, Parent(p)) && Clear(n, Parent(p))
  {
    var m := WithDirs(n, Parent(p));
    WithDirsAre(n, Parent(p));
    assert p !in m;
    assert m[p := Dir] - {p} == m;
    forall q | q in n && q != []
      ensures Parent(q) != p
    {
      assert IsDir(n, Parent(q));
    }
  }

  // ----- storing -----

  lemma PutKeepsForm(n: Tree, full: Path, data: seq<byte>)
    requires WellFormed(n) && full != [] && CanPut(n, full)
    ensures WellFormed(PutFile(n, full, data))
  {
    var m := WithDirs(n, Parent(full));
    WithDirsAre(n, Parent(full));
    assert !(full <= Parent(full));
    assert !IsDir(m, full);
    forall p | p in m[full := File(data)] && p != []
      ensures IsDir(m[full := File(data)], Parent(p))
    {
      assert IsDir(m, Parent(p));
    }
  }

  /** Storing leaves no empty directory below the root if there was none. */
  lemma PutKeepsFull(n: Tree, full: Path, data: seq<byte>, root: Path)
    requires WellFormed(n) && full != [] && CanPut(n, full) && NoEmptyBelow(n, root)
    ensures NoEmptyBelow(PutFile(n, full, data), root)
  {
    hide WithDirs, CanPut;
    var after := PutFile(n, full, data);
    forall p | IsDir(after, p) && Below(root, p)
      ensures HasChild(after, p)
    {
      OldOrOnTheWay(n, full, data, p);
      if IsDir(n, p) {
        assert HasChild(n, p);
        var q :| q in n && ChildOf(q, p);
        assert q in after;
      } else {
        var q := full[..|p| + 1];
        assert q in after && ChildOf(q, p);
      }
    }
  }

  lemma OldOrOnTheWay(n: Tree, full: Path, data: seq<byte>, p: Path)
    requires WellFormed(n) && full != [] && CanPut(n, full)
    ensures forall q | q in n :: q in PutFile(n, full, data)
    ensures IsDir(PutFile(n, full, data), p) && !IsDir(n, p) ==> p < full && full[..|p| + 1] in PutFile(n, full, data)
  {
    var way := Parent(full);
    var m := WithDirs(n, way);
    WithDirsAre(n, way);
    if IsDir(PutFile(n, full, data), p) && p !in n {
      WithDirsHasPrefix(n, way, p);
      if |p| < |way| {
        assert full[..|p| + 1] == way[..|p| + 1];
      } else {
        assert full[..|p| + 1] == full;
      }
    }
  }

  /** Every place between a directory that was made and the path was made, too. */
  lemma {:induction false} WithDirsHasPrefix(n: Tree, p: Path, q: Path)
    requires WellFormed(n) && Clear(n, p) && q <= p
    ensures forall i | |q| <= i <= |p| :: p[..i] in WithDirs(n, p)
    decreases |p|
  {
    WithDirsAre(n, p);
    if p == q {
      assert p[..|p|] == p;
    } else {
      var m := WithDirs(n, p);
      forall i | |q| <= i <= |p|
        ensures p[..i] in m
      {
        PrefixesPresent(m, p, i);
      }
    }
  }

  lemma {:induction false} PrefixesPresent(m: Tree, p: Path, i: nat)
    requires WellFormed(m) && p in m && i <= |p|
    ensures p[..i] in m
    decreases |p|
  {
    if i < |p| {
      PrefixesPresent(m, Parent(p), i);
      assert Parent(p)[..i] == p[..i];
    } else {
      assert p[..i] == p;
    }
  }

  // ----- when a store succeeds, and what it makes -----

  /** Directories can be made down to a path exactly if no file is on the way. */
  lemma {:induction false} ClearExactly(n: Tree, p: Path)
    requires WellFormed(n)
    ensures Clear(n, p) <==> forall q | q <= p :: !IsFile(n, q)
    decreases |p|
  {
    if p in n {
      AboveAreDirs(n, p);
      forall q | q <= p && IsFile(n, q)
        ensures q == p
      {
        SameOrAbove(q, p);
      }
      assert IsFile(n, p) || Clear(n, p);
    } else {
      ClearExactly(n, Parent(p));
      forall q | IsFile(n, q)
        ensures q <= p <==> q <= Parent(p)
      {
        OnTheWay(q, p);
      }
    }
  }

  lemma OnTheWay(q: Path, p: Path)
    requires p != []
    ensures q <= p <==> q == p || q <= Parent(p)
    ensures q < p <==> q <= Parent(p)
  {
    SameOrAbove(q, p);
  }

  lemma SameOrAbove(q: Path, p: Path)
    ensures q <= p ==> q == p || q < p
  {
    if q <= p && |q| == |p| {
      assert p[..|q|] == p;
    }
  }

  lemma {:induction false} AboveAreDirs(n: Tree, p: Path)
    requires WellFormed(n) && p in n
    ensures forall q | q < p :: IsDir(n, q)
    ensures forall q | q < p :: !IsFile(n, q)
    decreases |p|
  {
    if p != [] {
      AboveAreDirs(n, Parent(p));
      forall q | q < p
        ensures IsDir(n, q) && !IsFile(n, q)
      {
        OnTheWay(q, p);
        SameOrAbove(q, Parent(p));
      }
    }
  }

  /** A file can be stored exactly if no file lies on the way to the path and the path is no directory. */
  lemma CanPutExactly(n: Tree, full: Path)
    requires WellFormed(n) && full != []
    ensures CanPut(n, full) <==> (forall p | p < full :: !IsFile(n, p)) && !IsDir(n, full)
  {
    ClearExactly(n, Parent(full));
    forall p | IsFile(n, p)
      ensures p < full <==> p <= Parent(full)
    {
      OnTheWay(p, full);
    }
  }

  lemma {:induction false} WithDirsExactly(n: Tree, p: Path, q: Path)
    requires WellFormed(n) && Clear(n, p)
    ensures q in WithDirs(n, p) <==> q in n || q <= p
    decreases |p|
  {
    WithDirsAre(n, p);
    if q <= p {
      WithDirsHasPrefix(n, p, q);
      assert p[..|q|] == q;
    }
  }

  /** What a store makes: the file, directories on the way where there was nothing, and no other change. */
  lemma PutFileExactly(n: Tree, full: Path, data: seq<byte>, q: Path)
    requires WellFormed(n) && full != [] && CanPut(n, full)
    ensures var m := PutFile(n, full, data);
            && (q in m <==> q in n || q <= full)
            && (q in m ==> m[q] == if q == full then File(data) else if q in n then n[q] else Dir)
  {
    WithDirsAre(n, Parent(full));
    WithDirsExactly(n, Parent(full), q);
    OnTheWay(q, full);
  }

  /**
   * A store that fails after its directories were made leaves them behind: an empty directory appears below the
   * root exactly if one had to be made there.
   */
  lemma DirsAloneLeaveEmpty(n: Tree, p: Path, root: Path)
    requires WellFormed(n) && Clear(n, p) && root <= p && NoEmptyBelow(n, root)
    ensures NoEmptyBelow(WithDirs(n, p), root) <==> p in n || p == root
  {
    WithDirsAre(n, p);
    if p !in n && p != [] {
      NewDirIsEmpty(n, p);
      if p == root {
        var m := WithDirs(n, p);
        forall q | IsDir(m, q) && Below(root, q)
          ensures HasChild(m, q)
        {
          assert IsDir(n, q) && HasChild(n, q);
          var c :| c in n && ChildOf(c, q);
          assert c in m;
        }
      } else {
        assert Below(root, p);
      }
    }
  }

  // ----- deleting -----

  lemma RemoveKeepsForm(n: Tree, p: Path)
    requires WellFormed(n) && p != [] && CanRemove(n, p)
    ensures WellFormed(n - {p})
  {
    forall q | q in n - {p} && q != []
      ensures IsDir(n - {p}, Parent(q))
    {
      assert IsDir(n, Parent(q));
      assert ChildOf(q, Parent(q));
    }
  }

  /** The climb only takes directories away, and none but those strictly below the root. */
  lemma {:induction false} ClimbIsModest(n: Tree, p: Path, root: Path)
    requires WellFormed(n) && root <= p && (p in n ==> IsDir(n, p))
    ensures WellFormed(Climb(n, p, root))
    ensures forall q | q in Climb(n, p, root) :: q in n && Climb(n, p, root)[q] == n[q]
    ensures forall q | q in n && q !in Climb(n, p, root) :: IsDir(n, q) && root < q <= p
    decreases |p|
  {
    if p != root && CanRemove(n, p) {
      RemoveKeepsForm(n, p);
      assert IsDir(n, Parent(p));
      ClimbIsModest(n - {p}, Parent(p), root);
    }
  }

  // ----- when a delete succeeds, and what it takes away -----

  /** A file or an empty directory can be removed. */
  lemma CanRemoveExactly(n: Tree, p: Path)
    requires WellFormed(n)
    ensures CanRemove(n, p) <==> IsFile(n, p) || (IsDir(n, p) && forall q | q in n :: !(p < q))
  {
    if IsDir(n, p) {
      if q :| q in n && p < q {
        PrefixesPresent(n, q, |p| + 1);
        assert q[..|p| + 1] in n && ChildOf(q[..|p| + 1], p);
      }
    }
  }

  /** Everything below q lies on the way to the path. */
  ghost predicate OnlyOnTheWay(n: Tree, q: Path, full: Path) {
    forall x | x in n && q < x :: x <= full
  }

  /** The climb removes exactly the directories below the root that hold nothing off the way. */
  lemma {:induction false} ClimbExactly(n: Tree, p: Path, root: Path, q: Path)
    requires WellFormed(n) && root <= p && IsDir(n, p)
    ensures q in Climb(n, p, root) <==> q in n && !(root < q <= p && OnlyOnTheWay(n, q, p))
    decreases |p|
  {
    CanRemoveExactly(n, p);
    if p == root || !CanRemove(n, p) {
      if p != root && root < q <= p {
        var x :| x in n && p < x;
        assert q < x && !(x <= p);
      }
    } else {
      RemoveKeepsForm(n, p);
      assert IsDir(n, Parent(p));
      ClimbExactly(n - {p}, Parent(p), root, q);
      if q != p && q in n {
        OnTheWay(q, p);
        if root < q <= p {
          OnTheWayAbove(n, p, q);
        }
      }
    }
  }

  lemma OnTheWayAbove(n: Tree, p: Path, q: Path)
    requires p != [] && q <= Parent(p)
    ensures OnlyOnTheWay(n - {p}, q, Parent(p)) <==> OnlyOnTheWay(n, q, p)
  {
    forall x | x in n
      ensures x <= p <==> x == p || x <= Parent(p)
    {
      OnTheWay(x, p);
    }
    assert forall x | x in n && x != p :: x in n - {p};
  }

  /** What a delete takes away: the file, and the directories below the root that held nothing else. */
  lemma DeleteFileExactly(n: Tree, full: Path, root: Path, q: Path)
    requires WellFormed(n) && root < full && CanRemove(n, full)
    ensures var m := DeleteFile(n, full, root);
            && (q in m <==> q in n && !(root < q <= full && OnlyOnTheWay(n, q, full)))
            && (q in m ==> m[q] == n[q])
  {
    RemoveKeepsForm(n, full);
    assert IsDir(n, Parent(full));
    ClimbExactly(n - {full}, Parent(full), root, q);
    ClimbIsModest(n - {full}, Parent(full), root);
    CanRemoveExactly(n, full);
    if q == full {
      NothingBelow(n, full);
    } else if root < q <= full {
      OnTheWay(q, full);
      OnTheWayAbove(n, full, q);
    }
  }

  lemma NothingBelow(n: Tree, full: Path)
    requires WellFormed(n) && CanRemove(n, full)
    ensures OnlyOnTheWay(n, full, full)
  {
    CanRemoveExactly(n, full);
    forall x | x in n
      ensures !(full < x)
    {
      AboveAreDirs(n, x);
    }
  }

  ghost predicate NoEmptyBut(n: Tree, root: Path, p: Path) {
    forall q | IsDir(n, q) && Below(root, q) && q != p :: HasChild(n, q)
  }

  lemma RemoveLeavesParent(n: Tree, root: Path, p: Path)
    requires WellFormed(n) && p != [] && CanRemove(n, p) && NoEmptyBut(n, root, p)
    ensures NoEmptyBut(n - {p}, root, Parent(p))
  {
    forall q | IsDir(n - {p}, q) && Below(root, q) && q != Parent(p)
      ensures HasChild(n - {p}, q)
    {
      assert HasChild(n, q);
      var c :| c in n && ChildOf(c, q);
      assert c in n - {p};
    }
  }

  lemma {:induction false} ClimbFills(n: Tree, p: Path, root: Path)
    requires WellFormed(n) && root <= p && IsDir(n, p) && NoEmptyBut(n, root, p)
    ensures NoEmptyBelow(Climb(n, p, root), root)
    decreases |p|
  {
    if p != root && CanRemove(n, p) {
      RemoveKeepsForm(n, p);
      RemoveLeavesParent(n, root, p);
      assert IsDir(n, Parent(p));
      ClimbFills(n - {p}, Parent(p), root);
    }
  }

  /** Deleting keeps the form, leaves no empty directory below the root, and keeps the root. */
  lemma DeleteKeeps(n: Tree, full: Path, root: Path)
    requires WellFormed(n) && root < full && CanRemove(n, full)
    ensures WellFormed(DeleteFile(n, full, root))
    ensures NoEmptyBelow(n, root) ==> NoEmptyBelow(DeleteFile(n, full, root), root)
    ensures root in n ==> root in DeleteFile(n, full, root)
  {
    RemoveKeepsForm(n, full);
    assert IsDir(n, Parent(full));
    ClimbIsModest(n - {full}, Parent(full), root);
    if NoEmptyBelow(n, root) {
      RemoveLeavesParent(n, root, full);
      ClimbFills(n - {full}, Parent(full), root);
    }
  }

  // ----- storing and deleting again -----

  /** Climbing undoes the making of directories exactly if the root was there and ends the way up, or it has company. */
  lemma {:induction false} ClimbUndoesDirs(n: Tree, p: Path, root: Path)
    requires WellFormed(n) && Clear(n, p) && root <= p
    ensures Climb(WithDirs(n, p), p, root) == n <==>
            root in n && (Nearest(n, p) == root || HasChild(n, Nearest(n, p)))
    decreases |p|
  {
    var m := WithDirs(n, p);
    WithDirsAre(n, p);
    if p in n {
      if p != root && !HasChild(n, p) {
        RemoveKeepsForm(n, p);
        assert IsDir(n, Parent(p));
        ClimbIsModest(n - {p}, Parent(p), root);
        assert p !in Climb(n, p, root);
      } else {
        RootPresent(n, p, root);
      }
    } else if p == root {
      assert p in m;
    } else {
      NewDirIsEmpty(n, p);
      ClimbUndoesDirs(n, Parent(p), root);
    }
  }

  lemma RootPresent(n: Tree, p: Path, root: Path)
    requires WellFormed(n) && p in n && root <= p
    ensures root in n
  {
    PrefixesPresent(n, p, |root|);
    assert p[..|root|] == root;
  }

  /**
   * Storing under a new key and deleting it again gives back the tree exactly if the root was there and the
   * nearest directory that already was is the root or has something in it.
   */
  lemma PutThenDelete(n: Tree, full: Path, data: seq<byte>, root: Path)
    requires WellFormed(n) && root < full && full !in n && CanPut(n, full)
    ensures DeleteFile(PutFile(n, full, data), full, root) == n <==>
            root in n && (Nearest(n, Parent(full)) == root || HasChild(n, Nearest(n, Parent(full))))
  {
    var p := Parent(full);
    var m := WithDirs(n, p);
    WithDirsAre(n, p);
    assert !(full <= p);
    assert m[full := File(data)] - {full} == m;
    ClimbUndoesDirs(n, p, root);
  }

  /** Where no directory below the root is empty, only the root has to be there. */
  lemma PutThenDeleteRestores(n: Tree, full: Path, data: seq<byte>, root: Path)
    requires WellFormed(n) && NoEmptyBelow(n, root) && root < full && full !in n && CanPut(n, full)
    ensures DeleteFile(PutFile(n, full, data), full, root) == n <==> root in n
  {
    PutThenDelete(n, full, data, root);
    var p, a := Parent(full), Nearest(n, Parent(full));
    if root in n {
      NearestIsBelow(n, p, root);
    }
  }

  lemma {:induction false} NearestIsBelow(n: Tree, p: Path, root: Path)
    requires root in n && root <= p
    ensures root <= Nearest(n, p)
    decreases |p|
  {
    if p != [] && p !in n {
      assert root == p[..|root|] && root != p;
      NearestIsBelow(n, Parent(p), root);
    }
  }

  // ----- the tree as a store -----

  datatype Op = Put(key: Path, data: seq<byte>) | Delete(key: Path)

  predicate Succeeds(n: Tree, root: Path, op: Op) {
    op.key != [] && if op.Put? then CanPut(n, root + op.key) else CanRemove(n, root + op.key)
  }

  function Perform(n: Tree, root: Path, op: Op): Tree {
    if !Succeeds(n, root, op) then n
    else if op.Put? then PutFile(n, root + op.key, op.data)
    else DeleteFile(n, root + op.key, root)
  }

  function PerformAll(n: Tree, root: Path, ops: seq<Op>): Tree
    decreases |ops|
  {
    if ops == [] then n else PerformAll(Perform(n, root, ops[0]), root, ops[1..])
  }

  function Content(n: Tree, root: Path, key: Path): Option<seq<byte>> {
    if IsFile(n, root + key) then Some(n[root + key].data) else None
  }

  lemma SameKey(root: Path, k: Path, key: Path)
    ensures root + k == root + key <==> k == key
  {
    if root + k == root + key {
      assert k == (root + k)[|root|..] && key == (root + key)[|root|..];
    }
  }

  /** When the operations succeed: nothing is in the way of a store, and there is something to delete. */
  lemma SucceedsExactly(n: Tree, root: Path, op: Op)
    requires WellFormed(n)
    ensures op.Put? ==>
              (Succeeds(n, root, op) <==>
               op.key != [] && (forall p | p < root + op.key :: !IsFile(n, p)) && !IsDir(n, root + op.key))
    ensures op.Delete? ==>
              (Succeeds(n, root, op) <==>
               op.key != [] && (IsFile(n, root + op.key) ||
                                (IsDir(n, root + op.key) && forall q | q in n :: !(root + op.key < q))))
  {
    if op.key != [] {
      if op.Put? {
        CanPutExactly(n, root + op.key);
      } else {
        CanRemoveExactly(n, root + op.key);
      }
    }
  }

  /** A key that holds a file can always be stored again, and then holds the new data. */
  lemma StoringOverwrites(n: Tree, root: Path, key: Path, data: seq<byte>)
    requires WellFormed(n) && key != [] && Content(n, root, key).Some?
    ensures Content(Perform(n, root, Put(key, data)), root, key) == Some(data)
  {
    AboveAreDirs(n, root + key);
    SucceedsExactly(n, root, Put(key, data));
    PerformIsUpdate(n, root, Put(key, data), key);
  }

  /** Storing and deleting change the content under one key only. */
  lemma PerformIsUpdate(n: Tree, root: Path, op: Op, k: Path)
    requires WellFormed(n) && Succeeds(n, root, op)
    ensures Content(Perform(n, root, op), root, k) ==
            if k == op.key then (if op.Put? then Some(op.data) else None) else Content(n, root, k)
  {
    var full := root + op.key;
    SameKey(root, k, op.key);
    if op.Put? {
      WithDirsAre(n, Parent(full));
    } else {
      RemoveKeepsForm(n, full);
      assert IsDir(n, Parent(full));
      ClimbIsModest(n - {full}, Parent(full), root);
    }
  }

  lemma PerformKeeps(n: Tree, root: Path, op: Op)
    requires WellFormed(n) && NoEmptyBelow(n, root)
    ensures WellFormed(Perform(n, root, op)) && NoEmptyBelow(Perform(n, root, op), root)
    ensures root in n ==> root in Perform(n, root, op)
  {
    if Succeeds(n, root, op) {
      var full := root + op.key;
      if op.Put? {
        PutKeepsForm(n, full, op.data);
        PutKeepsFull(n, full, op.data, root);
        WithDirsAre(n, Parent(full));
      } else {
        DeleteKeeps(n, full, root);
      }
    }
  }

  /** The content under a key after a run of operations: that of the last successful one on it. */
  function Latest(n: Tree, root: Path, ops: seq<Op>, key: Path): Option<seq<byte>>
    decreases |ops|
  {
    if ops == [] then Content(n, root, key)
    else
      var before, op := ops[..|ops| - 1], ops[|ops| - 1];
      if op.key == key && Succeeds(PerformAll(n, root, before), root, op)
      then (if op.Put? then Some(op.data) else None)
      else Latest(n, root, before, key)
  }

  /** Over any run the tree stays well formed, the root stays, and no empty directory appears below it. */
  lemma {:induction false} RunKeeps(n: Tree, root: Path, ops: seq<Op>)
    requires WellFormed(n) && NoEmptyBelow(n, root)
    ensures WellFormed(PerformAll(n, root, ops)) && NoEmptyBelow(PerformAll(n, root, ops), root)
    ensures root in n ==> root in PerformAll(n, root, ops)
    decreases |ops|
  {
    hide WellFormed, NoEmptyBelow, Perform;
    if ops != [] {
      PerformKeeps(n, root, ops[0]);
      RunKeeps(Perform(n, root, ops[0]), root, ops[1..]);
    }
  }

  lemma {:induction false} PerformLast(n: Tree, root: Path, ops: seq<Op>, op: Op)
    ensures PerformAll(n, root, ops + [op]) == Perform(PerformAll(n, root, ops), root, op)
    decreases |ops|
  {
    hide Perform;
    if ops == [] {
      assert [] + [op] == [op] && [op][1..] == [];
    } else {
      assert (ops + [op])[1..] == ops[1..] + [op];
      PerformLast(Perform(n, root, ops[0]), root, ops[1..], op);
    }
  }

  /** Over any run the tree is a store: under each key lies what was last put there and not deleted. */
  lemma {:induction false} RunIsStore(n: Tree, root: Path, ops: seq<Op>, key: Path)
    requires WellFormed(n) && NoEmptyBelow(n, root)
    ensures Content(PerformAll(n, root, ops), root, key) == Latest(n, root, ops, key)
    decreases |ops|
  {
    hide WellFormed, NoEmptyBelow, Content, Succeeds;
    if ops != [] {
      var before, op := ops[..|ops| - 1], ops[|ops| - 1];
      assert ops == before + [op];
      RunIsStore(n, root, before, key);
      RunKeeps(n, root, before);
      PerformLast(n, root, before, op);
      var m := PerformAll(n, root, before);
      if Succeeds(m, root, op) {
        PerformIsUpdate(m, root, op, key);
      }
    }
  }
}
