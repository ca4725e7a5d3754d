/**
 The folders of one project as a parent graph, and the artifacts filed in them
 (backend/internal/artifact/folders_postgres.go). Every operation is one
 transaction: it either takes effect as a whole or is refused and changes nothing.
 */
module FolderForest {
  import opened Common

  type FolderId = string
  type ArtifactId = string

  datatype Folder = Folder(parent: Option<FolderId>, name: string, position: nat)

  datatype Artifact = Artifact(folder: Option<FolderId>, trashed: bool)

  type Folders = map<FolderId, Folder>

  // ----- ancestors -----

  /** `x` reaches `top` in exactly `n` parent steps. */
  ghost predicate Reaches(folders: Folders, x: FolderId, top: FolderId, n: nat)
    decreases n
  {
    x in folders &&
    if n == 0 then x == top
    else folders[x].parent.Some? && Reaches(folders, folders[x].parent.value, top, n - 1)
  }

  /** The parent chain of `x` ends at a root after exactly `n` steps. */
  ghost predicate Rooted(folders: Folders, x: FolderId, n: nat)
    decreases n
  {
    x in folders &&
    if n == 0 then folders[x].parent.None?
    else folders[x].parent.Some? && Rooted(folders, folders[x].parent.value, n - 1)
  }

  ghost predicate HasRoot(folders: Folders, x: FolderId) {
    exists n: nat :: Rooted(folders, x, n)
  }

  /** Every parent is present and every chain ends at a root: there is no cycle. */
  ghost predicate Forest(folders: Folders) {
    forall x :: x in folders ==> HasRoot(folders, x)
  }

  ghost predicate InSubtree(folders: Folders, x: FolderId, top: FolderId) {
    exists n: nat :: Reaches(folders, x, top, n)
  }

  ghost function Subtree(folders: Folders, top: FolderId): set<FolderId> {
    set x | x in folders && InSubtree(folders, x, top)
  }

  lemma {:induction false} DepthIsUnique(folders: Folders, x: FolderId, n: nat, m: nat)
    requires Rooted(folders, x, n) && Rooted(folders, x, m)
    ensures n == m
    decreases n
  {
    if n > 0 && m > 0 {
      DepthIsUnique(folders, folders[x].parent.value, n - 1, m - 1);
    }
  }

  lemma {:induction false} ReachingAddsDepth(folders: Folders, x: FolderId, top: FolderId, n: nat, depth: nat)
    requires Reaches(folders, x, top, n) && Rooted(folders, top, depth)
    ensures Rooted(folders, x, n + depth)
    decreases n
  {
    if n > 0 {
      ReachingAddsDepth(folders, folders[x].parent.value, top, n - 1, depth);
    }
  }

  lemma {:induction false} DepthAlongChain(folders: Folders, x: FolderId, top: FolderId, n: nat, depth: nat)
    requires Reaches(folders, x, top, n) && Rooted(folders, x, depth)
    ensures n <= depth && Rooted(folders, top, depth - n)
    decreases n
  {
    if n > 0 {
      DepthAlongChain(folders, folders[x].parent.value, top, n - 1, depth - 1);
    }
  }

  /** In a forest a folder reaches another in at most one number of steps. */
  lemma DistanceIsUnique(folders: Folders, x: FolderId, top: FolderId, n: nat, m: nat)
    requires Forest(folders) && Reaches(folders, x, top, n) && Reaches(folders, x, top, m)
    ensures n == m
  {
    var depth: nat :| Rooted(folders, x, depth);
    DepthAlongChain(folders, x, top, n, depth);
    DepthAlongChain(folders, x, top, m, depth);
    DepthIsUnique(folders, top, depth - n, depth - m);
  }

  lemma ParentsPresent(folders: Folders, x: FolderId)
    requires Forest(folders) && x in folders && folders[x].parent.Some?
    ensures folders[x].parent.value in folders
  {
    var n: nat :| Rooted(folders, x, n);
    assert n > 0 && Rooted(folders, folders[x].parent.value, n - 1);
  }

  /** One more step below: the children of a subtree member belong to the subtree. */
  lemma ChildInSubtree(folders: Folders, x: FolderId, parent: FolderId, top: FolderId)
    requires x in folders && folders[x].parent == Some(parent) && InSubtree(folders, parent, top)
    ensures InSubtree(folders, x, top)
  {
    var n: nat :| Reaches(folders, parent, top, n);
    assert Reaches(folders, x, top, n + 1);
  }

  // ----- names -----

  /** The unique index on (parent, lower(name)); `lower` is the database's case folding. */
  predicate NamesUnique(folders: Folders, lower: string -> string) {
    forall x, y :: x in folders && y in folders && x != y && folders[x].parent == folders[y].parent ==>
      lower(folders[x].name) != lower(folders[y].name)
  }

  predicate Named(folders: Folders, x: FolderId, parent: Option<FolderId>, name: string, lower: string -> string) {
    x in folders && folders[x].parent == parent && lower(folders[x].name) == lower(name)
  }

  /** No other folder under this parent has the name up to case. */
  predicate NameFree(folders: Folders, id: FolderId, parent: Option<FolderId>, name: string, lower: string -> string) {
    forall x :: x in folders && x != id ==> !Named(folders, x, parent, name, lower)
  }

  lemma PutKeepsNames(folders: Folders, id: FolderId, folder: Folder, lower: string -> string)
    requires NamesUnique(folders, lower) && NameFree(folders, id, folder.parent, folder.name, lower)
    ensures NamesUnique(folders[id := folder], lower)
  {
    assert forall x :: x in folders && x != id && folders[x].parent == folder.parent ==>
      !Named(folders, x, folder.parent, folder.name, lower);
  }

  // ----- what each transaction does to the folders -----

  /** Statement 2 of a recursive deletion: every folder of the subtree becomes a root. */
  function Detach(folders: Folders, ids: set<FolderId>): Folders {
    map x | x in folders :: if x in ids then folders[x].(parent := None) else folders[x]
  }

  lemma {:induction false} ReparentKeepsOthers(folders: Folders, id: FolderId, folder: Folder, x: FolderId, n: nat)
    requires id in folders && Rooted(folders, x, n) && !InSubtree(folders, x, id)
    ensures Rooted(folders[id := folder], x, n)
    decreases n
  {
    assert x != id by {
      if x == id {
        assert Reaches(folders, x, id, 0);
      }
    }
    if n > 0 {
      var parent := folders[x].parent.value;
      if InSubtree(folders, parent, id) {
        ChildInSubtree(folders, x, parent, id);
      }
      ReparentKeepsOthers(folders, id, folder, parent, n - 1);
    }
  }

  lemma {:induction false} ReparentKeepsBelow(folders: Folders, id: FolderId, folder: Folder, x: FolderId, n: nat, depth: nat)
    requires id in folders && Reaches(folders, x, id, n) && Rooted(folders[id := folder], id, depth)
    ensures HasRoot(folders[id := folder], x)
    decreases n
  {
    if n > 0 && x != id {
      var parent := folders[x].parent.value;
      ReparentKeepsBelow(folders, id, folder, parent, n - 1, depth);
      var m: nat :| Rooted(folders[id := folder], parent, m);
      assert Rooted(folders[id := folder], x, m + 1);
    }
  }

  /** Moving a folder under a folder outside its subtree, or to the root, keeps the forest. */
  lemma MoveKeepsForest(folders: Folders, id: FolderId, folder: Folder)
    requires Forest(folders) && id in folders
    requires folder.parent.Some? ==>
      folder.parent.value in folders && !InSubtree(folders, folder.parent.value, id)
    ensures Forest(folders[id := folder])
  {
    var moved := folders[id := folder];
    ghost var depth: nat := 0;
    if folder.parent.Some? {
      var n: nat :| Rooted(folders, folder.parent.value, n);
      ReparentKeepsOthers(folders, id, folder, folder.parent.value, n);
      depth := n + 1;
    }
    assert Rooted(moved, id, depth);
    forall x | x in moved
      ensures HasRoot(moved, x)
    {
      if InSubtree(folders, x, id) {
        var n: nat :| Reaches(folders, x, id, n);
        ReparentKeepsBelow(folders, id, folder, x, n, depth);
      } else {
        var n: nat :| Rooted(folders, x, n);
        ReparentKeepsOthers(folders, id, folder, x, n);
      }
    }
  }

  /** Refusing moves below itself is also necessary: such a move would leave no chain to a root. */
  lemma MoveBelowItselfBreaksForest(folders: Folders, id: FolderId, folder: Folder)
    requires Forest(folders) && id in folders && folder.parent.Some?
    requires InSubtree(folders, folder.parent.value, id)
    ensures !Forest(folders[id := folder])
  {
    var moved := folders[id := folder];
    if Forest(moved) {
      var parent := folder.parent.value;
      var n: nat :| Reaches(folders, parent, id, n);
      var below := ReachesWithout(folders, id, folder, parent, n);
      assert Reaches(moved, id, id, below + 1);
      assert Reaches(moved, id, id, 0);
      DistanceIsUnique(moved, id, id, below + 1, 0);
    }
  }

  lemma {:induction false} ReachesWithout(folders: Folders, id: FolderId, folder: Folder, x: FolderId, n: nat)
    returns (m: nat)
    requires id in folders && Reaches(folders, x, id, n)
    ensures Reaches(folders[id := folder], x, id, m)
    decreases n
  {
    if x == id {
      m := 0;
    } else {
      var k := ReachesWithout(folders, id, folder, folders[x].parent.value, n - 1);
      m := k + 1;
    }
  }

  lemma {:induction false} CreateKeepsChain(folders: Folders, id: FolderId, folder: Folder, x: FolderId, n: nat)
    requires id !in folders && Rooted(folders, x, n)
    ensures Rooted(folders[id := folder], x, n)
    decreases n
  {
    if n > 0 {
      CreateKeepsChain(folders, id, folder, folders[x].parent.value, n - 1);
    }
  }

  lemma CreateKeepsForest(folders: Folders, id: FolderId, folder: Folder)
    requires Forest(folders) && id !in folders
    requires folder.parent.Some? ==> folder.parent.value in folders
    ensures Forest(folders[id := folder])
  {
    var created := folders[id := folder];
    forall x | x in created
      ensures HasRoot(created, x)
    {
      if x == id {
        if folder.parent.Some? {
          var n: nat :| Rooted(folders, folder.parent.value, n);
          CreateKeepsChain(folders, id, folder, folder.parent.value, n);
          assert Rooted(created, id, n + 1);
        } else {
          assert Rooted(created, id, 0);
        }
      } else {
        var n: nat :| Rooted(folders, x, n);
        CreateKeepsChain(folders, id, folder, x, n);
      }
    }
  }

  lemma {:induction false} RemoveKeepsChain(folders: Folders, id: FolderId, x: FolderId, n: nat)
    requires Rooted(folders, x, n) && x != id
    requires forall y :: y in folders ==> folders[y].parent != Some(id)
    ensures Rooted(folders - {id}, x, n)
    decreases n
  {
    if n > 0 {
      RemoveKeepsChain(folders, id, folders[x].parent.value, n - 1);
    }
  }

  lemma RemoveKeepsForest(folders: Folders, id: FolderId)
    requires Forest(folders)
    requires forall y :: y in folders ==> folders[y].parent != Some(id)
    ensures Forest(folders - {id})
  {
    forall x | x in folders - {id}
      ensures HasRoot(folders - {id}, x)
    {
      var n: nat :| Rooted(folders, x, n);
      RemoveKeepsChain(folders, id, x, n);
    }
  }

  lemma {:induction false} DetachKeepsChain(folders: Folders, top: FolderId, x: FolderId, n: nat)
    requires Rooted(folders, x, n) && !InSubtree(folders, x, top)
    ensures Rooted(Detach(folders, Subtree(folders, top)), x, n)
    decreases n
  {
    if n > 0 {
      var parent := folders[x].parent.value;
      if InSubtree(folders, parent, top) {
        ChildInSubtree(folders, x, parent, top);
      }
      DetachKeepsChain(folders, top, parent, n - 1);
    }
  }

  lemma DetachKeepsForest(folders: Folders, top: FolderId)
    requires Forest(folders)
    ensures Forest(Detach(folders, Subtree(folders, top)))
    ensures forall x :: x in folders ==> Detach(folders, Subtree(folders, top))[x].parent != Some(top)
  {
    var detached := Detach(folders, Subtree(folders, top));
    forall x | x in detached
      ensures HasRoot(detached, x)
    {
      if InSubtree(folders, x, top) {
        assert Rooted(detached, x, 0);
      } else {
        var n: nat :| Rooted(folders, x, n);
        DetachKeepsChain(folders, top, x, n);
      }
    }
    forall x | x in folders
      ensures detached[x].parent != Some(top)
    {
      if folders[x].parent == Some(top) {
        ParentsPresent(folders, x);
        assert Reaches(folders, x, top, 1) by {
          assert Reaches(folders, top, top, 0);
        }
      }
    }
  }

  /** After its edges were cleared, the subtree of the selected folder is that folder alone. */
  lemma DetachedSubtreeIsAlone(folders: Folders, top: FolderId)
    requires Forest(folders) && top in folders
    ensures Subtree(Detach(folders, Subtree(folders, top)), top) == {top}
  {
    var detached := Detach(folders, Subtree(folders, top));
    DetachKeepsForest(folders, top);
    assert Reaches(detached, top, top, 0);
    forall x | x in Subtree(detached, top)
      ensures x == top
    {
      if x != top {
        OnePredecessor(detached, x, top);
      }
    }
  }

  /** A folder that reaches another one does so through a child of it. */
  lemma OnePredecessor(folders: Folders, x: FolderId, top: FolderId)
    requires InSubtree(folders, x, top) && x != top
    ensures exists y :: y in folders && folders[y].parent == Some(top)
  {
    var n: nat :| Reaches(folders, x, top, n);
    ChildOnTheWay(folders, x, top, n);
  }

  lemma {:induction false} ChildOnTheWay(folders: Folders, x: FolderId, top: FolderId, n: nat)
    requires Reaches(folders, x, top, n) && n > 0
    ensures exists y :: y in folders && folders[y].parent == Some(top)
    decreases n
  {
    if n > 1 {
      ChildOnTheWay(folders, folders[x].parent.value, top, n - 1);
    }
  }
}
