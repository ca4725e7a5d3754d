/**
 What each folder transaction does to the folders and artifacts themselves, and when it is
 refused (backend/internal/artifact/folders_postgres.go:20-480).
 */
module FolderEffects {
  import opened Common
  import opened FolderForest
  import opened FolderTransactions

  /** Another folder under this parent carries the name up to case. */
  predicate NameTaken(folders: Folders, id: FolderId, parent: Option<FolderId>, name: string, lower: string -> string) {
    exists x :: x in folders && x != id && folders[x].parent == parent && lower(folders[x].name) == lower(name)
  }

  lemma TakenOrFree(folders: Folders, id: FolderId, parent: Option<FolderId>, name: string, lower: string -> string)
    ensures NameTaken(folders, id, parent, name, lower) <==> !NameFree(folders, id, parent, name, lower)
  {
  }

  /** Every other folder and every artifact is what it was. */
  predicate OnlyFolderChanged(before: Project, after: Project, id: FolderId) {
    && after.artifacts == before.artifacts
    && after.folders.Keys == before.folders.Keys + {id}
    && forall x :: x in before.folders && x != id ==> after.folders[x] == before.folders[x]
  }

  /** The position behind all folders under this parent, without a gap. */
  predicate LastPosition(folders: Folders, parent: Option<FolderId>, position: nat) {
    && (forall x :: x in folders && folders[x].parent == parent ==> folders[x].position < position)
    && (position > 0 ==> exists x :: x in folders && folders[x].parent == parent && folders[x].position == position - 1)
  }

  lemma NewFolderIsLast(folders: Folders, parent: Option<FolderId>, name: string)
    ensures NewFolder(folders, parent, name).parent == parent && NewFolder(folders, parent, name).name == name
    ensures LastPosition(folders, parent, NewFolder(folders, parent, name).position)
  {
    var positions := Positions(folders, parent);
    assert forall x :: x in folders && folders[x].parent == parent ==> folders[x].position in positions;
    var next := AfterLast(positions);
    if next > 0 {
      assert next - 1 in positions;
    }
    hide AfterLast;
  }

  /** A folder is created under the requested parent, behind its last child, and nothing else changes. */
  lemma CreateEffect(project: Project, id: FolderId, parent: Option<FolderId>, name: string, lower: string -> string)
    ensures
      var folders, result := project.folders, Create(project, id, parent, name, lower);
      if |name| < 1 || |name| > 255 || '\r' in name || '\n' in name then result == Rejected(Invalid)
      else if id in folders || NameTaken(folders, id, parent, name, lower) then result == Rejected(NameConflict)
      else if parent.Some? && parent.value !in folders then result == Rejected(NotFound)
      else
        && result.Accepted? && OnlyFolderChanged(project, result.project, id)
        && result.project.folders[id].parent == parent && result.project.folders[id].name == name
        && LastPosition(folders, parent, result.project.folders[id].position)
  {
    TakenOrFree(project.folders, id, parent, name, lower);
    NewFolderIsLast(project.folders, parent, name);
    hide NameTaken, NameFree, NewFolder, LastPosition;
  }

  /** A rename changes the name and nothing else. */
  lemma RenameEffect(project: Project, id: FolderId, name: string, lower: string -> string)
    ensures
      var folders, result := project.folders, Rename(project, id, name, lower);
      if id !in folders then result == Rejected(NotFound)
      else if |name| < 1 || |name| > 255 || '\r' in name || '\n' in name then result == Rejected(Invalid)
      else if NameTaken(folders, id, folders[id].parent, name, lower) then result == Rejected(NameConflict)
      else
        && result.Accepted? && OnlyFolderChanged(project, result.project, id)
        && result.project.folders[id] == Folder(folders[id].parent, name, folders[id].position)
  {
    if id in project.folders {
      TakenOrFree(project.folders, id, project.folders[id].parent, name, lower);
    }
    hide NameTaken, NameFree;
  }

  /**
   A move is refused, in this order, for a missing folder, for the folder itself as parent, for
   a missing parent, for a parent in the folder's own subtree, and for a name that is taken
   there. Otherwise the folder is under the requested parent, at the requested position or its
   old one, with its name; every other folder and every artifact stays.
   */
  lemma MoveEffect(project: Project, id: FolderId, parent: Option<FolderId>, position: Option<nat>, lower: string -> string)
    ensures
      var folders, result := project.folders, Move(project, id, parent, position, lower);
      if id !in folders then result == Rejected(NotFound)
      else if parent == Some(id) then result == Rejected(Cycle)
      else if parent.Some? && parent.value !in folders then result == Rejected(NotFound)
      else if parent.Some? && parent.value in Subtree(folders, id) then result == Rejected(Cycle)
      else if NameTaken(folders, id, parent, folders[id].name, lower) then result == Rejected(NameConflict)
      else
        && result.Accepted? && OnlyFolderChanged(project, result.project, id)
        && result.project.folders[id]
           == Folder(parent, folders[id].name, if position.Some? then position.value else folders[id].position)
  {
    if id in project.folders {
      TakenOrFree(project.folders, id, parent, project.folders[id].name, lower);
    }
    hide NameTaken, NameFree, InSubtree;
  }

  // ----- what a move does to the subtrees -----

  lemma {:induction false} ReachesOn(folders: Folders, x: FolderId, y: FolderId, z: FolderId, n: nat, m: nat)
    requires Reaches(folders, x, y, n) && Reaches(folders, y, z, m)
    ensures Reaches(folders, x, z, n + m)
    decreases n
  {
    if n > 0 {
      ReachesOn(folders, folders[x].parent.value, y, z, n - 1, m);
    }
  }

  /** Of two folders on one chain, the nearer one reaches the other. */
  lemma {:induction false} ChainIsOrdered(folders: Folders, x: FolderId, y: FolderId, z: FolderId, n: nat, m: nat)
    requires Reaches(folders, x, y, n) && Reaches(folders, x, z, m) && n <= m
    ensures Reaches(folders, y, z, m - n)
    decreases n
  {
    if n > 0 {
      ChainIsOrdered(folders, folders[x].parent.value, y, z, n - 1, m - 1);
    }
  }

  /** Chains that do not meet the moved folder are untouched. */
  lemma {:induction false} ChainBeside(folders: Folders, id: FolderId, folder: Folder, x: FolderId, top: FolderId, n: nat)
    requires id in folders && Reaches(folders, x, top, n) && !InSubtree(folders, x, id)
    ensures Reaches(folders[id := folder], x, top, n)
    decreases n
  {
    if x == id {
      assert Reaches(folders, x, id, 0);
    }
    if n > 0 {
      var parent := folders[x].parent.value;
      if InSubtree(folders, parent, id) {
        ChildInSubtree(folders, x, parent, id);
      }
      ChainBeside(folders, id, folder, parent, top, n - 1);
    }
  }

  /** Below the moved folder the chains are untouched as well. */
  lemma {:induction false} ChainBelow(folders: Folders, id: FolderId, folder: Folder, x: FolderId, top: FolderId, n: nat)
    requires Forest(folders) && id in folders && top != id && InSubtree(folders, top, id) && Reaches(folders, x, top, n)
    ensures Reaches(folders[id := folder], x, top, n)
    decreases n
  {
    if n > 0 {
      if x == id {
        var m: nat :| Reaches(folders, top, id, m);
        ReachesOn(folders, id, top, id, n, m);
        DistanceIsUnique(folders, id, id, n + m, 0);
      }
      ChainBelow(folders, id, folder, folders[x].parent.value, top, n - 1);
    } else if x == id {
      assert false;
    }
  }

  /** A folder belongs to the moved one before the move exactly if it does so afterwards. */
  lemma MovedSubtreeStays(folders: Folders, id: FolderId, folder: Folder)
    requires id in folders
    ensures Subtree(folders[id := folder], id) == Subtree(folders, id)
    ensures forall x :: InSubtree(folders[id := folder], x, id) <==> InSubtree(folders, x, id)
  {
    var after := folders[id := folder];
    assert after[id := folders[id]] == folders;
    forall x
      ensures InSubtree(after, x, id) <==> InSubtree(folders, x, id)
    {
      if n: nat :| Reaches(folders, x, id, n) {
        var m := ReachesWithout(folders, id, folder, x, n);
      }
      if n: nat :| Reaches(after, x, id, n) {
        var m := ReachesWithout(after, id, folders[id], x, n);
      }
    }
  }

  lemma BesideUnchanged(folders: Folders, id: FolderId, folder: Folder, x: FolderId, top: FolderId)
    requires id in folders && x in folders && !InSubtree(folders, x, id)
    ensures InSubtree(folders[id := folder], x, top) <==> InSubtree(folders, x, top)
  {
    var after := folders[id := folder];
    assert after[id := folders[id]] == folders;
    MovedSubtreeStays(folders, id, folder);
    if n: nat :| Reaches(folders, x, top, n) {
      ChainBeside(folders, id, folder, x, top, n);
    }
    if n: nat :| Reaches(after, x, top, n) {
      ChainBeside(after, id, folders[id], x, top, n);
    }
  }

  lemma BelowFollows(folders: Folders, id: FolderId, folder: Folder, x: FolderId, top: FolderId)
    requires id in folders && InSubtree(folders, x, id) && !InSubtree(folders, top, id)
    requires folder.parent.Some? ==> folder.parent.value in folders && !InSubtree(folders, folder.parent.value, id)
    ensures InSubtree(folders[id := folder], x, top)
      <==> folder.parent.Some? && InSubtree(folders, folder.parent.value, top)
  {
    var after := folders[id := folder];
    var n: nat :| Reaches(folders, x, id, n);
    var a := ReachesWithout(folders, id, folder, x, n);
    MovedSubtreeStays(folders, id, folder);
    assert Reaches(folders, id, id, 0) && top != id;
    if folder.parent.Some? {
      BesideUnchanged(folders, id, folder, folder.parent.value, top);
      if b: nat :| Reaches(after, folder.parent.value, top, b) {
        assert Reaches(after, id, top, b + 1);
        ReachesOn(after, x, id, top, a, b + 1);
      }
    }
    if m: nat :| Reaches(after, x, top, m) {
      if m < a {
        ChainIsOrdered(after, x, top, id, m, a);
        assert false;
      } else {
        ChainIsOrdered(after, x, id, top, a, m);
        assert folder.parent.Some? && Reaches(after, folder.parent.value, top, m - a - 1);
      }
    }
  }

  lemma EdgeMovesSubtree(folders: Folders, id: FolderId, folder: Folder, top: FolderId)
    requires Forest(folders) && id in folders && top in folders
    requires folder.parent.Some? ==> folder.parent.value in folders && folder.parent.value !in Subtree(folders, id)
    ensures
      var moved := Subtree(folders, id);
      Subtree(folders[id := folder], top)
      == if top in moved then Subtree(folders, top)
         else if folder.parent.Some? && folder.parent.value in Subtree(folders, top) then Subtree(folders, top) + moved
         else Subtree(folders, top) - moved
  {
    var after, moved := folders[id := folder], Subtree(folders, id);
    forall x | x in folders
      ensures InSubtree(after, x, top)
        <==> if top in moved then InSubtree(folders, x, top)
             else if x in moved then folder.parent.Some? && InSubtree(folders, folder.parent.value, top)
             else InSubtree(folders, x, top)
    {
      if top in moved {
        InsideUnchanged(folders, id, folder, x, top);
      } else if x in moved {
        BelowFollows(folders, id, folder, x, top);
      } else {
        BesideUnchanged(folders, id, folder, x, top);
      }
    }
    hide InSubtree, Forest;
  }

  /**
   After an accepted move the moved folder and every folder below it keep their subtrees. Any
   other folder has exactly the moved subtree more than before if the new parent lies below it,
   and has none of it otherwise.
   */
  lemma MoveMovesSubtree(project: Project, id: FolderId, parent: Option<FolderId>, position: Option<nat>,
                         lower: string -> string, top: FolderId)
    requires Sound(project, lower) && Move(project, id, parent, position, lower).Accepted? && top in project.folders
    ensures
      var before, after := project.folders, Move(project, id, parent, position, lower).project.folders;
      var moved := Subtree(before, id);
      Subtree(after, top)
      == if top in moved then Subtree(before, top)
         else if parent.Some? && parent.value in Subtree(before, top) then Subtree(before, top) + moved
         else Subtree(before, top) - moved
  {
    MoveEffect(project, id, parent, position, lower);
    var before, after := project.folders, Move(project, id, parent, position, lower).project.folders;
    assert after == before[id := after[id]];
    hide Move, Subtree, NameTaken;
    EdgeMovesSubtree(before, id, after[id], top);
  }

  lemma InsideUnchanged(folders: Folders, id: FolderId, folder: Folder, x: FolderId, top: FolderId)
    requires Forest(folders) && id in folders && InSubtree(folders, top, id) && x in folders
    requires folder.parent.Some? ==> folder.parent.value in folders && !InSubtree(folders, folder.parent.value, id)
    ensures InSubtree(folders[id := folder], x, top) <==> InSubtree(folders, x, top)
  {
    var after := folders[id := folder];
    assert after[id := folders[id]] == folders;
    MovedSubtreeStays(folders, id, folder);
    if top != id {
      MoveKeepsForest(folders, id, folder);
      if n: nat :| Reaches(folders, x, top, n) {
        ChainBelow(folders, id, folder, x, top, n);
      }
      if n: nat :| Reaches(after, x, top, n) {
        ChainBelow(after, id, folders[id], x, top, n);
      }
    }
  }

  // ----- deletion and filing -----

  /** The artifacts filed in these folders are filed nowhere, and all others stay where they were. */
  predicate Unfiled(before: map<ArtifactId, Artifact>, after: map<ArtifactId, Artifact>, ids: set<FolderId>) {
    && after.Keys == before.Keys
    && forall a :: a in before ==>
         && after[a].trashed == before[a].trashed
         && after[a].folder == if before[a].folder.Some? && before[a].folder.value in ids then None else before[a].folder
  }

  /** A plain deletion removes a folder without children and unfiles its artifacts; any other is refused. */
  lemma PlainDeletionEffect(project: Project, id: FolderId, lower: string -> string)
    ensures
      var folders, result := project.folders, Delete(project, id, false, lower);
      if id !in folders then result == Rejected(NotFound)
      else if exists x :: x in folders && folders[x].parent == Some(id) then result == Rejected(HasChildren)
      else
        && result.Accepted?
        && result.project.folders.Keys == folders.Keys - {id}
        && (forall x :: x in folders && x != id ==> result.project.folders[x] == folders[x])
        && Unfiled(project.artifacts, result.project.artifacts, {id})
  {
    hide DeleteRecursively;
  }

  lemma DetachingEffect(project: Project, ids: set<FolderId>, id: FolderId)
    ensures
      var folders, after := project.folders, Detach(project.folders, ids) - {id};
      && after.Keys == folders.Keys - {id}
      && (forall x :: x in folders && x != id ==>
            after[x] == Folder(if x in ids then None else folders[x].parent, folders[x].name, folders[x].position))
      && Unfiled(project.artifacts, Unfile(project.artifacts, ids), ids)
  {
  }

  /**
   An accepted recursive deletion removes the selected folder, makes every folder below it a
   root with its name and position, and unfiles the artifacts of the whole subtree.
   */
  lemma RecursiveDeletionOnFields(project: Project, id: FolderId, lower: string -> string)
    requires Sound(project, lower)
    ensures
      var folders, result := project.folders, Delete(project, id, true, lower);
      var subtree := Subtree(folders, id);
      && (id !in folders ==> result == Rejected(NotFound))
      && (result.Accepted? ==>
            && result.project.folders.Keys == folders.Keys - {id}
            && (forall x :: x in folders && x != id ==>
                  result.project.folders[x]
                  == Folder(if x in subtree then None else folders[x].parent, folders[x].name, folders[x].position))
            && Unfiled(project.artifacts, result.project.artifacts, subtree))
  {
    if id in project.folders {
      hide *;
      RecursiveDeletionEffect(project, id, lower);
      DetachingEffect(project, Subtree(project.folders, id), id);
    }
  }

  /** Filing an artifact changes its folder and nothing else; trashed artifacts are refused. */
  lemma FilingEffect(project: Project, artifact: ArtifactId, folder: Option<FolderId>)
    ensures
      var result := MoveArtifact(project, artifact, folder);
      && (result.Accepted? <==>
            && artifact in project.artifacts && !project.artifacts[artifact].trashed
            && (folder.Some? ==> folder.value in project.folders))
      && (result.Rejected? ==> result.error == NotFound)
      && (result.Accepted? ==>
            result.project == Project(project.folders, project.artifacts[artifact := Artifact(folder, false)]))
  {
  }

  // ----- paths -----

  /** Generated identities: not in use, and all different. */
  predicate Unused(folders: Folders, path: seq<Segment>) {
    && (forall k :: 0 <= k < |path| ==> path[k].id !in folders)
    && forall j, k :: 0 <= j < k < |path| ==> path[j].id != path[k].id
  }

  ghost predicate ValidNames(path: seq<Segment>) {
    forall k :: 0 <= k < |path| ==> ValidName(path[k].name)
  }

  function Ids(path: seq<Segment>): set<FolderId> {
    set k | 0 <= k < |path| :: path[k].id
  }

  /** The folder above segment `k` of a path that starts below `parent` and is new throughout. */
  function Above(parent: Option<FolderId>, path: seq<Segment>, k: nat): Option<FolderId>
    requires k <= |path|
  {
    if k == 0 then parent else Some(path[k - 1].id)
  }

  /** One new folder for each segment, each in the one before, the first behind the children of `parent`. */
  ghost predicate AddsBranch(before: Folders, after: Folders, parent: Option<FolderId>, path: seq<Segment>) {
    && after.Keys == before.Keys + Ids(path)
    && (forall x :: x in before ==> after[x] == before[x])
    && (forall k :: 0 <= k < |path| ==>
          && path[k].id in after
          && after[path[k].id].parent == Above(parent, path, k) && after[path[k].id].name == path[k].name
          && (k > 0 ==> after[path[k].id].position == 0))
    && (path != [] ==> LastPosition(before, parent, after[path[0].id].position))
  }

  lemma NoChildOfUnused(folders: Folders, id: FolderId)
    requires Forest(folders) && id !in folders
    ensures forall x :: x in folders ==> folders[x].parent != Some(id)
  {
    forall x | x in folders
      ensures folders[x].parent != Some(id)
    {
      if folders[x].parent == Some(id) {
        ParentsPresent(folders, x);
      }
    }
  }

  /** The first segment is new: so are all others. */
  lemma {:induction false} BranchIsNew(project: Project, parent: Option<FolderId>, path: seq<Segment>, lower: string -> string)
    requires Sound(project, lower) && Present(project.folders, parent)
    requires ValidNames(path) && Unused(project.folders, path)
    requires path != [] ==> !Exists(project.folders, parent, path[0].name, lower)
    ensures
      var result := EnsurePath(project, parent, path, lower);
      && result.Resolved? && result.project.artifacts == project.artifacts
      && result.leaf == Above(parent, path, |path|)
      && AddsBranch(project.folders, result.project.folders, parent, path)
    decreases |path|
  {
    if path != [] {
      var segment := path[0];
      var folder := NewFolder(project.folders, parent, segment.name);
      FreeUnlessExists(project.folders, segment.id, parent, segment.name, lower);
      CreateKeepsSound(project, segment.id, parent, segment.name, lower);
      NewFolderIsLast(project.folders, parent, segment.name);
      NoChildOfUnused(project.folders, segment.id);
      var next := PutFolder(project, segment.id, folder);
      TailUnused(project.folders, path, folder);
      NothingBelow(project.folders, segment.id, folder, path, lower);
      hide Sound, NameFree, Exists, NewFolder, ValidName, AddsBranch, LastPosition, Unused, ValidNames;
      BranchIsNew(next, Some(segment.id), path[1..], lower);
      var result := EnsurePath(next, Some(segment.id), path[1..], lower);
      BranchGrows(project.folders, result.project.folders, parent, path, folder);
    }
  }

  lemma FreeUnlessExists(folders: Folders, id: FolderId, parent: Option<FolderId>, name: string, lower: string -> string)
    requires !Exists(folders, parent, name, lower)
    ensures NameFree(folders, id, parent, name, lower)
  {
  }

  lemma TailUnused(folders: Folders, path: seq<Segment>, folder: Folder)
    requires path != [] && Unused(folders, path) && ValidNames(path)
    ensures Unused(folders[path[0].id := folder], path[1..]) && ValidNames(path[1..])
    ensures path[0].id !in folders && ValidName(path[0].name)
  {
    hide ValidName;
  }

  lemma NothingBelow(folders: Folders, id: FolderId, folder: Folder, path: seq<Segment>, lower: string -> string)
    requires id !in folders && folder.parent != Some(id) && path != []
    requires forall x :: x in folders ==> folders[x].parent != Some(id)
    ensures path[1..] != [] ==> !Exists(folders[id := folder], Some(id), path[1..][0].name, lower)
  {
  }

  lemma BranchGrows(before: Folders, after: Folders, parent: Option<FolderId>, path: seq<Segment>, folder: Folder)
    requires path != [] && Unused(before, path)
    requires folder.parent == parent && folder.name == path[0].name && LastPosition(before, parent, folder.position)
    requires forall x :: x in before ==> before[x].parent != Some(path[0].id)
    requires parent != Some(path[0].id)
    requires AddsBranch(before[path[0].id := folder], after, Some(path[0].id), path[1..])
    ensures AddsBranch(before, after, parent, path)
    ensures Above(Some(path[0].id), path[1..], |path| - 1) == Above(parent, path, |path|)
  {
    BranchKeeps(before, after, path, folder);
    forall k | 1 <= k < |path|
      ensures path[k].id in after && after[path[k].id].parent == Above(parent, path, k)
      ensures after[path[k].id].name == path[k].name && after[path[k].id].position == 0
    {
      BranchNode(before, after, path, folder, k);
    }
    hide LastPosition, Unused, Ids;
  }

  lemma BranchKeeps(before: Folders, after: Folders, path: seq<Segment>, folder: Folder)
    requires path != [] && path[0].id !in before
    requires AddsBranch(before[path[0].id := folder], after, Some(path[0].id), path[1..])
    ensures after.Keys == before.Keys + Ids(path) && after[path[0].id] == folder
    ensures forall x :: x in before ==> after[x] == before[x]
  {
    var middle := before[path[0].id := folder];
    FirstAndRest(path);
    hide LastPosition, Ids;
    assert path[0].id in middle;
    forall x | x in before
      ensures after[x] == before[x]
    {
      assert x in middle && middle[x] == before[x];
    }
  }

  lemma BranchNode(before: Folders, after: Folders, path: seq<Segment>, folder: Folder, k: nat)
    requires 1 <= k < |path| && Unused(before, path) && folder.parent != Some(path[0].id)
    requires forall x :: x in before ==> before[x].parent != Some(path[0].id)
    requires AddsBranch(before[path[0].id := folder], after, Some(path[0].id), path[1..])
    ensures path[k].id in after && after[path[k].id].parent == Some(path[k - 1].id)
    ensures after[path[k].id].name == path[k].name && after[path[k].id].position == 0
  {
    FirstIsOnlyChild(before, folder, after, path);
    assert path[1..][k - 1] == path[k];
    hide LastPosition, Unused, Ids;
  }

  lemma FirstIsOnlyChild(before: Folders, folder: Folder, after: Folders, path: seq<Segment>)
    requires path != [] && Unused(before, path) && folder.parent != Some(path[0].id)
    requires forall x :: x in before ==> before[x].parent != Some(path[0].id)
    requires AddsBranch(before[path[0].id := folder], after, Some(path[0].id), path[1..])
    ensures path[0].id !in before
    ensures |path| > 1 ==> path[1].id in after && after[path[1].id].position == 0
  {
    if |path| > 1 {
      assert path[1..][0] == path[1];
      OnlyChild(before[path[0].id := folder], Some(path[0].id), after[path[1].id].position);
    }
    hide LastPosition;
  }

  lemma FirstAndRest(path: seq<Segment>)
    requires path != []
    ensures Ids(path) == {path[0].id} + Ids(path[1..])
  {
    forall k | 1 <= k < |path|
      ensures path[k].id in Ids(path[1..])
    {
      assert path[1..][k - 1] == path[k];
    }
    forall id | id in Ids(path[1..])
      ensures id in Ids(path)
    {
      var k :| 0 <= k < |path[1..]| && path[1..][k].id == id;
      assert path[k + 1].id == id;
    }
  }

  lemma OnlyChild(folders: Folders, parent: Option<FolderId>, position: nat)
    requires LastPosition(folders, parent, position)
    requires forall x :: x in folders ==> folders[x].parent != parent
    ensures position == 0
  {
  }

  /**
   With unused identities a path is ensured exactly if all of its names are valid. The longest
   part of it that exists is found, and one folder is added for each remaining segment, each
   inside the one before; nothing else is added and nothing that was there changes.
   */
  lemma {:induction false} EnsurePathAddsBranch(project: Project, parent: Option<FolderId>, path: seq<Segment>,
                                                lower: string -> string)
    returns (found: nat, last: Option<FolderId>)
    requires Sound(project, lower) && Present(project.folders, parent)
    requires ValidNames(path) && Unused(project.folders, path)
    ensures found <= |path| && Spells(project.folders, parent, path[..found], last, lower)
    ensures found < |path| ==> !Exists(project.folders, last, path[found].name, lower)
    ensures
      var result := EnsurePath(project, parent, path, lower);
      && result.Resolved? && result.project.artifacts == project.artifacts
      && result.leaf == Above(last, path[found..], |path| - found)
      && AddsBranch(project.folders, result.project.folders, last, path[found..])
    decreases |path|
  {
    hide *;
    if path == [] || !Exists(project.folders, parent, path[0].name, lower) {
      found, last := 0, parent;
      assert path[0..] == path;
      BranchIsNew(project, parent, path, lower);
      NothingSpelled(project.folders, parent, path, lower);
    } else {
      var x := FirstIsFound(project, parent, path, lower);
      var k;
      k, last := EnsurePathAddsBranch(project, Some(x), path[1..], lower);
      found := k + 1;
      assert path[1..][..k] == path[..found][1..] && path[1..][k..] == path[found..];
      SpellsOn(project.folders, parent, path[..found], x, last, lower);
    }
  }

  lemma NothingSpelled(folders: Folders, parent: Option<FolderId>, path: seq<Segment>, lower: string -> string)
    ensures Spells(folders, parent, path[..0], parent, lower)
  {
  }

  lemma FirstIsFound(project: Project, parent: Option<FolderId>, path: seq<Segment>, lower: string -> string)
    returns (x: FolderId)
    requires path != [] && Exists(project.folders, parent, path[0].name, lower)
    requires ValidNames(path) && Unused(project.folders, path)
    ensures Named(project.folders, x, parent, path[0].name, lower) && Present(project.folders, Some(x))
    ensures EnsurePath(project, parent, path, lower) == EnsurePath(project, Some(x), path[1..], lower)
    ensures Unused(project.folders, path[1..]) && ValidNames(path[1..])
  {
    x := FolderTransactions.Find(project.folders, parent, path[0].name, lower);
    TakenWhenFound(project.folders, x, path[0].id, parent, path[0].name, lower);
    TailStaysUnused(project.folders, path);
    hide ValidName, NameFree, Exists, Unused, ValidNames;
  }

  lemma TakenWhenFound(folders: Folders, x: FolderId, id: FolderId, parent: Option<FolderId>, name: string, lower: string -> string)
    requires Named(folders, x, parent, name, lower) && id !in folders
    ensures !NameFree(folders, id, parent, name, lower)
  {
  }

  lemma TailStaysUnused(folders: Folders, path: seq<Segment>)
    requires path != [] && Unused(folders, path) && ValidNames(path)
    ensures Unused(folders, path[1..]) && ValidNames(path[1..])
    ensures path[0].id !in folders && ValidName(path[0].name)
  {
    hide ValidName;
  }

  lemma SpellsOn(folders: Folders, parent: Option<FolderId>, path: seq<Segment>, x: FolderId, leaf: Option<FolderId>, lower: string -> string)
    requires path != [] && Named(folders, x, parent, path[0].name, lower) && Spells(folders, Some(x), path[1..], leaf, lower)
    ensures Spells(folders, parent, path, leaf, lower)
  {
  }

  /** The first invalid name stops the whole transaction, whatever identities were generated. */
  lemma {:induction false} InvalidNameIsRefused(project: Project, parent: Option<FolderId>, path: seq<Segment>, k: nat,
                                                lower: string -> string)
    requires k < |path| && !ValidName(path[k].name)
    ensures EnsurePath(project, parent, path, lower).PathRejected?
    decreases |path|
  {
    hide ValidName, NameFree, Exists;
    if k > 0 {
      forall next: Project, parent'
        ensures EnsurePath(next, parent', path[1..], lower).PathRejected?
      {
        InvalidNameIsRefused(next, parent', path[1..], k - 1, lower);
      }
    }
  }
}
