/** The folder store (backend/internal/artifact/folders_postgres.go): one method per transaction. */
module FolderStore {
  import opened Common
  import opened FolderForest
  import opened FolderTransactions

  /** A refused transaction rolls back; an accepted one leaves what the specification says. */
  predicate Settles(result: Result, before: Project, after: Project, error: Option<Error>) {
    match result
    case Accepted(project) => error.None? && after == project
    case Rejected(reason) => error == Some(reason) && after == before
  }

  class Store {
    const lower: string -> string
    var folders: Folders
    var artifacts: map<ArtifactId, Artifact>

    function Snapshot(): Project
      reads this
    {
      Project(folders, artifacts)
    }

    constructor (lower: string -> string, artifacts: map<ArtifactId, Artifact>)
      requires forall a :: a in artifacts ==> artifacts[a].folder.None?
      ensures this.lower == lower && Snapshot() == Project(map[], artifacts)
      ensures Sound(Snapshot(), lower)
    {
      this.lower := lower;
      folders := map[];
      this.artifacts := artifacts;
    }

    // ----- queries inside the transactions -----

    method NextPosition(parent: Option<FolderId>) returns (position: nat)
      ensures position == AfterLast(Positions(folders, parent))
    {
      position := 0;
      var rest := folders.Keys;
      while rest != {}
        invariant rest <= folders.Keys
        invariant forall x :: x in folders.Keys - rest && folders[x].parent == parent ==> folders[x].position < position
        invariant position > 0 ==> exists x :: x in folders && folders[x].parent == parent && folders[x].position == position - 1
        decreases |rest|
      {
        var x :| x in rest;
        if folders[x].parent == parent && folders[x].position + 1 > position {
          position := folders[x].position + 1;
        }
        rest := rest - {x};
      }
      ghost var positions := Positions(folders, parent);
      assert forall x :: x in folders && folders[x].parent == parent ==> folders[x].position in positions;
      assert position > 0 ==> position - 1 in positions;
    }

    method Conflicts(id: FolderId, parent: Option<FolderId>, name: string) returns (taken: bool)
      ensures taken <==> !NameFree(folders, id, parent, name, lower)
    {
      taken := exists x :: x in folders && x != id && Named(folders, x, parent, name, lower);
    }

    /** The join of the recursive query. */
    function ChildrenOf(rows: set<FolderId>): set<FolderId>
      reads this`folders
    {
      set x | x in folders && folders[x].parent.Some? && folders[x].parent.value in rows
    }

    /** The rows exactly `n` steps below `top`. */
    ghost predicate Level(rows: set<FolderId>, top: FolderId, n: nat)
      reads this`folders
    {
      forall x :: x in rows <==> Reaches(folders, x, top, n)
    }

    /** The rows fewer than `n` steps below `top`. */
    ghost predicate Upper(rows: set<FolderId>, top: FolderId, n: nat)
      reads this`folders
    {
      && (forall x :: x in rows ==> exists k: nat :: k < n && Reaches(folders, x, top, k))
      && (forall x, k: nat :: k < n && Reaches(folders, x, top, k) ==> x in rows)
    }

    lemma {:induction false} LevelBelow(x: FolderId, top: FolderId, k: nat, n: nat) returns (y: FolderId)
      requires Reaches(folders, x, top, k) && n <= k
      ensures Reaches(folders, y, top, n)
      decreases k
    {
      if k == n {
        y := x;
      } else {
        y := LevelBelow(folders[x].parent.value, top, k - 1, n);
      }
    }

    lemma NextLevel(rows: set<FolderId>, top: FolderId, n: nat)
      requires Level(rows, top, n)
      ensures Level(ChildrenOf(rows), top, n + 1)
    {
    }

    lemma LevelsDisjoint(rows: set<FolderId>, above: set<FolderId>, top: FolderId, n: nat)
      requires Forest(folders) && Level(rows, top, n) && Upper(above, top, n)
      ensures rows !! above
    {
      forall x | x in rows && x in above
        ensures false
      {
        var k: nat :| k < n && Reaches(folders, x, top, k);
        DistanceIsUnique(folders, x, top, n, k);
      }
    }

    /**
     The recursive query: start from the selected folder and keep joining children
     of the last rows, without removing duplicates, until no row is added. On a
     forest it ends, because no level meets an earlier one.
     */
    method Descendants(top: FolderId) returns (rows: set<FolderId>)
      requires top in folders && Forest(folders)
      ensures rows == Subtree(folders, top)
    {
      var level := {top};
      rows := {};
      ghost var n: nat := 0;
      while level != {}
        invariant Level(level, top, n) && Upper(rows, top, n)
        invariant rows <= folders.Keys && level <= folders.Keys
        decreases folders.Keys - rows
      {
        LevelsDisjoint(level, rows, top, n);
        NextLevel(level, top, n);
        assert level * rows == {} && level <= folders.Keys - rows;
        UpperGrows(rows, level, top, n);
        rows := rows + level;
        level := ChildrenOf(level);
        n := n + 1;
      }
      forall x | x in Subtree(folders, top)
        ensures x in rows
      {
        var k: nat :| Reaches(folders, x, top, k);
        if k >= n {
          var y := LevelBelow(x, top, k, n);
          assert false;
        }
      }
    }

    lemma UpperGrows(rows: set<FolderId>, level: set<FolderId>, top: FolderId, n: nat)
      requires Upper(rows, top, n) && Level(level, top, n)
      ensures Upper(rows + level, top, n + 1)
    {
      forall x | x in rows + level
        ensures exists k: nat :: k < n + 1 && Reaches(folders, x, top, k)
      {
        if x in rows {
          var k: nat :| k < n && Reaches(folders, x, top, k);
          assert k < n + 1;
        } else {
          assert n < n + 1 && Reaches(folders, x, top, n);
        }
      }
    }

    // ----- transactions -----

    method CreateFolder(id: FolderId, parent: Option<FolderId>, name: string) returns (error: Option<Error>)
      modifies this`folders
      ensures Settles(Create(old(Snapshot()), id, parent, name, lower), old(Snapshot()), Snapshot(), error)
    {
      if !ValidName(name) {
        return Some(Invalid);
      }
      var taken := Conflicts(id, parent, name);
      if id in folders || taken {
        return Some(NameConflict);
      }
      if parent.Some? && parent.value !in folders {
        return Some(Error.NotFound);
      }
      var position := NextPosition(parent);
      folders := folders[id := Folder(parent, name, position)];
      return None;
    }

    method RenameFolder(id: FolderId, name: string) returns (error: Option<Error>)
      modifies this`folders
      ensures Settles(Rename(old(Snapshot()), id, name, lower), old(Snapshot()), Snapshot(), error)
    {
      if id !in folders {
        return Some(Error.NotFound);
      }
      if !ValidName(name) {
        return Some(Invalid);
      }
      var taken := Conflicts(id, folders[id].parent, name);
      if taken {
        return Some(NameConflict);
      }
      folders := folders[id := folders[id].(name := name)];
      return None;
    }

    method MoveFolder(id: FolderId, parent: Option<FolderId>, position: Option<nat>) returns (error: Option<Error>)
      requires Forest(folders)
      modifies this`folders
      ensures Settles(Move(old(Snapshot()), id, parent, position, lower), old(Snapshot()), Snapshot(), error)
    {
      if id !in folders {
        return Some(Error.NotFound);
      }
      if parent.Some? {
        if parent.value == id {
          return Some(Cycle);
        }
        if parent.value !in folders {
          return Some(Error.NotFound);
        }
        var descendants := Descendants(id);
        if parent.value in descendants {
          return Some(Cycle);
        }
      }
      var taken := Conflicts(id, parent, folders[id].name);
      if taken {
        return Some(NameConflict);
      }
      var moved := folders[id].(parent := parent);
      if position.Some? {
        moved := moved.(position := position.value);
      }
      folders := folders[id := moved];
      return None;
    }

    method DeleteFolder(id: FolderId, recursive: bool) returns (error: Option<Error>)
      requires Forest(folders)
      modifies this
      ensures Settles(Delete(old(Snapshot()), id, recursive, lower), old(Snapshot()), Snapshot(), error)
    {
      if id !in folders {
        return Some(Error.NotFound);
      }
      if !recursive {
        if exists x :: x in folders && folders[x].parent == Some(id) {
          return Some(HasChildren);
        }
        artifacts := Unfile(artifacts, {id});
        folders := folders - {id};
        return None;
      }
      ghost var before := folders;
      var subtree := Descendants(id);
      var detached := Detach(folders, subtree);
      if !NamesUnique(detached, lower) {
        return Some(NameConflict);
      }
      artifacts := Unfile(artifacts, subtree);
      folders := detached;
      DetachKeepsForest(before, id);
      var again := Descendants(id);
      folders := folders - again;
      return None;
    }

    method FileArtifact(artifact: ArtifactId, folder: Option<FolderId>) returns (error: Option<Error>)
      modifies this`artifacts
      ensures Settles(MoveArtifact(old(Snapshot()), artifact, folder), old(Snapshot()), Snapshot(), error)
    {
      if artifact !in artifacts || artifacts[artifact].trashed {
        return Some(Error.NotFound);
      }
      if folder.Some? && folder.value !in folders {
        return Some(Error.NotFound);
      }
      artifacts := artifacts[artifact := artifacts[artifact].(folder := folder)];
      return None;
    }

    /** `INSERT ... ON CONFLICT DO NOTHING`, then the lookup by folded name when nothing was inserted. */
    method EnsureSegment(parent: Option<FolderId>, segment: Segment) returns (leaf: Option<FolderId>)
      requires ValidName(segment.name) && NamesUnique(folders, lower)
      modifies this`folders
      ensures
        var created := segment.id !in old(folders) && NameFree(old(folders), segment.id, parent, segment.name, lower);
        && (created ==>
              && leaf == Some(segment.id)
              && folders == old(folders)[segment.id := NewFolder(old(folders), parent, segment.name)])
        && (!created ==>
              && folders == old(folders)
              && (leaf.Some? <==> Exists(folders, parent, segment.name, lower))
              && (leaf.Some? ==> leaf.value == Find(folders, parent, segment.name, lower)))
    {
      var taken := Conflicts(segment.id, parent, segment.name);
      if segment.id !in folders && !taken {
        var position := NextPosition(parent);
        folders := folders[segment.id := Folder(parent, segment.name, position)];
        return Some(segment.id);
      }
      if x :| x in folders && Named(folders, x, parent, segment.name, lower) {
        return Some(x);
      }
      return None;
    }

    method EnsureFolderPath(path: seq<Segment>) returns (error: Option<Error>, leaf: Option<FolderId>)
      requires Sound(Snapshot(), lower)
      modifies this`folders
      ensures
        match EnsurePath(old(Snapshot()), None, path, lower)
        case Resolved(project, found) => error.None? && Snapshot() == project && leaf == found
        case PathRejected(reason) => error == Some(reason) && Snapshot() == old(Snapshot())
    {
      var saved := folders;
      leaf := None;
      var i := 0;
      while i < |path|
        invariant 0 <= i <= |path|
        invariant artifacts == old(artifacts)
        invariant Sound(Snapshot(), lower) && Present(folders, leaf)
        invariant EnsurePath(Snapshot(), leaf, path[i..], lower) == EnsurePath(old(Snapshot()), None, path, lower)
      {
        ghost var before, parent := Snapshot(), leaf;
        assert path[i..][0] == path[i] && path[i..][1..] == path[i + 1..];
        if !ValidName(path[i].name) {
          folders := saved;
          return Some(Invalid), None;
        }
        leaf := EnsureSegment(leaf, path[i]);
        if leaf.None? {
          folders := saved;
          return Some(Error.NotFound), None;
        }
        if path[i].id !in before.folders && NameFree(before.folders, path[i].id, parent, path[i].name, lower) {
          CreateKeepsSound(before, path[i].id, parent, path[i].name, lower);
        }
        i := i + 1;
      }
      return None, leaf;
    }
  }
}
