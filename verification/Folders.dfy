/** The folder table and the four operations that write it. */
module Folders {
  import opened Options
  import opened Text
  import opened FolderPaths

  datatype Lookup = Absent | Found(id: nat) | Several

  datatype Reply =
    | Ok(id: nat)
    | Invalid           // rejected by the request schema
    | NotFound
    | Conflict
    | ServerError       // MultipleResultsFound

  /** What the folder service knows of a file: where it lies. */
  datatype FileRow = FileRow(scope: Scope, folder: Option<nat>, deleted: bool)

  /** path.strip("/").split("/"). */
  function Segments(path: string): seq<string> {
    Split(Trim(path, '/'), '/')
  }

  lemma SegmentsPath(path: string)
    ensures PathOf(Segments(path)) == "/" + Trim(path, '/')
  {
    PathOfCons(Segments(path));
    JoinOfSplit(Trim(path, '/'), '/');
  }

  /** An active subfolder exists: has_subfolders. */
  predicate HasSubfolders(rows: Rows, scope: Scope, id: nat) {
    exists c :: c in rows && ActiveIn(rows, scope, c) && rows[c].parent == Some(id)
  }

  class FolderTable {
    var rows: Rows
    var nextId: nat  // ids are fresh; nothing depends on their being consecutive
    var files: map<nat, FileRow>

    ghost predicate Valid()
      reads this
    {
      Tree(rows) && IdsBelow(rows, nextId)
    }

    constructor ()
      ensures Valid() && rows == map[] && files == map[]
    {
      rows, nextId, files := map[], 0, map[];
    }

    /** repositories/folder.py get_by_path: scalar_one_or_none raises when several rows match. */
    method GetByPath(scope: Scope, path: string) returns (r: Lookup)
      ensures r.Absent? <==> Matches(rows, scope, path) == {}
      ensures r.Found? <==> |Matches(rows, scope, path)| == 1
      ensures r.Found? ==> Matches(rows, scope, path) == {r.id}
      ensures r.Found? ==> r.id in rows && rows[r.id].scope.org == scope.org
                           && rows[r.id].scope.project == scope.project && !rows[r.id].deleted
                           && rows[r.id].path == path
      ensures r.Absent? <==> forall id :: id in rows ==>
                rows[id].scope.org != scope.org || rows[id].scope.project != scope.project || rows[id].deleted
                || rows[id].path != path
    {
      forall id ensures id in Matches(rows, scope, path)
                        <==> id in rows && rows[id].scope.org == scope.org && rows[id].scope.project == scope.project
                             && !rows[id].deleted && rows[id].path == path
      {
        MatchesExactly(rows, scope, path, id);
      }
      var found := Matches(rows, scope, path);
      if found == {} {
        return Absent;
      }
      var id :| id in found;
      assert |found| == 1 ==> found == {Only(found)};
      return if found == {id} then Found(id) else Several;
    }

    /** repositories/folder.py create. */
    method Create(scope: Scope, name: string, path: string, parent: Option<nat>) returns (id: nat)
      modifies this`rows, this`nextId
      ensures id == old(nextId) && nextId == id + 1
      ensures rows == old(rows)[id := Folder(scope, name, path, parent, false)]
    {
      id := nextId;
      rows, nextId := rows[id := Folder(scope, name, path, parent, false)], nextId + 1;
    }

    /** create_folder, its schema included. It keeps the tree, and it keeps paths unique exactly when no
        active folder had the new path. */
    method CreateFolder(scope: Scope, rawName: string, parent: Option<nat>) returns (r: Reply)
      requires Valid()
      modifies this`rows, this`nextId
      ensures Valid()
      ensures r.Invalid? <==> Strip(rawName) == "" || '/' in Strip(rawName)
      ensures r.NotFound? <==> !r.Invalid? && parent.Some?
                               && !(parent.value in old(rows) && old(rows)[parent.value].scope == scope
                                    && !old(rows)[parent.value].deleted)
      ensures r.Ok? || ((r.Invalid? || r.NotFound?) && rows == old(rows) && nextId == old(nextId))
      ensures r.Ok? ==> r.id == old(nextId) && nextId == r.id + 1
                        && r.id in rows && rows == old(rows)[r.id := rows[r.id]]
                        && rows[r.id] == Folder(scope, Strip(rawName),
                                                (if parent.Some? then old(rows)[parent.value].path else "")
                                                + "/" + Strip(rawName), parent, false)
      ensures r.Ok? && old(UniquePaths(rows, scope)) ==>
        (UniquePaths(rows, scope) <==> Matches(old(rows), scope, rows[r.id].path) == {})
    {
      var name := Strip(rawName);
      if name == "" || '/' in name {
        return Invalid;
      }
      var base := "";
      if parent.Some? {
        if !ActiveIn(rows, scope, parent.value) {
          return NotFound;
        }
        base := rows[parent.value].path;
      }
      InsertKeepsTree(rows, nextId, scope, base, parent, name);
      ghost var before, f := rows, Folder(scope, name, base + "/" + name, parent, false);
      if UniquePaths(rows, scope) {
        InsertKeepsUnique(rows, nextId, scope, f);
      }
      var id := Create(scope, name, base + "/" + name, parent);
      return Ok(id);
    }

    /** ensure_path: follows the existing folders, creates the missing ones, and rolls back when a lookup
        raises, which it does exactly when some prefix of the path names several folders. Otherwise the folder
        returned is the one a lookup of the path finds, only the missing segments were added, and no path got a
        second folder. */
    method EnsurePath(scope: Scope, path: string) returns (r: Reply)
      requires Valid()
      modifies this`rows, this`nextId
      ensures Valid()
      ensures r == WalkReply(Walk(old(rows), old(nextId), scope, "", None, Segments(path)))
      ensures rows == WalkRows(old(rows), Walk(old(rows), old(nextId), scope, "", None, Segments(path)))
      ensures r.Ok? || (r.ServerError? && rows == old(rows))
      ensures r.ServerError? <==> !Clear(old(rows), scope, "", Segments(path))
      ensures r.Ok? ==>
        && Matches(rows, scope, "/" + Trim(path, '/')) == {r.id} && NoDuplicates(old(rows), scope, rows)
        && nextId == old(nextId) + |Segments(path)| - Existing(old(rows), scope, "", Segments(path))
      ensures r.Ok? ==> r.id in rows && rows[r.id].scope.org == scope.org && rows[r.id].scope.project == scope.project
                        && !rows[r.id].deleted && rows[r.id].path == "/" + Trim(path, '/')
      ensures forall id :: id in old(rows) ==> id in rows && rows[id] == old(rows)[id]
      ensures forall id :: id in rows && id !in old(rows) ==> rows[id].scope == scope && !rows[id].deleted
      ensures old(UniquePaths(rows, scope)) ==> r.Ok? && UniquePaths(rows, scope)
    {
      var segments := Segments(path);
      var currentParentId: Option<nat>, currentPath, lastFolder: Option<nat> := None, "", None;
      var saved := rows;
      ghost var walk := Walk(rows, nextId, scope, "", None, segments);
      WalkFacts(rows, nextId, scope, path);
      ghost var togo := segments;
      for i := 0 to |segments|
        invariant togo == segments[i..] && Walk(rows, nextId, scope, currentPath, currentParentId, togo) == walk
        invariant currentParentId == lastFolder && saved == old(rows)
        invariant IdsBelow(old(rows), nextId)
      {
        var segment := segments[i];
        assert togo[0] == segment;
        ghost var rows0, next0, above, here, rest := rows, nextId, currentPath, currentParentId, togo;
        currentPath := currentPath + "/" + segment;
        var existing := GetByPath(scope, currentPath);
        match existing {
          case Found(id) =>
            currentParentId := Some(id);
            lastFolder := Some(id);
          case Absent =>
            var id := Create(scope, segment, currentPath, currentParentId);
            currentParentId := Some(id);
            lastFolder := Some(id);
          case Several =>
            rows := saved;
            return ServerError;
        }
        WalkStep(rows0, next0, scope, above, here, rest, rows, nextId, currentPath, currentParentId);
        togo := togo[1..];
      }
      return Ok(lastFolder.value);
    }

    /** The folder_path part of the upload-token service's create: a second copy of the walk, which promises the
        same. */
    method ResolveFolderPath(scope: Scope, path: string) returns (r: Reply)
      requires Valid()
      modifies this`rows, this`nextId
      ensures Valid()
      ensures r == WalkReply(Walk(old(rows), old(nextId), scope, "", None, Segments(path)))
      ensures rows == WalkRows(old(rows), Walk(old(rows), old(nextId), scope, "", None, Segments(path)))
      ensures r.Ok? || (r.ServerError? && rows == old(rows))
      ensures r.ServerError? <==> !Clear(old(rows), scope, "", Segments(path))
      ensures r.Ok? ==>
        && Matches(rows, scope, "/" + Trim(path, '/')) == {r.id} && NoDuplicates(old(rows), scope, rows)
        && nextId == old(nextId) + |Segments(path)| - Existing(old(rows), scope, "", Segments(path))
      ensures r.Ok? ==> r.id in rows && rows[r.id].scope.org == scope.org && rows[r.id].scope.project == scope.project
                        && !rows[r.id].deleted && rows[r.id].path == "/" + Trim(path, '/')
      ensures forall id :: id in old(rows) ==> id in rows && rows[id] == old(rows)[id]
      ensures forall id :: id in rows && id !in old(rows) ==> rows[id].scope == scope && !rows[id].deleted
      ensures old(UniquePaths(rows, scope)) ==> r.Ok? && UniquePaths(rows, scope)
    {
      var segments := Segments(path);
      var currentParentId: Option<nat>, currentPath := None, "";
      var saved := rows;
      ghost var walk := Walk(rows, nextId, scope, "", None, segments);
      WalkFacts(rows, nextId, scope, path);
      ghost var togo := segments;
      for i := 0 to |segments|
        invariant togo == segments[i..] && Walk(rows, nextId, scope, currentPath, currentParentId, togo) == walk
        invariant saved == old(rows) && IdsBelow(old(rows), nextId)
      {
        var segment := segments[i];
        assert togo[0] == segment;
        ghost var rows0, next0, above, here, rest := rows, nextId, currentPath, currentParentId, togo;
        currentPath := currentPath + "/" + segment;
        var existing := GetByPath(scope, currentPath);
        if existing.Several? {
          rows := saved;
          return ServerError;
        } else if existing.Found? {
          currentParentId := Some(existing.id);
        } else {
          var id := Create(scope, segment, currentPath, currentParentId);
          currentParentId := Some(id);
        }
        WalkStep(rows0, next0, scope, above, here, rest, rows, nextId, currentPath, currentParentId);
        togo := togo[1..];
      }
      return Ok(currentParentId.value);
    }

    /** delete_folder: refused while an active subfolder or file lies in the folder. */
    method DeleteFolder(scope: Scope, id: nat) returns (r: Reply)
      requires Valid()
      modifies this`rows
      ensures Valid()
      ensures r.Conflict? <==>
                || (exists c :: c in old(rows) && old(rows)[c].scope == scope && !old(rows)[c].deleted
                                && old(rows)[c].parent == Some(id))
                || (exists f :: f in old(files) && old(files)[f].scope == scope && !old(files)[f].deleted
                                && old(files)[f].folder == Some(id))
      ensures r.Ok? <==> !r.Conflict? && id in old(rows) && old(rows)[id].scope == scope && !old(rows)[id].deleted
      ensures !r.Ok? ==> (r.Conflict? || r.NotFound?) && rows == old(rows)
      ensures r.Ok? ==> rows == old(rows)[id := old(rows)[id].(deleted := true)]
      ensures old(UniquePaths(rows, scope)) ==> UniquePaths(rows, scope)
    {
      if HasSubfolders(rows, scope, id) || HasFiles(scope, id) {
        return Conflict;
      }
      if !ActiveIn(rows, scope, id) {
        return NotFound;
      }
      DeleteKeepsTree(rows, scope, id);
      ghost var before := rows;
      rows := rows[id := rows[id].(deleted := true)];
      assert forall a :: ActiveIn(rows, scope, a) ==> ActiveIn(before, scope, a) && rows[a] == before[a];
      return Ok(id);
    }

    predicate HasFiles(scope: Scope, id: nat)
      reads this
    {
      exists f :: f in files && files[f].scope == scope && files[f].folder == Some(id) && !files[f].deleted
    }
  }

  /** What a walk that started on `rows` leaves in the table: a walk that raised is rolled back. */
  ghost function WalkRows(rows: Rows, w: Walked): Rows {
    if w.Done? then w.rows else rows
  }

  ghost function WalkReply(w: Walked): Reply {
    if w.Done? && w.leaf.Some? then Ok(w.leaf.value) else ServerError
  }

  lemma WalkFacts(rows: Rows, next: nat, scope: Scope, path: string)
    requires Tree(rows) && IdsBelow(rows, next)
    ensures var w := Walk(rows, next, scope, "", None, Segments(path));
      && (w.Raised? <==> !Clear(rows, scope, "", Segments(path)))
      && (w.Done? ==>
            && Tree(w.rows) && IdsBelow(w.rows, w.next) && w.leaf.Some?
            && Matches(w.rows, scope, "/" + Trim(path, '/')) == {w.leaf.value} && NoDuplicates(rows, scope, w.rows)
            && w.leaf.value in w.rows && w.rows[w.leaf.value].scope == scope && !w.rows[w.leaf.value].deleted
            && w.rows[w.leaf.value].path == "/" + Trim(path, '/') && Extends(rows, next, scope, w.rows, w.next)
            && w.next == next + |Segments(path)| - Existing(rows, scope, "", Segments(path)))
      && (UniquePaths(rows, scope) ==> w.Done? && UniquePaths(w.rows, scope))
  {
    var segments := Segments(path);
    var w := Walk(rows, next, scope, "", None, segments);
    SegmentsPath(path);
    RaisedExactly(rows, next, scope, "", None, segments);
    if UniquePaths(rows, scope) {
      UniqueIsClear(rows, scope, "", segments);
    }
    if Clear(rows, scope, "", segments) {
      WalkKeepsTree(rows, next, scope, "", None, segments);
      LeafFound(rows, next, scope, segments);
      MatchesExactly(w.rows, scope, "/" + Trim(path, '/'), w.leaf.value);
      WalkAddsNoDuplicate(rows, next, scope, "", None, segments);
      ClearKept(rows, scope, w.rows, "", segments);
      var k := Existing(rows, scope, "", segments);
      WalkCreatesMissingSuffix(rows, next, scope, "", None, segments);
      InsertedCount(w.rows, next, "" + PathOf(segments[..k]), segments[k..], w.next);
    }
  }

  lemma DeleteKeepsTree(rows: Rows, scope: Scope, id: nat)
    requires Tree(rows) && ActiveIn(rows, scope, id) && !HasSubfolders(rows, scope, id)
    ensures Tree(rows[id := rows[id].(deleted := true)])
  {
  }
}
