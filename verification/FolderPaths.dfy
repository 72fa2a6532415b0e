/** Materialised folder paths: the tree invariant and the walk along a path, as functions of the rows.
    (backend/app/services/folder.py, services/upload_token.py, repositories/folder.py) */
module FolderPaths {
  import opened Options
  import opened Text

  /** Every query is restricted to one organisation and project. */
  datatype Scope = Scope(org: string, project: string)

  datatype Folder = Folder(scope: Scope, name: string, path: string, parent: Option<nat>, deleted: bool)

  type Rows = map<nat, Folder>

  predicate ActiveIn(rows: Rows, scope: Scope, id: nat) {
    id in rows && rows[id].scope == scope && !rows[id].deleted
  }

  /** What get_by_path's query finds. */
  function Matches(rows: Rows, scope: Scope, path: string): set<nat> {
    set id | id in rows && ActiveIn(rows, scope, id) && rows[id].path == path
  }

  /** Those are the rows of the organisation and project that are not deleted and have the path. */
  lemma MatchesExactly(rows: Rows, scope: Scope, path: string, id: nat)
    ensures id in Matches(rows, scope, path)
            <==> id in rows && rows[id].scope.org == scope.org && rows[id].scope.project == scope.project
                 && !rows[id].deleted && rows[id].path == path
  {
  }

  /** One active folder's place in the tree: its name is a single segment, its parent is an active folder of
      the same scope, and its path is the parent's path, a slash and the name. */
  predicate InPlace(rows: Rows, id: nat)
    requires id in rows
  {
    var f := rows[id];
    && '/' !in f.name
    && match f.parent
       case None => f.path == "/" + f.name
       case Some(p) => ActiveIn(rows, f.scope, p) && f.path == rows[p].path + "/" + f.name
  }

  ghost predicate Tree(rows: Rows) {
    forall id :: id in rows && !rows[id].deleted ==> InPlace(rows, id)
  }

  ghost predicate UniquePaths(rows: Rows, scope: Scope) {
    forall a, b :: ActiveIn(rows, scope, a) && ActiveIn(rows, scope, b) && rows[a].path == rows[b].path ==> a == b
  }

  ghost predicate IdsBelow(rows: Rows, next: nat) {
    forall id :: id in rows ==> id < next
  }

  // ---- The parent walk ----

  /** The names met on the way from the root down to the folder. It terminates because every parent's path
      is shorter. */
  ghost function Names(rows: Rows, id: nat): (names: seq<string>)
    requires Tree(rows) && id in rows && !rows[id].deleted
    ensures names != []
    decreases |rows[id].path|
  {
    assert InPlace(rows, id);
    match rows[id].parent
    case None => [rows[id].name]
    case Some(p) => Names(rows, p) + [rows[id].name]
  }

  /** The folders on the way from the root down to the folder. */
  ghost function Chain(rows: Rows, id: nat): (ids: seq<nat>)
    requires Tree(rows) && id in rows && !rows[id].deleted
    ensures ids != []
    decreases |rows[id].path|
  {
    assert InPlace(rows, id);
    match rows[id].parent
    case None => [id]
    case Some(p) => Chain(rows, p) + [id]
  }

  /** They begin at a root, each is the parent of the next, all are active folders of the folder's organisation and
      project, and their names are the ones met on the way. */
  lemma {:induction false} ChainOfScope(rows: Rows, id: nat, i: nat)
    requires Tree(rows) && id in rows && !rows[id].deleted
    ensures |Chain(rows, id)| == |Names(rows, id)| && Chain(rows, id)[|Chain(rows, id)| - 1] == id
    ensures i < |Chain(rows, id)| ==>
              var a := Chain(rows, id)[i];
              && a in rows && !rows[a].deleted && rows[a].scope.org == rows[id].scope.org
              && rows[a].scope.project == rows[id].scope.project && rows[a].name == Names(rows, id)[i]
              && rows[a].parent == if i == 0 then None else Some(Chain(rows, id)[i - 1])
    decreases |rows[id].path|
  {
    assert InPlace(rows, id);
    match rows[id].parent
    case None =>
    case Some(p) => ChainOfScope(rows, p, i);
  }

  /** A slash before every name. */
  function PathOf(names: seq<string>): string {
    if names == [] then "" else PathOf(names[..|names| - 1]) + "/" + names[|names| - 1]
  }

  /** Walking up to a root and joining the names gives the stored path; all folders on the way belong to
      the folder's scope. */
  lemma {:induction false} PathRebuilt(rows: Rows, id: nat)
    requires Tree(rows) && id in rows && !rows[id].deleted
    ensures rows[id].path == PathOf(Names(rows, id))
    ensures forall n :: n in Names(rows, id) ==> '/' !in n
    decreases |rows[id].path|
  {
    assert InPlace(rows, id);
    match rows[id].parent
    case None =>
      assert PathOf([rows[id].name]) == PathOf([]) + "/" + rows[id].name;
    case Some(p) =>
      PathRebuilt(rows, p);
      var names := Names(rows, p) + [rows[id].name];
      assert names[..|names| - 1] == Names(rows, p);
  }

  lemma Regroup(a: string, b: string, c: string, d: string)
    ensures a + b + c + d == a + (b + c + d)
  {
  }

  lemma {:induction false} PathOfCons(names: seq<string>)
    requires names != []
    ensures PathOf(names) == "/" + Join(names, '/')
  {
    var front, last := names[..|names| - 1], names[|names| - 1];
    if front == [] {
      assert names == [last];
      assert "" + "/" + last == "/" + last;
    } else {
      PathOfCons(front);
      JoinSnoc(front, last, '/');
      assert names == front + [last];
      Regroup("/", Join(front, '/'), "/", last);
    }
  }

  lemma {:induction false} JoinSnoc(parts: seq<string>, last: string, sep: char)
    requires parts != []
    ensures Join(parts + [last], sep) == Join(parts, sep) + [sep] + last
  {
    var all := parts + [last];
    assert all[1..] == parts[1..] + [last];
    if |parts| > 1 {
      JoinSnoc(parts[1..], last, sep);
    }
  }

  /** The path alone tells the whole chain of names. */
  lemma NamesFromPath(rows: Rows, id: nat)
    requires Tree(rows) && id in rows && !rows[id].deleted
    ensures Split(rows[id].path, '/') == [""] + Names(rows, id)
  {
    PathRebuilt(rows, id);
    var names := Names(rows, id);
    PathOfCons(names);
    SplitOfJoin(names, '/');
    SplitAtSeparator("", Join(names, '/'), '/');
    assert rows[id].path == "" + ['/'] + Join(names, '/');
  }

  // ---- The walk of ensure_path and of the upload-token service ----

  datatype Walked =
    | Raised                                   // get_by_path met several folders: MultipleResultsFound
    | Done(rows: Rows, next: nat, leaf: Option<nat>)

  /** From a folder (or the root) along the remaining segments: follow what exists, insert what does not. */
  ghost function Walk(rows: Rows, next: nat, scope: Scope, path: string, parent: Option<nat>,
                      segments: seq<string>): Walked
    decreases |segments|
  {
    if segments == [] then Done(rows, next, parent)
    else
      var p := path + "/" + segments[0];
      var found := Matches(rows, scope, p);
      if found == {} then
        Walk(rows[next := Folder(scope, segments[0], p, parent, false)], next + 1, scope, p, Some(next), segments[1..])
      else if |found| == 1 then Walk(rows, next, scope, p, Some(Only(found)), segments[1..])
      else Raised
  }

  ghost function Only(found: set<nat>): (id: nat)
    requires |found| == 1
    ensures found == {id}
  {
    var id :| id in found;
    assert |found - {id}| == 0;
    id
  }

  /** Where a walk stands: at the root, or at an active folder of the scope with the path walked so far. */
  ghost predicate At(rows: Rows, scope: Scope, path: string, at: Option<nat>) {
    match at
    case None => path == ""
    case Some(id) => ActiveIn(rows, scope, id) && rows[id].path == path
  }

  /** Inserting a child keeps the tree. */
  lemma InsertKeepsTree(rows: Rows, next: nat, scope: Scope, path: string, at: Option<nat>, name: string)
    requires Tree(rows) && IdsBelow(rows, next) && At(rows, scope, path, at) && '/' !in name
    ensures var rows' := rows[next := Folder(scope, name, path + "/" + name, at, false)];
      Tree(rows') && IdsBelow(rows', next + 1) && At(rows', scope, path + "/" + name, Some(next))
  {
  }

  /** Rows are only added, under new ids and in the walk's scope. */
  ghost predicate Extends(rows: Rows, next: nat, scope: Scope, rows': Rows, next': nat) {
    && next <= next' && IdsBelow(rows', next')
    && (forall id :: id in rows ==> id in rows' && rows'[id] == rows[id])
    && (forall id :: id in rows' && id !in rows ==> next <= id && rows'[id].scope == scope && !rows'[id].deleted)
  }

  /** A walk that did not raise ended well: the rows are still a tree, only rows of the walk were added, and
      it stands at the folder with the path aimed at. */
  ghost predicate Landed(rows: Rows, next: nat, scope: Scope, goal: string, w: Walked) {
    w.Done? ==> Tree(w.rows) && Extends(rows, next, scope, w.rows, w.next) && At(w.rows, scope, goal, w.leaf)
  }

  lemma InsertLanded(rows: Rows, next: nat, scope: Scope, f: Folder, goal: string, w: Walked)
    requires IdsBelow(rows, next) && f.scope == scope && !f.deleted
    requires Landed(rows[next := f], next + 1, scope, goal, w)
    ensures Landed(rows, next, scope, goal, w)
  {
  }

  lemma SingleMatch(rows: Rows, scope: Scope, path: string, id: nat)
    requires id in Matches(rows, scope, path)
    ensures At(rows, scope, path, Some(id))
  {
  }

  /** Whatever the tree holds, a walk that does not raise keeps it a tree and ends at the folder whose path
      is the segments'. */
  lemma {:induction false} WalkKeepsTree(rows: Rows, next: nat, scope: Scope, path: string, at: Option<nat>,
                                         segments: seq<string>)
    requires Tree(rows) && IdsBelow(rows, next) && At(rows, scope, path, at)
    requires forall s :: s in segments ==> '/' !in s
    ensures Landed(rows, next, scope, path + PathOf(segments), Walk(rows, next, scope, path, at, segments))
    decreases |segments|
  {
    var goal := path + PathOf(segments);
    if segments == [] {
      assert goal == path;
    } else {
      var p, rest := path + "/" + segments[0], segments[1..];
      var found := Matches(rows, scope, p);
      PathOfHead(segments);
      assert goal == p + PathOf(rest);
      if found == {} {
        var f := Folder(scope, segments[0], p, at, false);
        InsertKeepsTree(rows, next, scope, path, at, segments[0]);
        WalkKeepsTree(rows[next := f], next + 1, scope, p, Some(next), rest);
        InsertLanded(rows, next, scope, f, goal, Walk(rows[next := f], next + 1, scope, p, Some(next), rest));
      } else if |found| == 1 {
        SingleMatch(rows, scope, p, Only(found));
        WalkKeepsTree(rows, next, scope, p, Some(Only(found)), rest);
      }
    }
  }

  lemma {:induction false} PathOfHead(names: seq<string>)
    requires names != []
    ensures PathOf(names) == "/" + names[0] + PathOf(names[1..])
  {
    var front, last := names[..|names| - 1], names[|names| - 1];
    if front == [] {
      assert names[1..] == [];
      assert "" + "/" + names[0] == "/" + names[0] + "";
    } else {
      PathOfHead(front);
      var rest := names[1..];
      assert front[1..] == rest[..|rest| - 1];
      assert PathOf(rest) == PathOf(front[1..]) + "/" + last;
      Regroup("/" + names[0], PathOf(front[1..]), "/", last);
    }
  }

  // ---- One tenant's walk and the other tenants' rows ----

  /** The two tables have the same rows of this scope. */
  ghost predicate SameScope(rows: Rows, rows': Rows, scope: Scope) {
    && (forall id :: id in rows && rows[id].scope == scope ==> id in rows' && rows'[id] == rows[id])
    && (forall id :: id in rows' && rows'[id].scope == scope ==> id in rows && rows[id] == rows'[id])
  }

  lemma SameMatches(rows: Rows, rows': Rows, scope: Scope, path: string)
    requires SameScope(rows, rows', scope)
    ensures Matches(rows, scope, path) == Matches(rows', scope, path)
  {
  }

  /** Rows of other organisations and projects have no influence on where a walk leads, whether it raises and which
      rows it adds. */
  lemma {:induction false} WalkSeesScope(rows: Rows, rows': Rows, next: nat, scope: Scope, path: string,
                                         at: Option<nat>, segments: seq<string>)
    requires SameScope(rows, rows', scope)
    ensures var w, w' := Walk(rows, next, scope, path, at, segments), Walk(rows', next, scope, path, at, segments);
      && w.Raised? == w'.Raised?
      && (w.Done? ==> w.leaf == w'.leaf && w.next == w'.next && SameScope(w.rows, w'.rows, scope))
    decreases |segments|
  {
    if segments != [] {
      var p, rest := path + "/" + segments[0], segments[1..];
      var found := Matches(rows, scope, p);
      SameMatches(rows, rows', scope, p);
      if found == {} {
        var f := Folder(scope, segments[0], p, at, false);
        WalkSeesScope(rows[next := f], rows'[next := f], next + 1, scope, p, Some(next), rest);
      } else if |found| == 1 {
        WalkSeesScope(rows, rows', next, scope, p, Some(Only(found)), rest);
      }
    }
  }

  // ---- Which prefixes exist ----

  lemma ParentIs(rows: Rows, id: nat, path: string, segment: string)
    requires id in rows && InPlace(rows, id) && rows[id].path == path + "/" + segment && '/' !in segment
    ensures match rows[id].parent
            case None => path == ""
            case Some(p) => ActiveIn(rows, rows[id].scope, p) && rows[p].path == path
  {
    var f := rows[id];
    var above := if f.parent.None? then "" else rows[f.parent.value].path;
    LastSeparatorUnique(path, segment, above, f.name, '/');
  }

  /** An active folder never sits below a path that does not exist. */
  lemma ParentPathExists(rows: Rows, scope: Scope, path: string, segment: string)
    requires Tree(rows) && '/' !in segment && Matches(rows, scope, path + "/" + segment) != {}
    ensures path == "" || Matches(rows, scope, path) != {}
  {
    var id :| id in Matches(rows, scope, path + "/" + segment);
    ParentIs(rows, id, path, segment);
    if rows[id].parent.Some? {
      assert rows[id].parent.value in Matches(rows, scope, path);
    }
  }

  /** How many of the leading segments already exist below the path. */
  ghost function Existing(rows: Rows, scope: Scope, path: string, segments: seq<string>): (k: nat)
    ensures k <= |segments|
    decreases |segments|
  {
    if segments == [] || Matches(rows, scope, path + "/" + segments[0]) == {} then 0
    else 1 + Existing(rows, scope, path + "/" + segments[0], segments[1..])
  }

  /** The existing prefixes of a path are closed under shortening: the first `Existing` exist, and none
      beyond. */
  lemma {:induction false} ExistingExactly(rows: Rows, scope: Scope, path: string, segments: seq<string>, j: nat)
    requires Tree(rows) && forall s :: s in segments ==> '/' !in s
    requires 1 <= j <= |segments|
    ensures Matches(rows, scope, path + PathOf(segments[..j])) != {} <==> j <= Existing(rows, scope, path, segments)
    decreases |segments|
  {
    var p, rest := path + "/" + segments[0], segments[1..];
    PathOfHead(segments[..j]);
    assert segments[..j][1..] == rest[..j - 1];
    assert path + PathOf(segments[..j]) == p + PathOf(rest[..j - 1]);
    if j == 1 {
      assert p + PathOf(rest[..0]) == p;
    } else if Matches(rows, scope, p) != {} {
      ExistingExactly(rows, scope, p, rest, j - 1);
    } else {
      NothingBelow(rows, scope, p, rest[..j - 1]);
    }
  }

  lemma {:induction false} NothingBelow(rows: Rows, scope: Scope, path: string, segments: seq<string>)
    requires Tree(rows) && path != "" && Matches(rows, scope, path) == {}
    requires forall s :: s in segments ==> '/' !in s
    ensures Matches(rows, scope, path + PathOf(segments)) == {}
    decreases |segments|
  {
    if segments == [] {
      assert path + PathOf(segments) == path;
    } else {
      var front, last := segments[..|segments| - 1], segments[|segments| - 1];
      NothingBelow(rows, scope, path, front);
      assert path + PathOf(segments) == (path + PathOf(front)) + "/" + last;
      if Matches(rows, scope, path + PathOf(segments)) != {} {
        ParentPathExists(rows, scope, path + PathOf(front), last);
      }
    }
  }

  // ---- When the walk raises, and what it adds ----

  /** No prefix of the path names several folders. */
  ghost predicate Clear(rows: Rows, scope: Scope, path: string, segments: seq<string>) {
    forall j :: 1 <= j <= |segments| ==> |Matches(rows, scope, path + PathOf(segments[..j]))| <= 1
  }

  lemma ClearStep(rows: Rows, scope: Scope, path: string, segments: seq<string>)
    requires segments != []
    ensures var p := path + "/" + segments[0];
      Clear(rows, scope, path, segments) <==> |Matches(rows, scope, p)| <= 1 && Clear(rows, scope, p, segments[1..])
  {
    var p, rest := path + "/" + segments[0], segments[1..];
    forall j | 1 <= j <= |segments| ensures path + PathOf(segments[..j]) == p + PathOf(rest[..j - 1]) {
      PrefixOfPath(path, segments, j);
    }
    assert p + PathOf(rest[..0]) == p;
    if Clear(rows, scope, path, segments) {
      assert |Matches(rows, scope, path + PathOf(segments[..1]))| <= 1;
      forall j | 1 <= j <= |rest| ensures |Matches(rows, scope, p + PathOf(rest[..j]))| <= 1 {
        assert path + PathOf(segments[..j + 1]) == p + PathOf(rest[..j]);
      }
    }
  }

  /** Below a path without a folder every prefix is free, and stays so when that folder is inserted. */
  lemma ClearBelow(rows: Rows, next: nat, scope: Scope, f: Folder, rest: seq<string>)
    requires Tree(rows) && IdsBelow(rows, next) && Matches(rows, scope, f.path) == {} && f.path != ""
    requires forall s :: s in rest ==> '/' !in s
    ensures Clear(rows, scope, f.path, rest) && Clear(rows[next := f], scope, f.path, rest)
  {
    forall j | 1 <= j <= |rest|
      ensures var x := f.path + PathOf(rest[..j]);
              Matches(rows, scope, x) == {} && |Matches(rows[next := f], scope, x)| <= 1
    {
      var x := f.path + PathOf(rest[..j]);
      NothingBelow(rows, scope, f.path, rest[..j]);
      assert |PathOf(rest[..j])| > 0;
      assert Matches(rows[next := f], scope, x) == {};
    }
  }

  lemma {:induction false} DoneIsClear(rows: Rows, next: nat, scope: Scope, path: string, at: Option<nat>,
                                       segments: seq<string>)
    requires Tree(rows) && IdsBelow(rows, next) && At(rows, scope, path, at)
    requires forall s :: s in segments ==> '/' !in s
    ensures Walk(rows, next, scope, path, at, segments).Done? == Clear(rows, scope, path, segments)
    decreases |segments|
  {
    if segments != [] {
      var p, rest := path + "/" + segments[0], segments[1..];
      var found := Matches(rows, scope, p);
      ClearStep(rows, scope, path, segments);
      if found == {} {
        var f := Folder(scope, segments[0], p, at, false);
        InsertKeepsTree(rows, next, scope, path, at, segments[0]);
        ClearBelow(rows, next, scope, f, rest);
        WalkInserts(rows, next, scope, path, at, segments);
        DoneIsClear(rows[next := f], next + 1, scope, p, Some(next), rest);
      } else if |found| == 1 {
        var id := Only(found);
        SingleMatch(rows, scope, p, id);
        WalkFollows(rows, next, scope, path, at, segments, id);
        DoneIsClear(rows, next, scope, p, Some(id), rest);
      }
    }
  }

  /** In any tree the walk raises exactly when some prefix of the path names several folders. */
  lemma RaisedExactly(rows: Rows, next: nat, scope: Scope, path: string, at: Option<nat>, segments: seq<string>)
    requires Tree(rows) && IdsBelow(rows, next) && At(rows, scope, path, at)
    requires forall s :: s in segments ==> '/' !in s
    ensures Walk(rows, next, scope, path, at, segments).Raised?
            <==> exists j :: 1 <= j <= |segments| && |Matches(rows, scope, path + PathOf(segments[..j]))| > 1
  {
    DoneIsClear(rows, next, scope, path, at, segments);
  }

  /** No path gets a second folder; at most a free one gets its first. */
  ghost predicate NoDuplicates(rows: Rows, scope: Scope, rows': Rows) {
    forall x :: Matches(rows', scope, x) == Matches(rows, scope, x)
                || (Matches(rows, scope, x) == {} && |Matches(rows', scope, x)| == 1)
  }

  lemma InsertAddsNoDuplicate(rows: Rows, next: nat, scope: Scope, f: Folder)
    requires IdsBelow(rows, next) && f.scope == scope && !f.deleted && Matches(rows, scope, f.path) == {}
    ensures NoDuplicates(rows, scope, rows[next := f])
  {
    var rows' := rows[next := f];
    forall x ensures Matches(rows', scope, x) == if x == f.path then {next} else Matches(rows, scope, x) {
      forall id | id in Matches(rows', scope, x) && id != next ensures id in Matches(rows, scope, x) {
      }
    }
  }

  /** Whatever duplicates there are, a walk adds none. */
  lemma {:induction false} WalkAddsNoDuplicate(rows: Rows, next: nat, scope: Scope, path: string, at: Option<nat>,
                                               segments: seq<string>)
    requires IdsBelow(rows, next)
    ensures var w := Walk(rows, next, scope, path, at, segments);
      w.Done? ==> NoDuplicates(rows, scope, w.rows)
    decreases |segments|
  {
    if segments != [] {
      var p, rest := path + "/" + segments[0], segments[1..];
      var found := Matches(rows, scope, p);
      if found == {} {
        var f := Folder(scope, segments[0], p, at, false);
        InsertAddsNoDuplicate(rows, next, scope, f);
        WalkAddsNoDuplicate(rows[next := f], next + 1, scope, p, Some(next), rest);
      } else if |found| == 1 {
        WalkAddsNoDuplicate(rows, next, scope, p, Some(Only(found)), rest);
      }
    }
  }

  /** So a clear path stays clear, and unique paths stay unique. */
  lemma ClearKept(rows: Rows, scope: Scope, rows': Rows, path: string, segments: seq<string>)
    requires NoDuplicates(rows, scope, rows')
    ensures Clear(rows, scope, path, segments) ==> Clear(rows', scope, path, segments)
    ensures UniquePaths(rows, scope) ==> UniquePaths(rows', scope)
  {
    if UniquePaths(rows, scope) {
      forall a, b | ActiveIn(rows', scope, a) && ActiveIn(rows', scope, b) && rows'[a].path == rows'[b].path
        ensures a == b
      {
        var found := Matches(rows', scope, rows'[a].path);
        UniqueMatches(rows, scope, rows'[a].path);
        assert a in found && b in found && |found| <= 1;
        assert found == {Only(found)};
      }
    }
  }

  lemma UniqueIsClear(rows: Rows, scope: Scope, path: string, segments: seq<string>)
    requires UniquePaths(rows, scope)
    ensures Clear(rows, scope, path, segments)
  {
    forall j | 1 <= j <= |segments| ensures |Matches(rows, scope, path + PathOf(segments[..j]))| <= 1 {
      UniqueMatches(rows, scope, path + PathOf(segments[..j]));
    }
  }

  lemma UniqueMatches(rows: Rows, scope: Scope, path: string)
    requires UniquePaths(rows, scope)
    ensures |Matches(rows, scope, path)| <= 1
    ensures forall id :: id in Matches(rows, scope, path) ==> Matches(rows, scope, path) == {id}
  {
    if id :| id in Matches(rows, scope, path) {
      assert Matches(rows, scope, path) == {id};
    }
  }

  lemma InsertKeepsUnique(rows: Rows, next: nat, scope: Scope, f: Folder)
    requires UniquePaths(rows, scope) && f.scope == scope && !f.deleted && IdsBelow(rows, next)
    ensures UniquePaths(rows[next := f], scope) <==> Matches(rows, scope, f.path) == {}
  {
    var rows' := rows[next := f];
    assert forall b :: ActiveIn(rows, scope, b) && rows[b].path == f.path ==> b in Matches(rows, scope, f.path);
    if a :| a in Matches(rows, scope, f.path) {
      assert ActiveIn(rows', scope, a) && ActiveIn(rows', scope, next) && rows'[a].path == rows'[next].path;
    } else {
      forall a, b | ActiveIn(rows', scope, a) && ActiveIn(rows', scope, b) && rows'[a].path == rows'[b].path
        ensures a == b
      {
        assert a != next ==> ActiveIn(rows, scope, a);
        assert b != next ==> ActiveIn(rows, scope, b);
      }
    }
  }

  /** One row was inserted for each missing segment, in order, each one level below the one before. */
  ghost predicate Inserted(rows: Rows, next: nat, path: string, missing: seq<string>, end: nat)
    decreases |missing|
  {
    if missing == [] then end == next
    else next in rows && rows[next].path == path + "/" + missing[0]
         && Inserted(rows, next + 1, path + "/" + missing[0], missing[1..], end)
  }

  /** That is: the i-th new row is the prefix ending in the i-th missing segment, and there are no others. */
  lemma {:induction false} InsertedRow(rows: Rows, next: nat, path: string, missing: seq<string>, end: nat, i: nat)
    requires Inserted(rows, next, path, missing, end) && i < |missing|
    ensures next + i in rows && rows[next + i].path == path + PathOf(missing[..i + 1])
    decreases |missing|
  {
    var p, rest := path + "/" + missing[0], missing[1..];
    PrefixOfPath(path, missing, i + 1);
    if i == 0 {
      assert p + PathOf(rest[..0]) == p;
    } else {
      InsertedRow(rows, next + 1, p, rest, end, i - 1);
    }
  }

  lemma {:induction false} InsertedCount(rows: Rows, next: nat, path: string, missing: seq<string>, end: nat)
    requires Inserted(rows, next, path, missing, end)
    ensures end == next + |missing|
    decreases |missing|
  {
    if missing != [] {
      InsertedCount(rows, next + 1, path + "/" + missing[0], missing[1..], end);
    }
  }

  lemma PrefixOfPath(path: string, segments: seq<string>, j: nat)
    requires 1 <= j <= |segments|
    ensures path + PathOf(segments[..j]) == path + "/" + segments[0] + PathOf(segments[1..][..j - 1])
  {
    PathOfHead(segments[..j]);
    assert segments[..j][1..] == segments[1..][..j - 1];
    Regroup(path, "/", segments[0], PathOf(segments[1..][..j - 1]));
  }

  lemma WalkInserts(rows: Rows, next: nat, scope: Scope, path: string, at: Option<nat>, segments: seq<string>)
    requires segments != [] && Matches(rows, scope, path + "/" + segments[0]) == {}
    ensures var f := Folder(scope, segments[0], path + "/" + segments[0], at, false);
            Walk(rows, next, scope, path, at, segments)
            == Walk(rows[next := f], next + 1, scope, f.path, Some(next), segments[1..])
    ensures Existing(rows, scope, path, segments) == 0
  {
  }

  lemma WalkFollows(rows: Rows, next: nat, scope: Scope, path: string, at: Option<nat>, segments: seq<string>, id: nat)
    requires segments != [] && Matches(rows, scope, path + "/" + segments[0]) == {id}
    ensures var p := path + "/" + segments[0];
            Walk(rows, next, scope, path, at, segments) == Walk(rows, next, scope, p, Some(id), segments[1..])
            && Existing(rows, scope, path, segments) == 1 + Existing(rows, scope, p, segments[1..])
  {
  }

  /** One turn of the loop: the segment is followed if it exists and inserted otherwise. */
  ghost predicate Stepped(rows: Rows, next: nat, scope: Scope, path: string, at: Option<nat>, segment: string,
                          rows': Rows, next': nat, path': string, at': Option<nat>)
  {
    && path' == path + "/" + segment
    && if Matches(rows, scope, path') == {}
       then rows' == rows[next := Folder(scope, segment, path', at, false)] && next' == next + 1 && at' == Some(next)
       else rows' == rows && next' == next && at'.Some? && Matches(rows, scope, path') == {at'.value}
  }

  lemma WalkStep(rows: Rows, next: nat, scope: Scope, path: string, at: Option<nat>, segments: seq<string>, rows': Rows,
                 next': nat, path': string, at': Option<nat>)
    requires segments != [] && Stepped(rows, next, scope, path, at, segments[0], rows', next', path', at')
    ensures Walk(rows, next, scope, path, at, segments) == Walk(rows', next', scope, path', at', segments[1..])
  {
    if Matches(rows, scope, path') == {} {
      WalkInserts(rows, next, scope, path, at, segments);
    } else {
      WalkFollows(rows, next, scope, path, at, segments, at'.value);
    }
  }

  /** The walk inserted exactly the segments beyond the first k. */
  ghost predicate CreatedSuffix(w: Walked, next: nat, path: string, segments: seq<string>, k: nat) {
    w.Done? && k <= |segments| && Inserted(w.rows, next, path + PathOf(segments[..k]), segments[k..], w.next)
  }

  /** Along a clear path the walk inserts exactly the missing suffix. */
  lemma {:induction false} WalkCreatesMissingSuffix(rows: Rows, next: nat, scope: Scope, path: string,
                                                    at: Option<nat>, segments: seq<string>)
    requires Tree(rows) && IdsBelow(rows, next) && At(rows, scope, path, at) && Clear(rows, scope, path, segments)
    requires forall s :: s in segments ==> '/' !in s
    ensures CreatedSuffix(Walk(rows, next, scope, path, at, segments), next, path, segments,
                          Existing(rows, scope, path, segments))
    decreases |segments|, 1
  {
    if segments != [] {
      var p := path + "/" + segments[0];
      ClearStep(rows, scope, path, segments);
      if Matches(rows, scope, p) == {} {
        WalkInserts(rows, next, scope, path, at, segments);
        SuffixInserted(rows, next, scope, path, at, segments);
      } else {
        SuffixFollowed(rows, next, scope, path, at, segments, Only(Matches(rows, scope, p)));
      }
    }
  }

  lemma SuffixFollowed(rows: Rows, next: nat, scope: Scope, path: string, at: Option<nat>, segments: seq<string>,
                       id: nat)
    requires Tree(rows) && IdsBelow(rows, next)
    requires segments != [] && forall s :: s in segments ==> '/' !in s
    requires Clear(rows, scope, path + "/" + segments[0], segments[1..])
    requires Matches(rows, scope, path + "/" + segments[0]) == {id}
    ensures CreatedSuffix(Walk(rows, next, scope, path, at, segments), next, path, segments,
                          Existing(rows, scope, path, segments))
    decreases |segments|, 0
  {
    var p, rest := path + "/" + segments[0], segments[1..];
    SingleMatch(rows, scope, p, id);
    WalkFollows(rows, next, scope, path, at, segments, id);
    WalkCreatesMissingSuffix(rows, next, scope, p, Some(id), rest);
    SuffixAfterFollow(Walk(rows, next, scope, p, Some(id), rest), next, path, segments, Existing(rows, scope, p, rest));
  }

  lemma SuffixAfterFollow(w: Walked, next: nat, path: string, segments: seq<string>, k: nat)
    requires segments != [] && CreatedSuffix(w, next, path + "/" + segments[0], segments[1..], k)
    ensures CreatedSuffix(w, next, path, segments, k + 1)
  {
    PrefixOfPath(path, segments, k + 1);
    assert segments[1..][k..] == segments[k + 1..];
  }

  lemma SuffixInserted(rows: Rows, next: nat, scope: Scope, path: string, at: Option<nat>, segments: seq<string>)
    requires Tree(rows) && IdsBelow(rows, next) && At(rows, scope, path, at)
    requires forall s :: s in segments ==> '/' !in s
    requires segments != [] && Matches(rows, scope, path + "/" + segments[0]) == {}
    ensures var f := Folder(scope, segments[0], path + "/" + segments[0], at, false);
      CreatedSuffix(Walk(rows[next := f], next + 1, scope, f.path, Some(next), segments[1..]), next, path, segments, 0)
    decreases |segments|, 0
  {
    var p, rest := path + "/" + segments[0], segments[1..];
    var f := Folder(scope, segments[0], p, at, false);
    InsertKeepsTree(rows, next, scope, path, at, segments[0]);
    ClearBelow(rows, next, scope, f, rest);
    WalkCreatesMissingSuffix(rows[next := f], next + 1, scope, p, Some(next), rest);
    FreshEnd(rows, next, scope, f, rest);
    KeepsInserted(rows, next, scope, p, f, rest);
    assert p + PathOf(rest[..0]) == p && rest[0..] == rest;
    assert path + PathOf(segments[..0]) == path && segments[0..] == segments;
  }

  /** Below a folder just inserted nothing exists yet. */
  lemma FreshEnd(rows: Rows, next: nat, scope: Scope, f: Folder, rest: seq<string>)
    requires Tree(rows) && IdsBelow(rows, next) && Matches(rows, scope, f.path) == {} && f.path != ""
    requires forall s :: s in rest ==> '/' !in s
    ensures Existing(rows[next := f], scope, f.path, rest) == 0
  {
    if rest != [] {
      var p := f.path + "/" + rest[0];
      if Matches(rows, scope, p) != {} {
        ParentPathExists(rows, scope, f.path, rest[0]);
      }
      assert Matches(rows[next := f], scope, p) <= Matches(rows, scope, p);
    }
  }

  lemma KeepsInserted(rows: Rows, next: nat, scope: Scope, p: string, f: Folder, rest: seq<string>)
    requires Tree(rows[next := f]) && IdsBelow(rows, next) && f.scope == scope && !f.deleted && f.path == p
    requires forall s :: s in rest ==> '/' !in s
    ensures var w := Walk(rows[next := f], next + 1, scope, p, Some(next), rest);
      w.Done? ==> next in w.rows && w.rows[next] == f
  {
    WalkKeepsTree(rows[next := f], next + 1, scope, p, Some(next), rest);
  }

  /** When every prefix exists the walk changes nothing and ends at the one folder with the path. */
  lemma {:induction false} WalkExisting(rows: Rows, next: nat, scope: Scope, path: string, at: Option<nat>,
                                        segments: seq<string>)
    requires Clear(rows, scope, path, segments) && At(rows, scope, path, at)
    requires Existing(rows, scope, path, segments) == |segments|
    ensures var w := Walk(rows, next, scope, path, at, segments);
      w.Done? && w.rows == rows && w.next == next && At(rows, scope, path + PathOf(segments), w.leaf)
    decreases |segments|
  {
    if segments == [] {
      assert path + PathOf(segments) == path;
    } else {
      var p, rest := path + "/" + segments[0], segments[1..];
      ClearStep(rows, scope, path, segments);
      var id := Only(Matches(rows, scope, p));
      SingleMatch(rows, scope, p, id);
      WalkFollows(rows, next, scope, path, at, segments, id);
      WalkExisting(rows, next, scope, p, Some(id), rest);
      PathOfHead(segments);
      assert path + PathOf(segments) == p + PathOf(rest);
    }
  }

  /** The folder a walk along a clear path ends at is the one a lookup of the path finds. */
  lemma LeafFound(rows: Rows, next: nat, scope: Scope, segments: seq<string>)
    requires Tree(rows) && IdsBelow(rows, next) && Clear(rows, scope, "", segments)
    requires segments != [] && forall s :: s in segments ==> '/' !in s
    ensures var w := Walk(rows, next, scope, "", None, segments);
      w.Done? && w.leaf.Some? && Clear(w.rows, scope, "", segments)
      && Matches(w.rows, scope, PathOf(segments)) == {w.leaf.value}
  {
    var w := Walk(rows, next, scope, "", None, segments);
    RaisedExactly(rows, next, scope, "", None, segments);
    WalkKeepsTree(rows, next, scope, "", None, segments);
    WalkAddsNoDuplicate(rows, next, scope, "", None, segments);
    ClearKept(rows, scope, w.rows, "", segments);
    PathOfHead(segments);
    assert "" + PathOf(segments) == PathOf(segments) && segments[..|segments|] == segments;
    var found := Matches(w.rows, scope, PathOf(segments));
    assert w.leaf.value in found && |found| <= 1;
    assert found == {Only(found)};
  }

  /** Walking the same clear path again inserts nothing and ends at the same folder. */
  lemma WalkIdempotent(rows: Rows, next: nat, scope: Scope, segments: seq<string>)
    requires Tree(rows) && IdsBelow(rows, next) && Clear(rows, scope, "", segments)
    requires segments != [] && forall s :: s in segments ==> '/' !in s
    ensures var w := Walk(rows, next, scope, "", None, segments);
      && w.Done? && w.leaf.Some?
      && Walk(w.rows, w.next, scope, "", None, segments) == w
      && Matches(w.rows, scope, PathOf(segments)) == {w.leaf.value}
  {
    var w := Walk(rows, next, scope, "", None, segments);
    LeafFound(rows, next, scope, segments);
    WalkKeepsTree(rows, next, scope, "", None, segments);
    assert "" + PathOf(segments) == PathOf(segments) != "" && segments[..|segments|] == segments;
    ExistingExactly(w.rows, scope, "", segments, |segments|);
    WalkExisting(w.rows, w.next, scope, "", None, segments);
    var again := Walk(w.rows, w.next, scope, "", None, segments);
    PathOfHead(segments);
    assert again.leaf.Some? && again.leaf.value in Matches(w.rows, scope, PathOf(segments));
  }
}
