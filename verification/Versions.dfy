/** File rows, version history and multipart sessions: backend/app/services/file.py and services/multipart.py. */
module Versions {
  import opened Events
  import opened Text
  import opened GcsKeys

  /** What a version snapshot copies from the file row. */
  datatype Content = Content(key: string, size: int, contentType: string)

  /** The organisation and project a request runs in, and a file belongs to. */
  datatype Tenant = Tenant(org: string, project: string)

  datatype FileRow = FileRow(owner: Tenant, status: Status, deleted: bool, content: Content, versionCount: nat)

  /** A file_versions row; its id is its position in the table. */
  datatype Version = Version(file: nat, number: nat, content: Content)

  datatype SessionStatus = InProgress | Completed | Aborted

  datatype Session = Session(file: nat, uploadId: string, status: SessionStatus, partCount: nat)

  datatype Db = Db(files: map<nat, FileRow>, versions: seq<Version>, sessions: map<nat, Session>, log: seq<Row>)

  const EMPTY := Db(map[], [], map[], [])

  function KeyOf(t: Tenant, f: nat): string {
    StorageKey(t.org, t.project, Decimal(f))
  }

  /** One transaction; `versioning` and `scan` are the project's flags. */
  datatype Op =
    | InitUpload(file: nat, size: int, contentType: string)
    | StartMultipart(file: nat, upload: nat, uploadId: string, size: int, contentType: string)
    | Confirm(file: nat, versioning: bool, scan: bool)
    | Complete(upload: nat, versioning: bool, scan: bool, partCount: nat)
    | Restore(file: nat, version: nat)
    | Abort(upload: nat)
    | Delete(file: nat)
    | Record(file: nat, verdict: Verdict)  // the pipeline's transaction

  /** Lookup by id among the tenant's files that are not deleted. */
  predicate Active(t: Tenant, db: Db, f: nat) {
    f in db.files && db.files[f].owner == t && !db.files[f].deleted
  }

  /** What the lookups at the top of the operation find; new rows get ids nobody has. */
  predicate Accepted(t: Tenant, db: Db, op: Op) {
    match op
    case InitUpload(f, _, _) => f !in db.files
    case StartMultipart(f, u, _, _, _) => f !in db.files && u !in db.sessions
    case Confirm(f, _, _) => Active(t, db, f)
    case Complete(u, _, _, _) => u in db.sessions && Active(t, db, db.sessions[u].file)
    case Restore(f, v) => Active(t, db, f) && v < |db.versions| && db.versions[v].file == f
    case Abort(u) => u in db.sessions && Active(t, db, db.sessions[u].file)
    case Delete(f) => Active(t, db, f)
    case Record(f, _) => Active(t, db, f) && db.files[f].status == Processing
  }

  /** version_count + 1, and a row with the file's current content. */
  function Snapshot(db: Db, f: nat): Db
    requires f in db.files
  {
    var file := db.files[f];
    db.(files := db.files[f := file.(versionCount := file.versionCount + 1)],
        versions := db.versions + [Version(f, file.versionCount + 1, file.content)])
  }

  function SetStatus(db: Db, f: nat, status: Status): Db
    requires f in db.files
  {
    db.(files := db.files[f := db.files[f].(status := status)])
  }

  /** Hand the file to the processing worker, or declare it ready. */
  function Announce(db: Db, f: nat, scan: bool): Db
    requires f in db.files
  {
    if scan then SetStatus(db, f, Processing).(log := db.log + [Row(f, Uploaded)])
    else SetStatus(db, f, Ready).(log := db.log + [Row(f, FileReady(false))])
  }

  /** The database after the operation; refused operations leave it alone. */
  function Apply(t: Tenant, db: Db, op: Op): Db {
    if !Accepted(t, db, op) then db
    else
      match op
      case InitUpload(f, size, contentType) =>
        db.(files := db.files[f := FileRow(t, Pending, false, Content(KeyOf(t, f), size, contentType), 0)],
            log := db.log + [Row(f, UploadInitiated)])
      case StartMultipart(f, u, uploadId, size, contentType) =>
        db.(files := db.files[f := FileRow(t, Pending, false, Content(KeyOf(t, f), size, contentType), 0)],
            sessions := db.sessions[u := Session(f, uploadId, InProgress, 0)])
      case Confirm(f, versioning, scan) =>
        Announce(if versioning && db.files[f].content.key != "" then Snapshot(db, f) else db, f, scan)
      case Complete(u, versioning, scan, partCount) =>
        var s := db.sessions[u];
        var db' := db.(sessions := db.sessions[u := s.(status := Completed, partCount := partCount)]);
        Announce(if versioning then Snapshot(db', s.file) else db', s.file, scan)
      case Restore(f, v) =>
        var db' := db.(files := db.files[f := db.files[f].(content := db.versions[v].content, status := Ready)]);
        Snapshot(db', f).(log := db.log + [Row(f, Restored)])
      case Abort(u) =>
        var s := db.sessions[u];
        SetStatus(db, s.file, Failed).(sessions := db.sessions[u := s.(status := Aborted)])
      case Delete(f) =>
        db.(files := db.files[f := db.files[f].(deleted := true)], log := db.log + [Row(f, Deleted)])
      case Record(f, verdict) =>
        SetStatus(db, f, StatusOf(verdict)).(log := db.log + [Row(f, EventOf(verdict))])
  }

  /** Requests of any number of tenants, one after the other. */
  datatype Call = Call(tenant: Tenant, op: Op)

  function Run(db: Db, calls: seq<Call>): Db
    decreases |calls|
  {
    if calls == [] then db else Run(Apply(calls[0].tenant, db, calls[0].op), calls[1..])
  }

  /** The file's rows of file_versions, oldest first. */
  function History(versions: seq<Version>, f: nat): seq<Version> {
    if versions == [] then []
    else History(versions[..|versions| - 1], f)
         + (if versions[|versions| - 1].file == f then [versions[|versions| - 1]] else [])
  }

  lemma HistoryPush(versions: seq<Version>, v: Version, f: nat)
    ensures History(versions + [v], f) == History(versions, f) + if v.file == f then [v] else []
  {
  }

  /** Numbers are exactly 1..n with n the file's version_count, and every version has the file's content. */
  ghost predicate GoodHistory(file: FileRow, history: seq<Version>) {
    && file.versionCount == |history|
    && forall i :: 0 <= i < |history| ==> history[i].number == i + 1 && history[i].content == file.content
  }

  ghost predicate FileInv(db: Db, f: nat) {
    if f in db.files
    then GoodHistory(db.files[f], History(db.versions, f)) && db.files[f].content.key == KeyOf(db.files[f].owner, f)
    else History(db.versions, f) == []
  }

  ghost predicate Inv(db: Db) {
    && (forall f :: FileInv(db, f))
    && (forall u :: u in db.sessions ==> db.sessions[u].file in db.files)
  }

  /** What no operation undoes: files stay, with their content, and version rows are only added. */
  ghost predicate Grows(db: Db, db': Db) {
    && db.versions <= db'.versions && db.files.Keys <= db'.files.Keys
    && forall f :: f in db.files ==>
         db'.files[f].content == db.files[f].content && db'.files[f].owner == db.files[f].owner
  }

  lemma {:induction false} InHistory(versions: seq<Version>, v: nat, f: nat)
    requires v < |versions| && versions[v].file == f
    ensures versions[v] in History(versions, f)
  {
    if v < |versions| - 1 {
      InHistory(versions[..|versions| - 1], v, f);
    }
  }

  lemma SnapshotKeeps(db: Db, f: nat)
    requires Inv(db) && f in db.files
    ensures Inv(Snapshot(db, f)) && Grows(db, Snapshot(db, f))
  {
    var v := Version(f, db.files[f].versionCount + 1, db.files[f].content);
    forall g ensures FileInv(Snapshot(db, f), g) {
      HistoryPush(db.versions, v, g);
      assert FileInv(db, g);
    }
  }

  /** No version row is added; existing files keep content and count, new ones start without versions. */
  ghost predicate RowsOnly(db: Db, db': Db) {
    && db'.versions == db.versions && db.files.Keys <= db'.files.Keys
    && (forall f :: f in db.files ==>
          db'.files[f].content == db.files[f].content && db'.files[f].versionCount == db.files[f].versionCount
          && db'.files[f].owner == db.files[f].owner)
    && (forall f :: f in db'.files && f !in db.files ==>
          db'.files[f].versionCount == 0 && db'.files[f].content.key == KeyOf(db'.files[f].owner, f))
    && (forall u :: u in db'.sessions ==> db'.sessions[u].file in db'.files)
  }

  lemma RowsOnlyKeeps(db: Db, db': Db)
    requires Inv(db) && RowsOnly(db, db')
    ensures Inv(db') && Grows(db, db')
  {
    forall f ensures FileInv(db', f) {
      assert FileInv(db, f);
    }
  }

  /** A chosen version holds what the file row holds already. */
  lemma ChosenIsCurrent(db: Db, f: nat, v: nat)
    requires Inv(db) && f in db.files && v < |db.versions| && db.versions[v].file == f
    ensures db.versions[v].content == db.files[f].content
  {
    assert FileInv(db, f);
    InHistory(db.versions, v, f);
    var i :| 0 <= i < |History(db.versions, f)| && History(db.versions, f)[i] == db.versions[v];
  }

  lemma AnnounceKeeps(db: Db, f: nat, scan: bool)
    requires Inv(db) && f in db.files
    ensures Inv(Announce(db, f, scan)) && Grows(db, Announce(db, f, scan))
  {
    RowsOnlyKeeps(db, Announce(db, f, scan));
  }

  lemma ConfirmKeeps(db: Db, f: nat, versioning: bool, scan: bool)
    requires Inv(db) && f in db.files
    ensures var db' := Announce(if versioning then Snapshot(db, f) else db, f, scan); Inv(db') && Grows(db, db')
  {
    if versioning {
      SnapshotKeeps(db, f);
      AnnounceKeeps(Snapshot(db, f), f, scan);
    } else {
      AnnounceKeeps(db, f, scan);
    }
  }

  lemma RestoreKeeps(t: Tenant, db: Db, f: nat, v: nat)
    requires Inv(db) && Accepted(t, db, Restore(f, v))
    ensures var db' := Apply(t, db, Restore(f, v)); Inv(db') && Grows(db, db')
  {
    ChosenIsCurrent(db, f, v);
    var db1 := db.(files := db.files[f := db.files[f].(content := db.versions[v].content, status := Ready)]);
    RowsOnlyKeeps(db, db1);
    SnapshotKeeps(db1, f);
    RowsOnlyKeeps(Snapshot(db1, f), Apply(t, db, Restore(f, v)));
  }

  lemma CompleteKeeps(t: Tenant, db: Db, u: nat, versioning: bool, scan: bool, partCount: nat)
    requires Inv(db) && Accepted(t, db, Complete(u, versioning, scan, partCount))
    ensures var db' := Apply(t, db, Complete(u, versioning, scan, partCount)); Inv(db') && Grows(db, db')
  {
    var s := db.sessions[u];
    var db1 := db.(sessions := db.sessions[u := s.(status := Completed, partCount := partCount)]);
    RowsOnlyKeeps(db, db1);
    ConfirmKeeps(db1, s.file, versioning, scan);
  }

  /** The other operations add no version. */
  lemma RowsOnlyStep(t: Tenant, db: Db, op: Op)
    requires Inv(db) && Accepted(t, db, op) && !op.Confirm? && !op.Complete? && !op.Restore?
    ensures RowsOnly(db, Apply(t, db, op))
  {
  }

  lemma InvStep(t: Tenant, db: Db, op: Op)
    requires Inv(db)
    ensures Inv(Apply(t, db, op)) && Grows(db, Apply(t, db, op))
  {
    if Accepted(t, db, op) {
      match op {
        case Confirm(f, versioning, scan) =>
          ConfirmKeeps(db, f, versioning && db.files[f].content.key != "", scan);
        case Complete(u, versioning, scan, partCount) =>
          CompleteKeeps(t, db, u, versioning, scan, partCount);
        case Restore(f, v) =>
          RestoreKeeps(t, db, f, v);
        case _ =>
          RowsOnlyStep(t, db, op);
          RowsOnlyKeeps(db, Apply(t, db, op));
      }
    }
  }

  lemma {:induction false} InvRun(db: Db, calls: seq<Call>)
    requires Inv(db)
    ensures Inv(Run(db, calls)) && Grows(db, Run(db, calls))
    decreases |calls|
  {
    if calls != [] {
      InvStep(calls[0].tenant, db, calls[0].op);
      InvRun(Apply(calls[0].tenant, db, calls[0].op), calls[1..]);
    }
  }

  lemma {:induction false} RunConcat(db: Db, a: seq<Call>, b: seq<Call>)
    ensures Run(db, a + b) == Run(Run(db, a), b)
    decreases |a|
  {
    if a == [] {
      assert a + b == b;
    } else {
      assert (a + b)[1..] == a[1..] + b;
      RunConcat(Apply(a[0].tenant, db, a[0].op), a[1..], b);
    }
  }

  // ---- Over every serial run of any number of tenants ----

  /** version_count counts the file's version rows, and they are numbered 1..n in the order they were added. */
  lemma VersionsNumbered(calls: seq<Call>, f: nat)
    requires f in Run(EMPTY, calls).files
    ensures var db := Run(EMPTY, calls);
            var h := History(db.versions, f);
            db.files[f].versionCount == |h| && forall i :: 0 <= i < |h| ==> h[i].number == i + 1
  {
    InvRun(EMPTY, calls);
    assert FileInv(Run(EMPTY, calls), f);
  }

  /** Version rows, once written, are never changed, moved or removed. */
  lemma HistoryNeverRewritten(calls: seq<Call>, more: seq<Call>)
    ensures Run(EMPTY, calls).versions <= Run(EMPTY, calls + more).versions
  {
    InvRun(EMPTY, calls);
    InvRun(Run(EMPTY, calls), more);
    RunConcat(EMPTY, calls, more);
  }

  /** A restore adds one version and leaves the file with the chosen version's key, size and type, which are
      also the newest version's, numbered by the new version_count. */
  ghost predicate RestoredTo(db: Db, db': Db, f: nat, v: nat)
    requires f in db.files && v < |db.versions|
  {
    var newest := Version(f, db.files[f].versionCount + 1, db.versions[v].content);
    var h := History(db'.versions, f);
    && f in db'.files && h == History(db.versions, f) + [newest]
    && db'.files[f] == FileRow(db.files[f].owner, Ready, false, db.versions[v].content, |h|)
    && newest.number == db'.files[f].versionCount && newest.content == db'.files[f].content
  }

  lemma RestoreStep(t: Tenant, db: Db, f: nat, v: nat)
    requires Inv(db) && Accepted(t, db, Restore(f, v))
    ensures RestoredTo(db, Apply(t, db, Restore(f, v)), f, v)
  {
    assert FileInv(db, f);
    HistoryPush(db.versions, Version(f, db.files[f].versionCount + 1, db.versions[v].content), f);
  }

  lemma RestoreMatches(calls: seq<Call>, t: Tenant, f: nat, v: nat)
    requires Accepted(t, Run(EMPTY, calls), Restore(f, v))
    ensures RestoredTo(Run(EMPTY, calls), Run(EMPTY, calls + [Call(t, Restore(f, v))]), f, v)
  {
    var db, call := Run(EMPTY, calls), Call(t, Restore(f, v));
    InvRun(EMPTY, calls);
    RunConcat(EMPTY, calls, [call]);
    assert [call][1..] == [] && Run(db, [call]) == Run(Apply(t, db, call.op), []);
    RestoreStep(t, db, f, v);
  }

  /** All versions of a file name one object, size and type, those of its first row: no operation ever changes
      them, so a restore brings back no earlier content and only adds a version and makes the file ready. */
  lemma VersionsShareOneObject(calls: seq<Call>, more: seq<Call>, f: nat, i: nat)
    requires f in Run(EMPTY, calls).files && i < |History(Run(EMPTY, calls + more).versions, f)|
    ensures var db, db' := Run(EMPTY, calls), Run(EMPTY, calls + more);
            f in db'.files && db'.files[f].content == db.files[f].content
            && History(db'.versions, f)[i].content == db.files[f].content
            && db'.files[f].owner == db.files[f].owner && db.files[f].content.key == KeyOf(db.files[f].owner, f)
  {
    InvRun(EMPTY, calls);
    InvRun(Run(EMPTY, calls), more);
    RunConcat(EMPTY, calls, more);
    assert FileInv(Run(EMPTY, calls), f) && FileInv(Run(EMPTY, calls + more), f);
  }

  /** Different files never share an object, of whatever tenants they are. */
  lemma KeysDiffer(t: Tenant, f: nat, t': Tenant, g: nat)
    ensures KeyOf(t, f) == KeyOf(t', g) ==> f == g
  {
    var p, p' := t.org + "/" + t.project, t'.org + "/" + t'.project;
    assert KeyOf(t, f) == p + ['/'] + Decimal(f) && KeyOf(t', g) == p' + ['/'] + Decimal(g);
    if KeyOf(t, f) == KeyOf(t', g) {
      LastSeparatorUnique(p, Decimal(f), p', Decimal(g), '/');
      ValueOfDecimal(f);
      ValueOfDecimal(g);
    }
  }

  // ---- One operation, seen by everybody else ----

  /** The file an accepted operation is about. */
  function Subject(t: Tenant, db: Db, op: Op): nat
    requires Accepted(t, db, op)
  {
    match op
    case InitUpload(f, _, _) => f
    case StartMultipart(f, _, _, _, _) => f
    case Confirm(f, _, _) => f
    case Complete(u, _, _, _) => db.sessions[u].file
    case Restore(f, _) => f
    case Abort(u) => db.sessions[u].file
    case Delete(f) => f
    case Record(f, _) => f
  }

  /** Nothing of any other file changes, and of this one no version row. */
  ghost predicate OnlyFile(db: Db, db': Db, f: nat) {
    && (forall g :: g != f ==> (g in db.files <==> g in db'.files))
    && (forall g :: g != f && g in db.files ==> db'.files[g] == db.files[g])
    && db.versions <= db'.versions && db.log <= db'.log
    && (forall i :: |db.versions| <= i < |db'.versions| ==> db'.versions[i].file == f)
    && (forall i :: |db.log| <= i < |db'.log| ==> db'.log[i].file == f)
  }

  /** Exactly one event was added, and it announces the status the file now has. */
  ghost predicate Told(db: Db, db': Db, f: nat, e: Event) {
    && db'.log == db.log + [Row(f, e)] && f in db'.files
    && (Announces(e) ==> db'.files[f].status == Announced(e))
  }

  /** Every operation concerns one file. Its status changes together with exactly one event that announces it,
      but for three: starting a multipart upload and aborting one tell nobody, and a deletion announces no status. */
  lemma OneFileOneEvent(t: Tenant, db: Db, op: Op)
    requires Accepted(t, db, op)
    ensures var f, db' := Subject(t, db, op), Apply(t, db, op);
      && OnlyFile(db, db', f) && f in db'.files
      && (if op.StartMultipart? then db'.log == db.log && db'.files[f].status == Pending
          else if op.Abort? then db'.log == db.log && db'.files[f].status == Failed
          else exists e :: Told(db, db', f, e) && (!Announces(e) <==> op.Delete?))
  {
    var f, db' := Subject(t, db, op), Apply(t, db, op);
    match op
    case InitUpload(_, _, _) => assert Told(db, db', f, UploadInitiated);
    case Confirm(_, _, scan) => assert Told(db, db', f, if scan then Uploaded else FileReady(false));
    case Complete(_, _, scan, _) => assert Told(db, db', f, if scan then Uploaded else FileReady(false));
    case Restore(_, _) => assert Told(db, db', f, Restored);
    case Delete(_) => assert Told(db, db', f, Deleted);
    case Record(_, verdict) => assert Told(db, db', f, EventOf(verdict));
    case _ =>
  }

  // ---- Tenants ----

  /** Everything the tables hold of the tenant's files is as it was: rows, versions and events. */
  ghost predicate SameFor(t: Tenant, db: Db, db': Db) {
    && (forall f :: f in db.files && db.files[f].owner == t ==> f in db'.files && db'.files[f] == db.files[f])
    && (forall f :: f in db'.files && db'.files[f].owner == t ==> f in db.files && db.files[f].owner == t)
    && db.versions <= db'.versions && db.log <= db'.log
    && (forall i :: |db.versions| <= i < |db'.versions| ==> ElseOwned(t, db', db'.versions[i].file))
    && (forall i :: |db.log| <= i < |db'.log| ==> ElseOwned(t, db', db'.log[i].file))
  }

  ghost predicate ElseOwned(t: Tenant, db: Db, f: nat) {
    f in db.files && db.files[f].owner != t
  }

  /** A request concerns a file of its own organisation and project only, and finds no other. */
  lemma OwnFilesOnly(t: Tenant, db: Db, op: Op)
    requires Inv(db) && Accepted(t, db, op)
    ensures var f, db' := Subject(t, db, op), Apply(t, db, op);
      f in db'.files && db'.files[f].owner.org == t.org && db'.files[f].owner.project == t.project
      && (f in db.files ==> db.files[f].owner == t)
  {
  }

  lemma OthersUntouched(t: Tenant, db: Db, t': Tenant, op: Op)
    requires Inv(db) && t' != t
    ensures SameFor(t', db, Apply(t, db, op))
  {
    if Accepted(t, db, op) {
      OneFileOneEvent(t, db, op);
      OwnFilesOnly(t, db, op);
    }
  }

  lemma SameForTwice(t: Tenant, db: Db, db1: Db, db2: Db)
    requires SameFor(t, db, db1) && SameFor(t, db1, db2) && Grows(db1, db2)
    ensures SameFor(t, db, db2)
  {
    forall i | |db.versions| <= i < |db2.versions| ensures ElseOwned(t, db2, db2.versions[i].file) {
      if i < |db1.versions| {
        assert db2.versions[i] == db1.versions[i] && ElseOwned(t, db1, db1.versions[i].file);
      }
    }
    forall i | |db.log| <= i < |db2.log| ensures ElseOwned(t, db2, db2.log[i].file) {
      if i < |db1.log| {
        assert db2.log[i] == db1.log[i] && ElseOwned(t, db1, db1.log[i].file);
      }
    }
  }

  /** Whatever requests other tenants make, a tenant's files keep their rows, versions and events. */
  lemma {:induction false} TenantsApart(db: Db, calls: seq<Call>, t: Tenant)
    requires Inv(db) && forall i :: 0 <= i < |calls| ==> calls[i].tenant != t
    ensures SameFor(t, db, Run(db, calls))
    decreases |calls|
  {
    if calls != [] {
      var db1 := Apply(calls[0].tenant, db, calls[0].op);
      OthersUntouched(calls[0].tenant, db, t, calls[0].op);
      InvStep(calls[0].tenant, db, calls[0].op);
      InvRun(db1, calls[1..]);
      TenantsApart(db1, calls[1..], t);
      SameForTwice(t, db, db1, Run(db, calls));
    }
  }
}
