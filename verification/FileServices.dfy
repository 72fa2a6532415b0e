/** The service methods themselves, on the tables they share: backend/app/services/file.py and
    services/multipart.py, the latter with each storage provider behind it. */
module FileServices {
  import opened Events
  import opened Assembly
  import opened GcsKeys
  import opened Versions
  import S3
  import Azure
  import G = Gcs
  import opened GcsUploads
  import Text

  class Database {
    const tenant: Tenant  // of the request; the tables hold all tenants' rows
    var files: map<nat, FileRow>
    var versions: seq<Version>
    var sessions: map<nat, Session>
    var log: seq<Row>

    ghost function State(): Db
      reads this
    {
      Db(files, versions, sessions, log)
    }

    /** The invariant of every run: numbered histories, one content per file, sessions of known files. */
    ghost predicate Valid()
      reads this
    {
      Inv(State())
    }

    constructor (tenant: Tenant)
      ensures Valid() && this.tenant == tenant && State() == EMPTY
    {
      this.tenant := tenant;
      files, versions, sessions, log := map[], [], map[], [];
    }

    /** Lookup by id among the files of the request's organisation and project that are not deleted. */
    predicate Found(f: nat)
      reads this
    {
      f in files && files[f].owner == tenant && !files[f].deleted
    }

    /** The file row both kinds of upload start from, under an id nobody has. */
    method CreateFile(f: nat, size: int, contentType: string)
      requires f !in files
      modifies this`files
      ensures files == old(files)[f := FileRow(tenant, Pending, false, Content(KeyOf(tenant, f), size, contentType), 0)]
    {
      var record := FileRow(tenant, Pending, false, Content("", size, contentType), 0);
      record := record.(content := record.content.(key := KeyOf(tenant, f)));
      files := files[f := record];
    }

    /** A file nobody had appears, pending and without versions; its object belongs to no other file. */
    method InitUpload(f: nat, size: int, contentType: string)
      requires Valid() && f !in files
      modifies this
      ensures Valid() && Found(f) && History(versions, f) == []
      ensures OnlyFile(old(State()), State(), f) && log == old(log) + [Row(f, UploadInitiated)]
      ensures files[f] == FileRow(tenant, Pending, false, Content(KeyOf(tenant, f), size, contentType), 0)
              && sessions == old(sessions)
      ensures forall g :: g in files && g != f ==> files[g].content.key != files[f].content.key
      ensures State() == Apply(tenant, old(State()), Versions.InitUpload(f, size, contentType))
    {
      InvStep(tenant, State(), Versions.InitUpload(f, size, contentType));
      OneFileOneEvent(tenant, State(), Versions.InitUpload(f, size, contentType));
      CreateFile(f, size, contentType);
      log := log + [Row(f, UploadInitiated)];
      OwnObject(State(), f);
    }

    /** The same with an open session, and nobody is told. */
    method StartMultipart(f: nat, u: nat, uploadId: string, size: int, contentType: string)
      requires Valid() && f !in files && u !in sessions
      modifies this
      ensures Valid() && Found(f) && files[f].status == Pending && History(versions, f) == []
      ensures OnlyFile(old(State()), State(), f) && log == old(log)
      ensures files[f] == FileRow(tenant, Pending, false, Content(KeyOf(tenant, f), size, contentType), 0)
      ensures sessions == old(sessions)[u := Session(f, uploadId, InProgress, 0)]
      ensures forall g :: g in files && g != f ==> files[g].content.key != files[f].content.key
      ensures State() == Apply(tenant, old(State()), Versions.StartMultipart(f, u, uploadId, size, contentType))
    {
      InvStep(tenant, State(), Versions.StartMultipart(f, u, uploadId, size, contentType));
      OneFileOneEvent(tenant, State(), Versions.StartMultipart(f, u, uploadId, size, contentType));
      CreateFile(f, size, contentType);
      sessions := sessions[u := Session(f, uploadId, InProgress, 0)];
      OwnObject(State(), f);
    }

    /** The tail shared by confirm_upload and complete: snapshot, status and event. */
    method ConfirmRecord(f: nat, snapshot: bool, scan: bool)
      requires f in files
      modifies this
      ensures State() == Announce(if snapshot then Snapshot(old(State()), f) else old(State()), f, scan)
    {
      var record := files[f];
      if snapshot {
        record := record.(versionCount := record.versionCount + 1);
        versions := versions + [Version(f, record.versionCount, record.content)];
      }
      if scan {
        record := record.(status := Processing);
        log := log + [Row(f, Uploaded)];
      } else {
        record := record.(status := Ready);
        log := log + [Row(f, FileReady(false))];
      }
      files := files[f := record];
    }

    /** Refused exactly for files not found. The file is handed to the worker or declared ready, with the one
        event that says so; with versioning its history gains the next number, and its content stays. */
    method ConfirmUpload(f: nat, versioning: bool, scan: bool) returns (ok: bool)
      requires Valid()
      modifies this
      ensures Valid() && ok == (f in old(files) && old(files)[f].owner.org == tenant.org
                                && old(files)[f].owner.project == tenant.project && !old(files)[f].deleted)
      ensures !ok ==> State() == old(State())
      ensures ok ==> OnlyFile(old(State()), State(), f)
                     && Recorded(old(State()), State(), f, versioning, scan) && sessions == old(sessions)
      ensures State() == Apply(tenant, old(State()), Confirm(f, versioning, scan))
    {
      if !Found(f) {
        return false;
      }
      InvStep(tenant, State(), Confirm(f, versioning, scan));
      ConfirmGains(tenant, State(), f, versioning, scan);
      ConfirmRecord(f, versioning && files[f].content.key != "", scan);
      ok := true;
    }

    /** Refused exactly when the file or the version is not found. The history gains one version with the chosen
        content under the number returned; the file is ready and has that content, which it had before. */
    method RestoreVersion(f: nat, v: nat) returns (ok: bool, number: nat)
      requires Valid()
      modifies this
      ensures Valid() && ok == (f in old(files) && old(files)[f].owner.org == tenant.org
                                && old(files)[f].owner.project == tenant.project && !old(files)[f].deleted
                                && v < |old(versions)| && old(versions)[v].file == f)
      ensures !ok ==> State() == old(State())
      ensures ok ==> RestoredTo(old(State()), State(), f, v) && number == |History(versions, f)|
                     && files[f].content == old(files)[f].content && files[f].status == Ready
                     && OnlyFile(old(State()), State(), f) && log == old(log) + [Row(f, Events.Restored)]
                     && sessions == old(sessions)
      ensures State() == Apply(tenant, old(State()), Restore(f, v))
    {
      if !Found(f) || v >= |versions| || versions[v].file != f {
        return false, 0;
      }
      InvStep(tenant, State(), Restore(f, v));
      RestoreStep(tenant, State(), f, v);
      OneFileOneEvent(tenant, State(), Restore(f, v));
      number := RecordRestore(f, v);
      ok := true;
    }

    /** The transaction. */
    method RecordRestore(f: nat, v: nat) returns (number: nat)
      requires Accepted(tenant, State(), Restore(f, v))
      modifies this
      ensures State() == Apply(tenant, old(State()), Restore(f, v))
      ensures f in files && number == files[f].versionCount
    {
      var record := files[f];
      record := record.(content := versions[v].content);
      record := record.(status := Ready);
      record := record.(versionCount := record.versionCount + 1);
      number := record.versionCount;
      versions := versions + [Version(f, number, versions[v].content)];
      log := log + [Row(f, Events.Restored)];
      files := files[f := record];
    }

    /** Refused exactly for files not found; afterwards the file is not found, and every lookup of another file
        answers as before. Its versions stay. */
    method DeleteFile(f: nat) returns (ok: bool)
      requires Valid()
      modifies this
      ensures Valid() && !Found(f) && ok == (f in old(files) && old(files)[f].owner.org == tenant.org
                                && old(files)[f].owner.project == tenant.project && !old(files)[f].deleted)
      ensures forall g :: g != f ==> Found(g) == old(Found(g))
      ensures versions == old(versions)
      ensures !ok ==> State() == old(State())
      ensures ok ==> files == old(files)[f := old(files)[f].(deleted := true)] && sessions == old(sessions)
                     && log == old(log) + [Row(f, Deleted)]
      ensures State() == Apply(tenant, old(State()), Delete(f))
    {
      if !Found(f) {
        return false;
      }
      InvStep(tenant, State(), Delete(f));
      OneFileOneEvent(tenant, State(), Delete(f));
      files := files[f := files[f].(deleted := true)];
      log := log + [Row(f, Deleted)];
      ok := true;
    }

    // ---- Multipart completion: assemble in storage, then one transaction, which may fail to commit ----

    /** The upload's session and its file are found; a session belongs to its file's organisation. */
    predicate Open(u: nat)
      reads this
    {
      u in sessions && Found(sessions[u].file)
    }

    /** The destination, fixed when the file row was made. */
    ghost function Key(u: nat): string
      requires Open(u)
      reads this
    {
      files[sessions[u].file].content.key
    }

    /** The transaction after the assembly. */
    method RecordCompletion(u: nat, versioning: bool, scan: bool, count: nat)
      requires Valid() && Open(u)
      modifies this
      ensures Valid() && State() == Apply(tenant, old(State()), Complete(u, versioning, scan, count))
      ensures Finished(tenant, old(State()), State(), u, versioning, scan, count)
    {
      CompletionRecords(tenant, State(), u, versioning, scan, count);
      InvStep(tenant, State(), Complete(u, versioning, scan, count));
      var s := sessions[u];
      sessions := sessions[u := s.(status := Completed, partCount := count)];
      ConfirmRecord(s.file, versioning, scan);
    }

    /** With S3: an upload is recorded as complete only if its object is the listed parts' bytes in PartNumber
        order; a failure leaves the database as it was, and the storage too unless only the commit was lost. */
    method CompleteOnS3(storage: S3.Upload, u: nat, parts: seq<Part>, versioning: bool, scan: bool, commits: bool)
      returns (ok: bool)
      requires Valid() && (Open(u) ==> storage.key == Key(u) && storage.uploadId == sessions[u].uploadId)
      modifies this, storage
      ensures Valid()
      ensures ok <==> old(Open(u)) && old(storage.open && storage.Lists(parts)) && commits
      ensures ok ==> State() == Apply(tenant, old(State()), Complete(u, versioning, scan, |parts|))
                     && Finished(tenant, old(State()), State(), u, versioning, scan, |parts|)
      ensures !ok ==> State() == old(State())
      ensures ok ==> AllUploaded(old(storage.Uploads()), SortedNumbers(parts))
                     && storage.final == [Assembled(old(storage.Uploads()), SortedNumbers(parts))] && !storage.open
      ensures !ok && commits ==> storage.open == old(storage.open) && storage.parts == old(storage.parts)
                                 && storage.final == old(storage.final)
    {
      if !Open(u) {
        return false;
      }
      ok := storage.CompleteMultipartUpload(parts);
      if !ok || !commits {
        return false;
      }
      RecordCompletion(u, versioning, scan, |parts|);
    }

    /** With Azure. */
    method CompleteOnAzure(storage: Azure.Blob, u: nat, parts: seq<Part>, versioning: bool, scan: bool, commits: bool)
      returns (ok: bool)
      requires Valid() && storage.Valid() && (Open(u) ==> storage.key == Key(u))
      modifies this, storage
      ensures Valid() && storage.Valid()
      ensures ok <==> old(Open(u)) && AllUploaded(old(storage.uploads), SortedNumbers(parts)) && commits
      ensures ok ==> State() == Apply(tenant, old(State()), Complete(u, versioning, scan, |parts|))
                     && Finished(tenant, old(State()), State(), u, versioning, scan, |parts|)
      ensures !ok ==> State() == old(State())
      ensures ok ==> storage.final == [Assembled(old(storage.uploads), SortedNumbers(parts))]
      ensures !ok && commits ==> storage.uploads == old(storage.uploads) && storage.final == old(storage.final)
    {
      if !Open(u) {
        return false;
      }
      ok := storage.CompleteMultipartUpload(parts);
      if !ok || !commits {
        return false;
      }
      RecordCompletion(u, versioning, scan, |parts|);
    }

    ghost function Parts(u: nat, parts: seq<Part>): seq<string>
      requires Open(u)
      reads this
    {
      G.PartKeys(Key(u), sessions[u].uploadId, SortedNumbers(parts))
    }

    ghost function Temps(u: nat, parts: seq<Part>): seq<string>
      requires Open(u)
      reads this
    {
      G.TempKeys(Key(u), sessions[u].uploadId, G.TempCount(|parts|))
    }

    /** With GCS: a failure also may leave the final object written, or the whole assembly done and only the
        commit lost. */
    method CompleteMultipart(bucket: G.Bucket, u: nat, parts: seq<Part>, versioning: bool, scan: bool, commits: bool)
      returns (ok: bool)
      requires Valid() && (Open(u) ==> '/' !in sessions[u].uploadId)
      modifies this, bucket
      ensures Valid()
      ensures ok ==> State() == Apply(tenant, old(State()), Complete(u, versioning, scan, |parts|))
                     && Finished(tenant, old(State()), State(), u, versioning, scan, |parts|)
      ensures !ok ==> State() == old(State())
      ensures !old(Open(u)) ==> !ok && bucket.objects == old(bucket.objects)
      ensures old(Open(u)) ==>
                var keys, temps, key := old(Parts(u, parts)), old(Temps(u, parts)), old(Key(u));
                && (ok ==> G.Completed(old(bucket.objects), bucket.objects, keys, temps, key))
                && (!ok ==> G.PartsIntact(old(bucket.objects), bucket.objects, temps)
                            || G.FinalWritten(old(bucket.objects), bucket.objects, keys, temps, key)
                            || (!commits && G.Completed(old(bucket.objects), bucket.objects, keys, temps, key)))
                && (!G.Present(old(bucket.objects), keys) ==> G.PartsIntact(old(bucket.objects), bucket.objects, temps))
                && (ok <==> commits && WouldComplete(old(bucket.objects), keys, old(bucket.budget)))
                && (WouldComplete(old(bucket.objects), keys, old(bucket.budget)) ==>
                      G.Completed(old(bucket.objects), bucket.objects, keys, temps, key))
                && G.PartsLeft(old(bucket.objects), bucket.objects, keys, temps, key,
                               DeletedBy(old(bucket.objects), keys, old(bucket.budget), old(bucket.applied)))
    {
      if !Open(u) {
        return false;
      }
      ghost var made, gone;
      var s := sessions[u];
      ok, made, gone := G.CompleteMultipartUpload(bucket, files[s.file].content.key, s.uploadId, parts,
                                                  Parts(u, parts), Temps(u, parts));
      if !ok || !commits {
        return false;
      }
      RecordCompletion(u, versioning, scan, |parts|);
    }

    /** As long as one of the listed part objects is missing, no completion of the session that lists it
        succeeds: whatever the lists, the flags and the bucket's answers, each leaves database and part missing. */
    method LaterCompletions(bucket: G.Bucket, u: nat, n: int, lists: seq<seq<Part>>, versioning: bool, scan: bool,
                            budgets: seq<nat>)
      returns (replies: seq<bool>)
      requires Valid() && Open(u) && '/' !in sessions[u].uploadId
      requires forall i :: 0 <= i < |lists| ==> n in SortedNumbers(lists[i])
      requires PartKey(Key(u), sessions[u].uploadId, n) !in bucket.objects && |budgets| == |lists|
      modifies this, bucket
      ensures |replies| == |lists| && forall i :: 0 <= i < |replies| ==> !replies[i]
      ensures Valid() && State() == old(State()) && PartKey(Key(u), sessions[u].uploadId, n) !in bucket.objects
      ensures SameAt(old(bucket.objects), bucket.objects, Key(u))
    {
      replies := [];
      for i := 0 to |lists|
        invariant |replies| == i && forall j :: 0 <= j < i ==> !replies[j]
        invariant Valid() && State() == old(State())
        invariant PartKey(Key(u), sessions[u].uploadId, n) !in bucket.objects
        invariant SameAt(old(bucket.objects), bucket.objects, Key(u))
      {
        bucket.budget := budgets[i];
        MissingPart(bucket.objects, Key(u), sessions[u].uploadId, lists[i], n);
        var ok := CompleteMultipart(bucket, u, lists[i], versioning, scan, true);
        replies := replies + [ok];
      }
    }

    /** A completion fails after it deleted some listed part: its commit was lost, or its cleanup cut short. Then
        every later completion that lists one of those parts is refused, until that part is uploaded again: the file
        can no longer leave status pending this way, though its object is right. */
    method Stranded(bucket: G.Bucket, u: nat, parts: seq<Part>, commits: bool, n: int, lists: seq<seq<Part>>,
                    versioning: bool, scan: bool, budgets: seq<nat>)
      returns (first: bool, replies: seq<bool>)
      requires Valid() && Open(u) && '/' !in sessions[u].uploadId
      requires !(commits && WouldComplete(bucket.objects, Parts(u, parts), bucket.budget))
      requires n in DeletedNumbers(parts, DeletedBy(bucket.objects, Parts(u, parts), bucket.budget, bucket.applied))
      requires |budgets| == |lists| && forall i :: 0 <= i < |lists| ==> n in SortedNumbers(lists[i])
      modifies this, bucket
      ensures !first && |replies| == |lists| && forall i :: 0 <= i < |replies| ==> !replies[i]
      ensures Valid() && State() == old(State())
      ensures Key(u) in bucket.objects
              && bucket.objects[Key(u)] == G.Concat(old(bucket.objects), old(Parts(u, parts)))
    {
      ghost var key, id, o := Key(u), sessions[u].uploadId, bucket.objects;
      ghost var gone := DeletedBy(o, Parts(u, parts), bucket.budget, bucket.applied);
      first := CompleteMultipart(bucket, u, parts, versioning, scan, commits);
      DeletedAfterWrite(o, bucket.objects, key, id, parts, gone, n);
      replies := LaterCompletions(bucket, u, n, lists, versioning, scan, budgets);
    }

    /** A completion that failed, whatever the cause, and another with any list once the bucket answers. The second
        succeeds exactly when it lists parts, all of them were there at first, and none is among those the first had
        deleted; with the same list, exactly when the first stopped before it deleted one. */
    method CompleteAgain(bucket: G.Bucket, u: nat, parts: seq<Part>, commits: bool, again: seq<Part>, budget: nat,
                         versioning: bool, scan: bool)
      returns (first: bool, second: bool)
      requires Valid() && Open(u) && '/' !in sessions[u].uploadId
      requires budget > |again| + 2 * G.TempCount(|again|)
      modifies this, bucket
      ensures Valid()
      ensures first <==> commits && WouldComplete(old(bucket.objects), old(Parts(u, parts)), old(bucket.budget))
      ensures !first ==>
                var o, key, id := old(bucket.objects), old(Key(u)), old(sessions[u].uploadId);
                var gone := DeletedBy(o, old(Parts(u, parts)), old(bucket.budget), old(bucket.applied));
                && (second <==> again != [] && forall n :: n in SortedNumbers(again) ==>
                                                 PartKey(key, id, n) in o && n !in DeletedNumbers(parts, gone))
                && (again == parts ==>
                      (second <==> parts != [] && G.Present(o, old(Parts(u, parts))) && gone == 0))
                && State() == if second then Apply(tenant, old(State()), Complete(u, versioning, scan, |again|))
                              else old(State())
      ensures second ==>
                && !first && G.Present(old(bucket.objects), old(Parts(u, again))) && old(Key(u)) in bucket.objects
                && bucket.objects[old(Key(u))] == G.Concat(old(bucket.objects), old(Parts(u, again)))
    {
      ghost var key, id, o := Key(u), sessions[u].uploadId, bucket.objects;
      ghost var gone := DeletedBy(o, Parts(u, parts), bucket.budget, bucket.applied);
      first := CompleteMultipart(bucket, u, parts, versioning, scan, commits);
      second := false;
      if !first {
        ghost var mid := bucket.objects;
        PartsAfter(o, mid, key, id, parts, gone, again);
        SameListAgain(o, mid, key, id, parts, gone);
        bucket.budget := budget;
        second := CompleteMultipart(bucket, u, again, versioning, scan, true);
        if second {
          WrittenAgain(o, mid, bucket.objects, key, id, parts, again);
        }
      }
    }

    // ---- Multipart abort: storage first, then one transaction; nothing looks at the session's status ----

    /** The transaction. */
    method RecordAbort(u: nat)
      requires Valid() && Open(u)
      modifies this
      ensures Valid() && State() == Apply(tenant, old(State()), Abort(u)) && log == old(log)
      ensures Withdrawn(tenant, old(State()), State(), u)
      ensures Open(u) && Key(u) == old(Key(u))
    {
      InvStep(tenant, State(), Abort(u));
      OneFileOneEvent(tenant, State(), Abort(u));
      var s := sessions[u];
      sessions := sessions[u := s.(status := Aborted)];
      files := files[s.file := files[s.file].(status := Failed)];
    }

    /** With GCS. A failure leaves the database as it was and the bucket with part objects deleted, all of them if
        only the commit was lost; other objects, a completed upload's final one among them, keep their bytes either
        way. */
    method AbortMultipart(bucket: G.Bucket, u: nat, listed: seq<string>, commits: bool) returns (ok: bool)
      requires Valid() && (Open(u) ==> '/' !in sessions[u].uploadId)
      requires Open(u) ==>
                 forall x :: x in listed <==> x in bucket.objects && PartPrefix(Key(u), sessions[u].uploadId) <= x
      modifies this, bucket
      ensures Valid() && (ok <==> old(Open(u)) && old(bucket.budget) >= |listed| && commits)
      ensures !ok ==> State() == old(State())
      ensures !old(Open(u)) ==> bucket.objects == old(bucket.objects)
      ensures ok ==> State() == Apply(tenant, old(State()), Abort(u)) && Withdrawn(tenant, old(State()), State(), u)
      ensures old(Open(u)) ==>
                var prefix := old(PartPrefix(Key(u), sessions[u].uploadId));
                && (forall x :: x in bucket.objects ==>
                      x in old(bucket.objects) && bucket.objects[x] == old(bucket.objects)[x])
                && (forall x :: x in old(bucket.objects) && !(prefix <= x) ==> x in bucket.objects)
                && (old(bucket.budget) >= |listed| ==> forall x :: x in bucket.objects ==> !(prefix <= x))
                && SameAt(old(bucket.objects), bucket.objects, old(Key(u)))
    {
      if !Open(u) {
        return false;
      }
      var s := sessions[u];
      PrefixMissesKeys(Key(u), s.uploadId, Key(u));
      ok := G.AbortMultipartUpload(bucket, files[s.file].content.key, s.uploadId, listed);
      if !ok || !commits {
        return false;
      }
      RecordAbort(u);
    }

    /** With S3: refused exactly when session or file is not found or the upload is no longer open, so a completed
        upload cannot be aborted; the object stays either way. */
    method AbortOnS3(storage: S3.Upload, u: nat, commits: bool) returns (ok: bool)
      requires Valid() && (Open(u) ==> storage.key == Key(u) && storage.uploadId == sessions[u].uploadId)
      modifies this, storage
      ensures Valid() && (ok <==> old(Open(u)) && old(storage.open) && commits) && storage.final == old(storage.final)
      ensures State() == if ok then Apply(tenant, old(State()), Abort(u)) else old(State())
      ensures ok ==> Withdrawn(tenant, old(State()), State(), u)
      ensures if old(Open(u)) && old(storage.open) then !storage.open && storage.parts == map[]
              else storage.open == old(storage.open) && storage.parts == old(storage.parts)
    {
      if !Open(u) {
        return false;
      }
      ok := storage.AbortMultipartUpload();
      if !ok || !commits {
        return false;
      }
      RecordAbort(u);
    }

    /** With Azure: refused only when session or file is not found or the commit is lost, and the object is gone,
        committed or not. */
    method AbortOnAzure(storage: Azure.Blob, u: nat, drops: bool, commits: bool) returns (ok: bool)
      requires Valid() && storage.Valid() && (Open(u) ==> storage.key == Key(u))
      modifies this, storage
      ensures Valid() && storage.Valid() && (ok <==> old(Open(u)) && commits)
      ensures State() == if ok then Apply(tenant, old(State()), Abort(u)) else old(State())
      ensures ok ==> Withdrawn(tenant, old(State()), State(), u)
      ensures if old(Open(u)) then storage.final == []
              else storage.final == old(storage.final) && storage.uploads == old(storage.uploads)
    {
      if !Open(u) {
        return false;
      }
      storage.AbortMultipartUpload(drops);
      if !commits {
        return false;
      }
      RecordAbort(u);
      ok := true;
    }

    /** A client that aborts an upload it completed. With Azure that takes the object away from under the version
        the completion made. */
    method CompleteThenAbortOnAzure(storage: Azure.Blob, u: nat, parts: seq<Part>, scan: bool, drops: bool)
      returns (completed: bool)
      requires Valid() && storage.Valid() && Open(u) && storage.key == Key(u)
      modifies this, storage
      ensures Valid() && storage.Valid() && Open(u) && Key(u) == old(Key(u))
      ensures completed <==> AllUploaded(old(storage.uploads), SortedNumbers(parts))
      ensures completed ==>
                && |History(versions, sessions[u].file)| == |History(old(versions), old(sessions[u].file))| + 1
                && storage.final == [] && files[sessions[u].file].status == Failed
    {
      ghost var before := State();
      completed := CompleteOnAzure(storage, u, parts, true, scan, true);
      if completed {
        CompleteGains(tenant, before, u, scan, |parts|);
        var aborted := AbortOnAzure(storage, u, drops, true);
      }
    }
  }

  lemma CompleteGains(t: Tenant, db: Db, u: nat, scan: bool, count: nat)
    requires Inv(db) && Accepted(t, db, Complete(u, true, scan, count))
    ensures var db', f := Apply(t, db, Complete(u, true, scan, count)), db.sessions[u].file;
      && u in db'.sessions && db'.sessions[u].file == f && Active(t, db', f)
      && db'.files[f].content == db.files[f].content
      && |History(db'.versions, f)| == |History(db.versions, f)| + 1
  {
    var f := db.sessions[u].file;
    HistoryPush(db.versions, Version(f, db.files[f].versionCount + 1, db.files[f].content), f);
  }

  /** The file was handed to the worker or declared ready, with the one event that says so. With versioning its history
      gained one version, with its content and the next number, and without it none; the content stays. */
  ghost predicate Recorded(db: Db, db': Db, f: nat, versioning: bool, scan: bool) {
    && f in db.files && f in db'.files && db'.files[f].content == db.files[f].content && !db'.files[f].deleted
    && db'.files[f].owner == db.files[f].owner
    && db'.files[f].status == (if scan then Processing else Ready)
    && db'.log == db.log + [Row(f, if scan then Uploaded else FileReady(false))]
    && (versioning ==> |History(db'.versions, f)| == |History(db.versions, f)| + 1
                       && History(db'.versions, f)[|History(db.versions, f)|]
                          == Version(f, |History(db.versions, f)| + 1, db.files[f].content))
    && (!versioning ==> db'.versions == db.versions)
    && db'.files[f].versionCount == |History(db'.versions, f)|
  }

  /** That, for a completed upload: its session is marked with the number of parts, and nothing else changed. */
  ghost predicate Finished(t: Tenant, db: Db, db': Db, u: nat, versioning: bool, scan: bool, count: nat) {
    && u in db.sessions && db.sessions[u].file in db.files && db.files[db.sessions[u].file].owner == t
    && Recorded(db, db', db.sessions[u].file, versioning, scan) && OnlyFile(db, db', db.sessions[u].file)
    && db'.sessions == db.sessions[u := Session(db.sessions[u].file, db.sessions[u].uploadId, Completed, count)]
  }

  /** An aborted upload: session aborted, file failed, and nothing else, not even an event. */
  ghost predicate Withdrawn(t: Tenant, db: Db, db': Db, u: nat) {
    && u in db.sessions && db.sessions[u].file in db.files && db.files[db.sessions[u].file].owner == t
    && db'.files == db.files[db.sessions[u].file := db.files[db.sessions[u].file].(status := Failed)]
    && db'.sessions == db.sessions[u := db.sessions[u].(status := Aborted)]
    && db'.versions == db.versions && db'.log == db.log
  }

  lemma AnnounceRecords(t: Tenant, db: Db, f: nat, versioning: bool, scan: bool)
    requires Inv(db) && Active(t, db, f)
    ensures Recorded(db, Announce(if versioning then Snapshot(db, f) else db, f, scan), f, versioning, scan)
  {
    assert FileInv(db, f);
    HistoryPush(db.versions, Version(f, db.files[f].versionCount + 1, db.files[f].content), f);
  }

  lemma CompletionRecords(t: Tenant, db: Db, u: nat, versioning: bool, scan: bool, count: nat)
    requires Inv(db) && Accepted(t, db, Complete(u, versioning, scan, count))
    ensures Finished(t, db, Apply(t, db, Complete(u, versioning, scan, count)), u, versioning, scan, count)
  {
    var s := db.sessions[u];
    var db1 := db.(sessions := db.sessions[u := s.(status := Completed, partCount := count)]);
    RowsOnlyKeeps(db, db1);
    AnnounceRecords(t, db1, s.file, versioning, scan);
    OneFileOneEvent(t, db, Complete(u, versioning, scan, count));
  }

  /** Files never share an object. */
  lemma OwnObject(db: Db, f: nat)
    requires Inv(db) && f in db.files
    ensures forall g :: g in db.files && g != f ==> db.files[g].content.key != db.files[f].content.key
    ensures db.files[f].versionCount == |History(db.versions, f)|
  {
    assert FileInv(db, f);
    forall g | g in db.files && g != f ensures db.files[g].content.key != db.files[f].content.key {
      assert FileInv(db, g);
      KeysDiffer(db.files[g].owner, g, db.files[f].owner, f);
    }
  }

  lemma ConfirmGains(t: Tenant, db: Db, f: nat, versioning: bool, scan: bool)
    requires Inv(db) && Active(t, db, f)
    ensures var db' := Apply(t, db, Confirm(f, versioning, scan));
      OnlyFile(db, db', f) && Recorded(db, db', f, versioning, scan) && db'.sessions == db.sessions
  {
    OneFileOneEvent(t, db, Confirm(f, versioning, scan));
    assert FileInv(db, f);
    assert KeyOf(t, f) == t.org + "/" + t.project + "/" + Text.Decimal(f) && KeyOf(t, f) != "";
    AnnounceRecords(t, db, f, versioning, scan);
  }

  /** The bucket answers long enough for the whole assembly and cleanup, and has the listed parts. */
  predicate WouldComplete(o: G.Objects, keys: seq<string>, budget: nat) {
    keys != [] && G.Present(o, keys) && budget > |keys| + 2 * G.TempCount(|keys|)
  }

  /** How many of the listed parts, and then of the intermediates, the cleanup deletes. */
  function DeletedBy(o: G.Objects, keys: seq<string>, budget: nat, applied: bool): nat {
    G.GoneFrom(o, keys, G.Effects(budget, applied), G.TempCount(|keys|))
  }

  function DeletedNumbers(parts: seq<Part>, gone: nat): seq<int> {
    SortedNumbers(parts)[..G.Min(gone, |SortedNumbers(parts)|)]
  }

  /** A part object is there after a completion exactly when it was before and was not deleted. */
  lemma PartAfter(o: G.Objects, now: G.Objects, key: string, u: string, parts: seq<Part>, gone: nat, n: int)
    requires '/' !in u
    requires G.PartsLeft(o, now, G.PartKeys(key, u, SortedNumbers(parts)),
                         G.TempKeys(key, u, G.TempCount(|parts|)), key, gone)
    ensures PartKey(key, u, n) in now <==> PartKey(key, u, n) in o && n !in DeletedNumbers(parts, gone)
  {
    var ns, t := SortedNumbers(parts), G.TempCount(|parts|);
    var first := G.PartKeys(key, u, ns)[..G.Min(gone, |ns|)];
    G.PartKeyAt(key, u, ns);
    G.TempKeyAt(key, u, t);
    PartIsNotKey(key, u, n, key);
    forall i | 0 <= i < t ensures G.TempKeys(key, u, t)[i] != PartKey(key, u, n) {
      PartIsNotTemp(key, u, n, key, u, i);
    }
    if i :| 0 <= i < |first| && first[i] == PartKey(key, u, n) {
      PartKeyInjective(key, u, ns[i], key, u, n);
      assert DeletedNumbers(parts, gone)[i] == n;
    }
    if i :| 0 <= i < |DeletedNumbers(parts, gone)| && DeletedNumbers(parts, gone)[i] == n {
      assert first[i] == PartKey(key, u, n);
    }
  }

  /** Which lists can still be completed afterwards. */
  lemma PartsAfter(o: G.Objects, now: G.Objects, key: string, u: string, parts: seq<Part>, gone: nat, again: seq<Part>)
    requires '/' !in u
    requires G.PartsLeft(o, now, G.PartKeys(key, u, SortedNumbers(parts)),
                         G.TempKeys(key, u, G.TempCount(|parts|)), key, gone)
    ensures G.Present(now, G.PartKeys(key, u, SortedNumbers(again)))
            <==> forall n :: n in SortedNumbers(again) ==> PartKey(key, u, n) in o && n !in DeletedNumbers(parts, gone)
  {
    var ns := SortedNumbers(again);
    G.PartKeyAt(key, u, ns);
    forall n ensures PartKey(key, u, n) in now <==> PartKey(key, u, n) in o && n !in DeletedNumbers(parts, gone) {
      PartAfter(o, now, key, u, parts, gone, n);
    }
    forall i | 0 <= i < |ns| ensures G.PartKeys(key, u, ns)[i] == PartKey(key, u, ns[i]) && ns[i] in ns {
    }
  }

  /** A part that is still there has its bytes, however the completion ended. */
  lemma BytesKept(o: G.Objects, now: G.Objects, key: string, u: string, parts: seq<Part>, again: seq<Part>)
    requires '/' !in u
    requires var keys, temps := G.PartKeys(key, u, SortedNumbers(parts)), G.TempKeys(key, u, G.TempCount(|parts|));
             G.Completed(o, now, keys, temps, key) || G.PartsIntact(o, now, temps)
             || G.FinalWritten(o, now, keys, temps, key)
    requires G.Present(now, G.PartKeys(key, u, SortedNumbers(again)))
    ensures var listed := G.PartKeys(key, u, SortedNumbers(again));
            G.Present(o, listed) && G.Concat(now, listed) == G.Concat(o, listed)
  {
    var ns := SortedNumbers(again);
    var listed := G.PartKeys(key, u, ns);
    G.PartKeyAt(key, u, ns);
    forall i | 0 <= i < |listed| ensures listed[i] in o && o[listed[i]] == now[listed[i]] {
      PartKept(o, now, key, u, parts, ns[i]);
    }
    G.ConcatSame(now, o, listed);
  }

  /** So the second completion writes what a first one would have. */
  lemma WrittenAgain(o: G.Objects, mid: G.Objects, after: G.Objects, key: string, u: string, parts: seq<Part>,
                     again: seq<Part>)
    requires '/' !in u
    requires var keys, temps := G.PartKeys(key, u, SortedNumbers(parts)), G.TempKeys(key, u, G.TempCount(|parts|));
             G.Completed(o, mid, keys, temps, key) || G.PartsIntact(o, mid, temps)
             || G.FinalWritten(o, mid, keys, temps, key)
    requires G.Completed(mid, after, G.PartKeys(key, u, SortedNumbers(again)),
                         G.TempKeys(key, u, G.TempCount(|again|)), key)
    ensures var listed := G.PartKeys(key, u, SortedNumbers(again));
            G.Present(o, listed) && key in after && after[key] == G.Concat(o, listed)
  {
    BytesKept(o, mid, key, u, parts, again);
  }

  lemma SameListAgain(o: G.Objects, mid: G.Objects, key: string, u: string, parts: seq<Part>, gone: nat)
    requires '/' !in u
    requires G.PartsLeft(o, mid, G.PartKeys(key, u, SortedNumbers(parts)),
                         G.TempKeys(key, u, G.TempCount(|parts|)), key, gone)
    ensures var keys := G.PartKeys(key, u, SortedNumbers(parts));
            parts != [] ==> (G.Present(mid, keys) <==> G.Present(o, keys) && gone == 0)
  {
    G.KeysApart(key, u, SortedNumbers(parts));
    var keys, temps := G.PartKeys(key, u, SortedNumbers(parts)), G.TempKeys(key, u, G.TempCount(|parts|));
    G.PresentAfter(o, mid, keys, temps, key, gone);
  }

  lemma PartKept(o: G.Objects, now: G.Objects, key: string, u: string, parts: seq<Part>, n: int)
    requires '/' !in u && PartKey(key, u, n) in now
    requires var keys, temps := G.PartKeys(key, u, SortedNumbers(parts)), G.TempKeys(key, u, G.TempCount(|parts|));
             G.Completed(o, now, keys, temps, key) || G.PartsIntact(o, now, temps)
             || G.FinalWritten(o, now, keys, temps, key)
    ensures PartKey(key, u, n) in o && o[PartKey(key, u, n)] == now[PartKey(key, u, n)]
  {
    var t := G.TempCount(|parts|);
    G.TempKeyAt(key, u, t);
    PartIsNotKey(key, u, n, key);
    forall j | 0 <= j < t ensures G.TempKeys(key, u, t)[j] != PartKey(key, u, n) {
      PartIsNotTemp(key, u, n, key, u, j);
    }
  }

  /** A part is deleted only after the final object was written. */
  lemma DeletedAfterWrite(o: G.Objects, now: G.Objects, key: string, u: string, parts: seq<Part>, gone: nat, n: int)
    requires '/' !in u && n in DeletedNumbers(parts, gone)
    requires var keys, temps := G.PartKeys(key, u, SortedNumbers(parts)), G.TempKeys(key, u, G.TempCount(|parts|));
             && (G.Completed(o, now, keys, temps, key) || G.PartsIntact(o, now, temps)
                 || G.FinalWritten(o, now, keys, temps, key))
             && G.PartsLeft(o, now, keys, temps, key, gone) && G.Present(o, keys)
    ensures PartKey(key, u, n) !in now && key in now
            && now[key] == G.Concat(o, G.PartKeys(key, u, SortedNumbers(parts)))
  {
    var ns := SortedNumbers(parts);
    var keys, temps := G.PartKeys(key, u, ns), G.TempKeys(key, u, G.TempCount(|parts|));
    PartAfter(o, now, key, u, parts, gone, n);
    var i :| 0 <= i < |ns| && ns[i] == n;
    G.PartKeyAt(key, u, ns);
    G.KeysApart(key, u, ns);
    assert keys[i] == PartKey(key, u, n) && keys[i] in keys;
  }

  lemma MissingPart(o: G.Objects, key: string, u: string, parts: seq<Part>, n: int)
    requires '/' !in u && n in SortedNumbers(parts) && PartKey(key, u, n) !in o
    ensures !G.Present(o, G.PartKeys(key, u, SortedNumbers(parts)))
    ensures PartKey(key, u, n) !in G.TempKeys(key, u, G.TempCount(|parts|))
    ensures key !in G.TempKeys(key, u, G.TempCount(|parts|))
  {
    var ns := SortedNumbers(parts);
    G.KeysApart(key, u, ns);
    G.PartKeyAt(key, u, ns);
    G.TempKeyAt(key, u, G.TempCount(|parts|));
    var i :| 0 <= i < |ns| && ns[i] == n;
    assert G.PartKeys(key, u, ns)[i] == PartKey(key, u, n);
    forall j: nat ensures PartKey(key, u, n) != TempKey(key, u, j) {
      PartIsNotTemp(key, u, n, key, u, j);
    }
  }
}

/** Each service transaction is the delivery protocol's atomic step of the same name. */
module ServicesInProtocol {
  import opened Events
  import opened Versions
  import D = Delivery

  ghost predicate Mirrors(db: Db, s: D.State) {
    s.log == db.log && s.files.Keys == db.files.Keys
    && forall f :: f in db.files ==> s.files[f] == D.File(db.files[f].status, db.files[f].deleted)
  }

  /** Completing a multipart upload is a confirm of its file. */
  function StepOf(db: Db, op: Op): D.Service
    requires !op.Record? && (op.Complete? || op.Abort? ==> op.upload in db.sessions)
  {
    match op
    case InitUpload(f, _, _) => D.InitUpload(f)
    case StartMultipart(f, _, _, _, _) => D.StartMultipart(f)
    case Confirm(f, _, scan) => D.Confirm(f, scan)
    case Complete(u, _, scan, _) => D.Confirm(db.sessions[u].file, scan)
    case Restore(f, _) => D.Restore(f)
    case Abort(u) => D.Abort(db.sessions[u].file)
    case Delete(f) => D.Delete(f)
  }

  /** A snapshot is invisible to the protocol. */
  lemma ConfirmStep(db: Db, f: nat, snapshot: bool, scan: bool, s: D.State)
    requires f in db.files && D.Active(s, f) && Mirrors(db, s)
    ensures Mirrors(Announce(if snapshot then Snapshot(db, f) else db, f, scan), D.DoService(s, D.Confirm(f, scan)))
  {
  }

  lemma RowStep(t: Tenant, db: Db, op: Op, s: D.State)
    requires Accepted(t, db, op) && !op.Record? && !op.Confirm? && !op.Complete? && Mirrors(db, s)
    ensures D.ServiceEnabled(s, StepOf(db, op))
    ensures Mirrors(Apply(t, db, op), D.DoService(s, StepOf(db, op)))
  {
  }

  lemma ServiceIsProtocolStep(t: Tenant, db: Db, op: Op, s: D.State)
    requires Accepted(t, db, op) && !op.Record? && Mirrors(db, s)
    ensures D.ServiceEnabled(s, StepOf(db, op))
    ensures Mirrors(Apply(t, db, op), D.DoService(s, StepOf(db, op)))
  {
    match op
    case Confirm(f, versioning, scan) =>
      ConfirmStep(db, f, versioning && db.files[f].content.key != "", scan, s);
    case Complete(u, versioning, scan, partCount) =>
      var session := db.sessions[u];
      var db1 := db.(sessions := db.sessions[u := session.(status := Completed, partCount := partCount)]);
      ConfirmStep(db1, session.file, versioning, scan, s);
    case _ =>
      RowStep(t, db, op, s);
  }
}
