/** Invariants of the delivery protocol, kept by every step and so true of every run. */
module DeliverySafety {
  import opened Events
  import opened Sequences
  import opened Delivery

  // ---- Well-formedness ----

  ghost predicate LogKnown(s: State) {
    forall i :: 0 <= i < |s.log| ==> s.log[i].file in s.files
  }

  ghost predicate StreamKnown(s: State) {
    && (forall m :: 0 <= m < |s.stream| ==> s.stream[m] < |s.log|)
    && (forall r :: r in s.published ==> r < |s.log|)
    && (forall m :: m in s.acked ==> m < |s.stream|)
    && (forall k :: k in s.runs ==>
          && s.runs[k].msg < |s.stream| && s.stream[s.runs[k].msg] < |s.log|
          && s.log[s.stream[s.runs[k].msg]].event == Uploaded)
  }

  ghost predicate AbortsKnown(s: State) {
    forall f :: f in s.aborts ==> f in s.files && s.aborts[f] <= |s.log|
  }

  /** Locks and batches agree: a locked row is unpublished and belongs to exactly one open batch, once. */
  ghost predicate LocksHeld(s: State) {
    && (forall w :: w in s.batches ==> s.batches[w].sent <= |s.batches[w].rows| && Distinct(s.batches[w].rows))
    && (forall w, i :: w in s.batches && 0 <= i < |s.batches[w].rows| ==>
          s.batches[w].rows[i] in s.locks && s.locks[s.batches[w].rows[i]] == w)
    && (forall r :: r in s.locks ==> r < |s.log| && r !in s.published)
    && (forall r :: r in s.locks ==> s.locks[r] in s.batches && r in s.batches[s.locks[r]].rows)
  }

  ghost predicate WellFormed(s: State) {
    LogKnown(s) && StreamKnown(s) && AbortsKnown(s) && LocksHeld(s)
  }

  lemma GrowthKeepsForm(s: State, s': State)
    requires LogKnown(s) && LocksHeld(s) && SameTransport(s, s') && LogGrows(s, s')
    ensures LogKnown(s') && LocksHeld(s')
    ensures forall i :: 0 <= i < |s.log| ==> s'.log[i] == s.log[i]
  {
  }

  lemma WellFormedService(s: State, t: Service)
    requires WellFormed(s) && ServiceEnabled(s, t)
    ensures WellFormed(DoService(s, t))
  {
    ServiceFrame(s, t);
    GrowthKeepsForm(s, DoService(s, t));
  }

  /** Closing a transaction frees its rows and touches no other batch. */
  lemma CloseKeepsLocks(s: State, w: nat)
    requires LocksHeld(s)
    ensures LocksHeld(Close(s, w))
    ensures w in s.batches ==> forall r :: r in s.batches[w].rows ==> r !in Close(s, w).locks
  {
  }

  lemma LockKeepsLocks(s: State, w: nat, rows: seq<nat>)
    requires LocksHeld(s) && OutboxEnabled(s, Lock(w, rows))
    ensures LocksHeld(DoOutbox(s, Lock(w, rows)))
  {
  }

  /** Locks and published marks only concern known rows, and so does whatever is added to the stream. */
  lemma SendKeepsForm(s: State, s': State)
    requires WellFormed(s) && LocksHeld(s')
    requires s'.files == s.files && s'.log == s.log && s'.runs == s.runs && s'.acked == s.acked && s'.aborts == s.aborts
    requires s.stream <= s'.stream && forall m :: |s.stream| <= m < |s'.stream| ==> s'.stream[m] < |s.log|
    requires forall r :: r in s'.published ==> r < |s.log|
    ensures WellFormed(s')
  {
  }

  lemma WellFormedOutbox(s: State, t: Outbox)
    requires WellFormed(s) && OutboxEnabled(s, t)
    ensures WellFormed(DoOutbox(s, t))
  {
    var s' := DoOutbox(s, t);
    match t
    case Lock(w, rows) =>
      LockKeepsLocks(s, w, rows);
      SendKeepsForm(s, s');
    case Send(w) =>
      assert s.batches[w].rows[s.batches[w].sent] in s.locks;
      SendKeepsForm(s, s');
    case SendFails(w, stored) =>
      assert s.batches[w].rows[s.batches[w].sent] in s.locks;
      UndoKeepsForm(s, w, if stored then [s.batches[w].rows[s.batches[w].sent]] else []);
    case CommitBatch(w) =>
      CommitKeepsForm(s, w);
    case RollBack(w) =>
      UndoKeepsForm(s, w, []);
  }

  lemma UndoKeepsForm(s: State, w: nat, extra: seq<nat>)
    requires WellFormed(s) && w in s.batches && forall r :: r in extra ==> r < |s.log|
    ensures WellFormed(Undo(s, w, extra))
  {
    CloseKeepsLocks(s, w);
    var s' := Undo(s, w, extra);
    forall m | |s.stream| <= m < |s'.stream| ensures s'.stream[m] < |s.log| {
      assert s'.stream[m] == extra[m - |s.stream|] && extra[m - |s.stream|] in extra;
    }
    SendKeepsForm(s, s');
  }

  lemma CommitKeepsForm(s: State, w: nat)
    requires WellFormed(s) && OutboxEnabled(s, CommitBatch(w))
    ensures WellFormed(DoOutbox(s, CommitBatch(w)))
  {
  }

  lemma WellFormedHandler(s: State, t: Handler)
    requires WellFormed(s) && HandlerEnabled(s, t)
    ensures WellFormed(DoHandler(s, t))
  {
    HandlerFrame(s, t);
    GrowthKeepsForm(s, DoHandler(s, t));
    HandlerMessages(s, t);
    MessagesKeepStream(s, DoHandler(s, t));
  }

  /** Handlers work on, and acknowledge, only messages in the stream that announce uploads. */
  ghost predicate MessagesOf(s: State, s': State) {
    && (forall m :: m in s'.acked ==> m < |s.stream|)
    && (forall k :: k in s'.runs ==> s'.runs[k].msg < |s.stream| && s.stream[s'.runs[k].msg] < |s.log|
                                     && s.log[s.stream[s'.runs[k].msg]].event == Uploaded)
  }

  lemma HandlerMessages(s: State, t: Handler)
    requires WellFormed(s) && HandlerEnabled(s, t)
    ensures MessagesOf(s, DoHandler(s, t))
  {
    HandlerKeepsMessages(s, t);
  }

  lemma HandlerKeepsMessages(s: State, t: Handler)
    requires HandlerEnabled(s, t)
    ensures var s' := DoHandler(s, t);
      && (forall k :: k in s'.runs ==> if t.Deliver? && k == t.run then s'.runs[k].msg == t.msg
                                       else k in s.runs && s'.runs[k].msg == s.runs[k].msg)
      && (forall m :: m in s'.acked ==> m in s.acked || (t.Ack? && m == s.runs[t.run].msg))
  {
  }

  lemma MessagesKeepStream(s: State, s': State)
    requires WellFormed(s) && SameTransport(s, s') && LogGrows(s, s') && s'.aborts == s.aborts && MessagesOf(s, s')
    requires forall i :: 0 <= i < |s.log| ==> s'.log[i] == s.log[i]
    ensures StreamKnown(s') && AbortsKnown(s')
  {
  }

  // ---- Outbox conservation ----

  /** The row has been sent by the worker that still holds it. */
  predicate SentInOpenBatch(s: State, r: nat) {
    r in s.locks && s.locks[r] in s.batches
    && var b := s.batches[s.locks[r]]; b.sent <= |b.rows| && r in b.rows[..b.sent]
  }

  /** Copies of a row in the stream = marked published + sent in an open batch + sends rolled back. */
  ghost predicate Balanced(s: State, r: nat) {
    multiset(s.stream)[r] == (if r in s.published then 1 else 0)
                           + (if SentInOpenBatch(s, r) then 1 else 0)
                           + s.undone[r]
  }

  ghost predicate Conserved(s: State) {
    forall r: nat :: Balanced(s, r)
  }

  lemma {:induction false} DistinctOnce(rows: seq<nat>, r: nat)
    requires Distinct(rows)
    ensures multiset(rows)[r] == if r in rows then 1 else 0
  {
    if rows != [] {
      var front := rows[..|rows| - 1];
      DistinctOnce(front, r);
      assert rows == front + [rows[|rows| - 1]];
    }
  }

  lemma BalancedLock(s: State, t: Outbox, r: nat)
    requires WellFormed(s) && OutboxEnabled(s, t) && t.Lock? && Balanced(s, r)
    ensures Balanced(DoOutbox(s, t), r)
  {
  }

  lemma BalancedSend(s: State, t: Outbox, r: nat)
    requires WellFormed(s) && OutboxEnabled(s, t) && t.Send? && Balanced(s, r)
    ensures Balanced(DoOutbox(s, t), r)
  {
  }

  lemma BalancedCommit(s: State, t: Outbox, r: nat)
    requires WellFormed(s) && OutboxEnabled(s, t) && t.CommitBatch? && Balanced(s, r)
    ensures Balanced(DoOutbox(s, t), r)
  {
  }

  lemma BalancedUndo(s: State, w: nat, extra: seq<nat>, r: nat)
    requires WellFormed(s) && Balanced(s, r) && w in s.batches
    ensures Balanced(Undo(s, w, extra), r)
  {
    var b := s.batches[w];
    DistinctOnce(b.rows[..b.sent], r);
    if r in b.rows[..b.sent] {
      assert r in s.locks && s.locks[r] == w;
    }
    assert multiset(s.stream + extra) == multiset(s.stream) + multiset(extra);
  }

  lemma ConservedOutbox(s: State, t: Outbox)
    requires WellFormed(s) && OutboxEnabled(s, t) && Conserved(s)
    ensures Conserved(DoOutbox(s, t))
  {
    forall r: nat ensures Balanced(DoOutbox(s, t), r) {
      assert Balanced(s, r);
      match t
      case Lock(_, _) => BalancedLock(s, t, r);
      case Send(_) => BalancedSend(s, t, r);
      case SendFails(w, stored) =>
        BalancedUndo(s, w, if stored then [s.batches[w].rows[s.batches[w].sent]] else [], r);
      case CommitBatch(_) => BalancedCommit(s, t, r);
      case RollBack(w) => BalancedUndo(s, w, [], r);
    }
  }

  lemma ConservedFrame(s: State, s': State)
    requires Conserved(s) && SameTransport(s, s')
    ensures Conserved(s')
  {
    forall r: nat ensures Balanced(s', r) {
      assert Balanced(s, r);
    }
  }

  // ---- The status law ----

  /** An event announcing a status of f was committed at or after position n. */
  predicate AnnouncedSince(log: seq<Row>, f: nat, n: nat) {
    exists i :: n <= i < |log| && log[i].file == f && Announces(log[i].event)
  }

  /** The status the committed history gives a file: failed after a multipart abort nothing has
      overridden, and otherwise what replaying its events gives. */
  function StatusByHistory(s: State, f: nat): Status {
    if f in s.aborts && !AnnouncedSince(s.log, f, s.aborts[f]) then Failed else Replay(s.log, f)
  }

  ghost predicate StatusesByHistory(s: State) {
    forall f :: f in s.files ==> s.files[f].status == StatusByHistory(s, f)
  }

  lemma AnnouncedAppend(log: seq<Row>, row: Row, f: nat, n: nat)
    requires n <= |log|
    ensures AnnouncedSince(log + [row], f, n)
            <==> AnnouncedSince(log, f, n) || (row.file == f && Announces(row.event))
  {
    var log' := log + [row];
    if AnnouncedSince(log, f, n) {
      var i :| n <= i < |log| && log[i].file == f && Announces(log[i].event);
      assert log'[i] == log[i];
    }
    if row.file == f && Announces(row.event) {
      assert log'[|log|] == row;
    }
  }

  lemma {:induction false} ReplayUnknown(log: seq<Row>, f: nat)
    requires forall i :: 0 <= i < |log| ==> log[i].file != f
    ensures Replay(log, f) == Pending
  {
    if log != [] {
      ReplayUnknown(log[..|log| - 1], f);
    }
  }

  lemma QuietKeepsLaw(s: State, s': State)
    requires StatusesByHistory(s) && s'.files == s.files && s'.log == s.log && s'.aborts == s.aborts
    ensures StatusesByHistory(s')
  {
  }

  /** A row that announces the status of a new file, or of none. */
  lemma RowKeepsLaw(s: State, s': State, row: Row)
    requires StatusesByHistory(s) && AbortsKnown(s) && s'.log == s.log + [row] && s'.aborts == s.aborts
    requires s'.files.Keys == s.files.Keys + {row.file}
    requires forall g :: g in s.files && g != row.file ==> s'.files[g].status == s.files[g].status
    requires if Announces(row.event) then s'.files[row.file].status == Announced(row.event)
             else row.file in s.files && s'.files[row.file].status == s.files[row.file].status
    ensures StatusesByHistory(s')
  {
    forall g | g in s'.files ensures s'.files[g].status == StatusByHistory(s', g) {
      AppendRow(s.log, row, g);
      if g in s.aborts {
        AnnouncedAppend(s.log, row, g, s.aborts[g]);
      }
    }
  }

  lemma LawQuietService(s: State, t: Service)
    requires WellFormed(s) && StatusesByHistory(s) && ServiceEnabled(s, t) && (t.StartMultipart? || t.Abort?)
    ensures StatusesByHistory(DoService(s, t))
  {
    var s' := DoService(s, t);
    if t.StartMultipart? {
      ReplayUnknown(s.log, t.file);
    }
    forall g | g in s'.files ensures s'.files[g].status == StatusByHistory(s', g) {
      assert g != t.file ==> g in s.files && s'.files[g] == s.files[g];
    }
  }

  lemma LawEventService(s: State, t: Service, e: Event)
    requires WellFormed(s) && StatusesByHistory(s) && ServiceEnabled(s, t)
    requires match t
             case InitUpload(_) => e == UploadInitiated
             case Confirm(_, scan) => e == if scan then Uploaded else FileReady(false)
             case Restore(_) => e == Restored
             case Delete(_) => e == Deleted
             case _ => false
    ensures StatusesByHistory(DoService(s, t))
  {
    RowKeepsLaw(s, DoService(s, t), Row(t.file, e));
  }

  lemma LawService(s: State, t: Service)
    requires WellFormed(s) && StatusesByHistory(s) && ServiceEnabled(s, t)
    ensures StatusesByHistory(DoService(s, t))
  {
    match t
    case InitUpload(_) => LawEventService(s, t, UploadInitiated);
    case Confirm(_, scan) => LawEventService(s, t, if scan then Uploaded else FileReady(false));
    case Restore(_) => LawEventService(s, t, Restored);
    case Delete(_) => LawEventService(s, t, Deleted);
    case _ => LawQuietService(s, t);
  }

  lemma LawOutcome(s: State, t: Handler, e: Event)
    requires WellFormed(s) && StatusesByHistory(s) && HandlerEnabled(s, t)
    requires (t.Conclude? && e == EventOf(t.verdict))
             || (t.MarkFailed? && !s.files[FileOf(s, s.runs[t.run].msg)].deleted && e == ProcessingFailed)
    ensures StatusesByHistory(DoHandler(s, t))
  {
    RowKeepsLaw(s, DoHandler(s, t), Row(FileOf(s, s.runs[t.run].msg), e));
  }

  lemma LawHandler(s: State, t: Handler)
    requires WellFormed(s) && StatusesByHistory(s) && HandlerEnabled(s, t)
    ensures StatusesByHistory(DoHandler(s, t))
  {
    if t.Conclude? {
      LawOutcome(s, t, EventOf(t.verdict));
    } else if t.MarkFailed? && !s.files[FileOf(s, s.runs[t.run].msg)].deleted {
      LawOutcome(s, t, ProcessingFailed);
    } else {
      QuietKeepsLaw(s, DoHandler(s, t));
    }
  }

  // ---- Processing files are owed a run ----

  /** The message has been dealt with: some handler of it skipped or committed (or met a deleted file). */
  ghost predicate Settled(s: State, m: nat) {
    (m in s.acked && s.acked[m] != Lost)
    || exists k :: k in s.runs && s.runs[k].msg == m && s.runs[k].phase.Finished? && s.runs[k].phase.ending != Lost
  }

  /** No message of the row is settled. */
  ghost predicate NoneSettled(s: State, r: int) {
    forall m :: 0 <= m < |s.stream| && s.stream[m] == r ==> !Settled(s, m)
  }

  predicate InProcessing(s: State, f: nat) {
    Active(s, f) && s.files[f].status == Processing
  }

  ghost predicate Owed(s: State) {
    forall f :: InProcessing(s, f) ==>
      NewestUpload(s.log, f) >= 0 && NoneSettled(s, NewestUpload(s.log, f))
  }

  lemma OwedService(s: State, t: Service)
    requires WellFormed(s) && Owed(s) && ServiceEnabled(s, t)
    ensures Owed(DoService(s, t))
  {
    var s' := DoService(s, t);
    ServiceFrame(s, t);
    forall f | InProcessing(s', f)
      ensures NewestUpload(s'.log, f) >= 0 && NoneSettled(s', NewestUpload(s'.log, f))
    {
      ServiceKeepsProcessing(s, t, f);
      SettledSame(s, s');
    }
  }

  lemma RowKeepsProcessing(s: State, s': State, row: Row, f: nat)
    requires s'.log == s.log + [row] && InProcessing(s', f)
    requires forall g :: g in s.files && g != row.file ==> g in s'.files && s'.files[g] == s.files[g]
    requires row.file in s'.files && s'.files.Keys <= s.files.Keys + {row.file}
    requires row.event == Uploaded || !InProcessing(s', row.file)
    ensures var newest := NewestUpload(s'.log, f);
      newest == |s.log| || (InProcessing(s, f) && newest == NewestUpload(s.log, f))
  {
  }

  lemma ServiceKeepsProcessing(s: State, t: Service, f: nat)
    requires WellFormed(s) && ServiceEnabled(s, t) && InProcessing(DoService(s, t), f)
    ensures var newest := NewestUpload(DoService(s, t).log, f);
      newest == |s.log| || (InProcessing(s, f) && newest == NewestUpload(s.log, f))
  {
    var s' := DoService(s, t);
    match t
    case InitUpload(g) => RowKeepsProcessing(s, s', Row(g, UploadInitiated), f);
    case StartMultipart(_) => assert s'.log == s.log;
    case Confirm(g, scan) => RowKeepsProcessing(s, s', Row(g, if scan then Uploaded else FileReady(false)), f);
    case Restore(g) => RowKeepsProcessing(s, s', Row(g, Restored), f);
    case Abort(_) => assert s'.log == s.log;
    case Delete(g) => RowKeepsProcessing(s, s', Row(g, Deleted), f);
  }

  lemma SettledSame(s: State, s': State)
    requires s'.acked == s.acked && s'.runs == s.runs
    ensures forall m :: Settled(s', m) <==> Settled(s, m)
  {
  }

  lemma OwedOutbox(s: State, t: Outbox)
    requires WellFormed(s) && Owed(s) && OutboxEnabled(s, t)
    ensures Owed(DoOutbox(s, t))
  {
  }

  lemma OutboxFrame(s: State, t: Outbox)
    requires OutboxEnabled(s, t)
    ensures var s' := DoOutbox(s, t);
      s'.files == s.files && s'.log == s.log && s'.acked == s.acked && s'.runs == s.runs && s'.aborts == s.aborts
      && s.stream <= s'.stream
  {
  }

  /** A handler step settles at most its own message, and only when the file's status is not processing
      afterwards, or the file is deleted. */
  lemma OwedHandler(s: State, t: Handler)
    requires WellFormed(s) && Owed(s) && HandlerEnabled(s, t)
    ensures Owed(DoHandler(s, t))
  {
    var s' := DoHandler(s, t);
    HandlerFrame(s, t);
    forall f | InProcessing(s', f)
      ensures NewestUpload(s'.log, f) >= 0 && NoneSettled(s', NewestUpload(s'.log, f))
    {
      HandlerKeepsProcessing(s, t, f);
      var r := NewestUpload(s.log, f);
      assert NewestUpload(s'.log, f) == r && RowAt(s, r) == Row(f, Uploaded);
      forall m | 0 <= m < |s.stream| && s.stream[m] == r ensures !Settled(s', m) {
        HandlerSettles(s, t, m);
      }
    }
  }

  function RowAt(s: State, r: int): Row
    requires 0 <= r < |s.log|
  {
    s.log[r]
  }

  lemma EmitKeepsProcessing(s: State, s': State, g: nat, st: Status, e: Event, f: nat)
    requires g in s.files && st != Processing && e != Uploaded
    requires s'.files == s.files[g := s.files[g].(status := st)] && s'.log == s.log + [Row(g, e)]
    requires InProcessing(s', f)
    ensures InProcessing(s, f) && NewestUpload(s'.log, f) == NewestUpload(s.log, f)
  {
  }

  lemma HandlerKeepsProcessing(s: State, t: Handler, f: nat)
    requires WellFormed(s) && HandlerEnabled(s, t) && InProcessing(DoHandler(s, t), f)
    ensures InProcessing(s, f) && NewestUpload(DoHandler(s, t).log, f) == NewestUpload(s.log, f)
  {
    var s' := DoHandler(s, t);
    if t.Conclude? {
      EmitKeepsProcessing(s, s', FileOf(s, s.runs[t.run].msg), StatusOf(t.verdict), EventOf(t.verdict), f);
    } else if t.MarkFailed? && !s.files[FileOf(s, s.runs[t.run].msg)].deleted {
      EmitKeepsProcessing(s, s', FileOf(s, s.runs[t.run].msg), Failed, ProcessingFailed, f);
    } else {
      assert s'.files == s.files && s'.log == s.log;
    }
  }

  /** What a handler step can newly settle: the message of the run that finishes in it. */
  lemma HandlerFinishes(s: State, t: Handler)
    requires HandlerEnabled(s, t)
    ensures var s' := DoHandler(s, t);
      && (forall k :: k in s'.runs && s'.runs[k].phase.Finished? && s'.runs[k].phase.ending != Lost ==>
            k in s.runs && s'.runs[k].msg == s.runs[k].msg
            && (s'.runs[k] == s.runs[k] || (k == t.run && (t.Read? || t.Conclude? || t.MarkFailed?))))
      && (forall m :: m in s'.acked && s'.acked[m] != Lost ==>
            (m in s.acked && s'.acked[m] == s.acked[m])
            || (t.Ack? && t.run in s.runs && s.runs[t.run].msg == m && s.runs[t.run].phase == Finished(s'.acked[m])))
  {
  }

  lemma HandlerSettles(s: State, t: Handler, m: nat)
    requires WellFormed(s) && HandlerEnabled(s, t) && m < |s.stream| && !Settled(s, m)
    ensures Settled(DoHandler(s, t), m) ==>
      !InProcessing(DoHandler(s, t), FileOf(s, m))
  {
    var s' := DoHandler(s, t);
    HandlerFinishes(s, t);
    if Settled(s', m) {
      assert !(m in s'.acked && s'.acked[m] != Lost);
      var k :| k in s'.runs && s'.runs[k].msg == m && s'.runs[k].phase.Finished? && s'.runs[k].phase.ending != Lost;
      assert k == t.run && (t.Read? || t.Conclude? || t.MarkFailed?);
      FinishedNotProcessing(s, t);
    }
  }

  lemma FinishedNotProcessing(s: State, t: Handler)
    requires HandlerEnabled(s, t) && (t.Read? || t.Conclude? || t.MarkFailed?)
    requires DoHandler(s, t).runs[t.run].phase.Finished?
    ensures !InProcessing(DoHandler(s, t), FileOf(s, s.runs[t.run].msg))
  {
  }

  // ---- All invariants, over every run ----

  ghost predicate Inv(s: State) {
    WellFormed(s) && Conserved(s) && StatusesByHistory(s) && Owed(s)
  }

  lemma InvInit()
    ensures Inv(INIT)
  {
  }

  lemma InvStep(s: State, t: Step)
    requires Inv(s) && Enabled(s, t)
    ensures Inv(Do(s, t))
  {
    match t
    case Api(a) =>
      WellFormedService(s, a);
      ServiceFrame(s, a);
      ConservedFrame(s, DoService(s, a));
      LawService(s, a);
      OwedService(s, a);
    case Relay(o) =>
      WellFormedOutbox(s, o);
      ConservedOutbox(s, o);
      OutboxFrame(s, o);
      QuietKeepsLaw(s, DoOutbox(s, o));
      OwedOutbox(s, o);
    case Handle(h) =>
      WellFormedHandler(s, h);
      HandlerFrame(s, h);
      ConservedFrame(s, DoHandler(s, h));
      LawHandler(s, h);
      OwedHandler(s, h);
  }

  lemma {:induction false} InvRun(s: State, steps: seq<Step>)
    requires Inv(s) && Possible(s, steps)
    ensures Inv(After(s, steps))
    decreases |steps|
  {
    if steps != [] {
      InvStep(s, steps[0]);
      InvRun(Do(s, steps[0]), steps[1..]);
    }
  }
}
