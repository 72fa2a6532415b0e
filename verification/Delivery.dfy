/** The path from a committed upload to its recorded outcome: outbox rows, outbox workers, the stream,
    message handlers and pipeline runs, as a state machine whose steps interleave freely.
    (backend/app/core/messaging.py, workers/processing.py, processing/pipeline.py) */
module Delivery {
  import opened Events
  import opened Sequences

  datatype File = File(status: Status, deleted: bool)

  /** An outbox worker's open transaction: the rows it locked, and how many it has sent. */
  datatype Batch = Batch(rows: seq<nat>, sent: nat)

  /** How a handler's call of PipelineExecutor.run came back. */
  datatype Ending =
    | Skipped   // the file was not in status processing
    | Recorded  // an outcome was committed, by _execute or by _mark_failed
    | Vanished  // _mark_failed found no active file
    | Lost      // _mark_failed's own transaction failed and was swallowed

  datatype Phase =
    | Received             // delivered, nothing read yet
    | Loaded               // status processing was read; stages under way
    | Raised               // an exception reached run(); _mark_failed comes next
    | Finished(ending: Ending)

  datatype Run = Run(msg: nat, phase: Phase)

  datatype State = State(
    files: map<nat, File>,
    log: seq<Row>,             // committed outbox rows, in commit order
    published: set<nat>,       // rows whose published_at is set
    batches: map<nat, Batch>,  // open worker transactions
    locks: map<nat, nat>,      // row locks: the worker holding each locked row
    stream: seq<nat>,          // the row each stored message came from
    acked: map<nat, Ending>,   // acknowledged messages, with the ending of the run that acknowledged
    runs: map<nat, Run>,       // handlers in progress
    undone: multiset<nat>,     // sends whose batch was rolled back
    aborts: map<nat, nat>      // per file, the length of the log at its last multipart abort
  )

  const INIT := State(map[], [], {}, map[], map[], [], map[], map[], multiset{}, map[])

  /** Transactions of the services. */
  datatype Service =
    | InitUpload(file: nat)              // init_upload
    | StartMultipart(file: nat)          // multipart start: no event
    | Confirm(file: nat, scan: bool)     // confirm_upload, or multipart complete
    | Restore(file: nat)                 // restore_version
    | Abort(file: nat)                   // multipart abort: no event
    | Delete(file: nat)                  // delete_file

  /** Steps of an outbox worker's cycle. */
  datatype Outbox =
    | Lock(worker: nat, rows: seq<nat>)     // SELECT ... FOR UPDATE SKIP LOCKED
    | Send(worker: nat)                     // one publish call returns
    | SendFails(worker: nat, stored: bool)  // one publish call raises; the stream may have stored it
    | CommitBatch(worker: nat)
    | RollBack(worker: nat)                 // the worker, or its commit, fails

  /** Steps of a message handler and the pipeline run inside it. */
  datatype Handler =
    | Deliver(run: nat, msg: nat)           // the stream hands an unacknowledged message to a handler
    | Read(run: nat)                        // _execute reads the file
    | ReadFails(run: nat)                   // that read raises for another reason than NotFound
    | StagesFail(run: nat)                  // anything after the read raises, its commit included
    | Conclude(run: nat, verdict: Verdict)  // _execute commits outcome and event
    | MarkFailed(run: nat)                  // _mark_failed's transaction, or its NotFound
    | LoseFailure(run: nat)                 // _mark_failed's transaction fails for another reason
    | Ack(run: nat)
    | Drop(run: nat)                        // the handler dies or naks: the message stays unacknowledged

  datatype Step = Api(service: Service) | Relay(outbox: Outbox) | Handle(handler: Handler)

  predicate Active(s: State, f: nat) {
    f in s.files && !s.files[f].deleted
  }

  predicate InPhase(s: State, run: nat, phase: Phase) {
    run in s.runs && s.runs[run].phase == phase
  }

  /** The file a message concerns. */
  function FileOf(s: State, m: nat): nat
    requires m < |s.stream| && s.stream[m] < |s.log|
  {
    s.log[s.stream[m]].file
  }

  predicate ServiceEnabled(s: State, t: Service) {
    match t
    case InitUpload(f) => f !in s.files
    case StartMultipart(f) => f !in s.files
    case Confirm(f, _) => Active(s, f)
    case Restore(f) => Active(s, f)
    case Abort(f) => Active(s, f)
    case Delete(f) => Active(s, f)
  }

  predicate OutboxEnabled(s: State, t: Outbox) {
    match t
    case Lock(w, rows) => w !in s.batches && rows != [] && Distinct(rows)
        && forall i :: 0 <= i < |rows| ==> rows[i] < |s.log| && rows[i] !in s.published && rows[i] !in s.locks
    case Send(w) => w in s.batches && s.batches[w].sent < |s.batches[w].rows|
    case SendFails(w, _) => w in s.batches && s.batches[w].sent < |s.batches[w].rows|
    case CommitBatch(w) => w in s.batches && s.batches[w].sent == |s.batches[w].rows|
    case RollBack(w) => w in s.batches && s.batches[w].sent <= |s.batches[w].rows|
  }

  predicate HandlerEnabled(s: State, t: Handler) {
    match t
    case Deliver(run, m) => run !in s.runs && m < |s.stream| && m !in s.acked
        && s.stream[m] < |s.log| && s.log[s.stream[m]].event == Uploaded
    case Read(run) => InPhase(s, run, Received) && MessageKnown(s, s.runs[run].msg)
    case ReadFails(run) => InPhase(s, run, Received)
    case StagesFail(run) => InPhase(s, run, Loaded)
    case Conclude(run, _) => InPhase(s, run, Loaded) && MessageKnown(s, s.runs[run].msg)
    case MarkFailed(run) => InPhase(s, run, Raised) && MessageKnown(s, s.runs[run].msg)
    case LoseFailure(run) => InPhase(s, run, Raised)
    case Ack(run) => run in s.runs && s.runs[run].phase.Finished?
    case Drop(run) => run in s.runs
  }

  predicate Enabled(s: State, t: Step) {
    match t
    case Api(a) => ServiceEnabled(s, a)
    case Relay(o) => OutboxEnabled(s, o)
    case Handle(h) => HandlerEnabled(s, h)
  }

  /** The message's row exists, and so does its file row. */
  predicate MessageKnown(s: State, m: nat) {
    m < |s.stream| && s.stream[m] < |s.log| && s.log[s.stream[m]].file in s.files
  }

  /** A transaction that sets a file's status and adds an event row. */
  function SetAndEmit(s: State, f: nat, st: Status, e: Event): State
    requires f in s.files
  {
    s.(files := s.files[f := s.files[f].(status := st)], log := s.log + [Row(f, e)])
  }

  function SetPhase(s: State, run: nat, phase: Phase): State
    requires run in s.runs
  {
    s.(runs := s.runs[run := s.runs[run].(phase := phase)])
  }

  /** The transaction ends, and with it the row locks of its worker. */
  function Close(s: State, w: nat): State {
    s.(batches := s.batches - {w}, locks := map r | r in s.locks && s.locks[r] != w :: s.locks[r])
  }

  /** Ending a batch without commit: what was sent stays in the stream. */
  function Undo(s: State, w: nat, extra: seq<nat>): State
    requires w in s.batches && s.batches[w].sent <= |s.batches[w].rows|
  {
    var b := s.batches[w];
    Close(s, w).(stream := s.stream + extra,
       undone := s.undone + multiset(b.rows[..b.sent]) + multiset(extra))
  }

  function DoService(s: State, t: Service): State
    requires ServiceEnabled(s, t)
  {
    match t
    case InitUpload(f) => s.(files := s.files[f := File(Pending, false)], log := s.log + [Row(f, UploadInitiated)])
    case StartMultipart(f) => s.(files := s.files[f := File(Pending, false)])
    case Confirm(f, scan) =>
      if scan then SetAndEmit(s, f, Processing, Uploaded) else SetAndEmit(s, f, Ready, FileReady(false))
    case Restore(f) => SetAndEmit(s, f, Ready, Restored)
    case Abort(f) => s.(files := s.files[f := s.files[f].(status := Failed)], aborts := s.aborts[f := |s.log|])
    case Delete(f) => s.(files := s.files[f := s.files[f].(deleted := true)], log := s.log + [Row(f, Deleted)])
  }

  function DoOutbox(s: State, t: Outbox): State
    requires OutboxEnabled(s, t)
  {
    match t
    case Lock(w, rows) =>
      s.(batches := s.batches[w := Batch(rows, 0)],
         locks := map r | r in s.locks.Keys + (set x | x in rows) :: if r in rows then w else s.locks[r])
    case Send(w) =>
      var b := s.batches[w];
      s.(stream := s.stream + [b.rows[b.sent]], batches := s.batches[w := b.(sent := b.sent + 1)])
    case SendFails(w, stored) =>
      var b := s.batches[w];
      Undo(s, w, if stored then [b.rows[b.sent]] else [])
    case CommitBatch(w) =>
      Close(s, w).(published := s.published + (set r | r in s.batches[w].rows))
    case RollBack(w) => Undo(s, w, [])
  }

  function DoHandler(s: State, t: Handler): State
    requires HandlerEnabled(s, t)
  {
    match t
    case Deliver(run, m) => s.(runs := s.runs[run := Run(m, Received)])
    case Read(run) =>
      var file := s.files[FileOf(s, s.runs[run].msg)];
      SetPhase(s, run, if file.deleted then Raised
                       else if file.status != Processing then Finished(Skipped) else Loaded)
    case ReadFails(run) => SetPhase(s, run, Raised)
    case StagesFail(run) => SetPhase(s, run, Raised)
    case Conclude(run, v) =>
      SetPhase(SetAndEmit(s, FileOf(s, s.runs[run].msg), StatusOf(v), EventOf(v)), run, Finished(Recorded))
    case MarkFailed(run) =>
      var f := FileOf(s, s.runs[run].msg);
      if s.files[f].deleted then SetPhase(s, run, Finished(Vanished))
      else SetPhase(SetAndEmit(s, f, Failed, ProcessingFailed), run, Finished(Recorded))
    case LoseFailure(run) => SetPhase(s, run, Finished(Lost))
    case Ack(run) =>
      var r := s.runs[run];
      s.(acked := if r.msg in s.acked then s.acked else s.acked[r.msg := r.phase.ending], runs := s.runs - {run})
    case Drop(run) => s.(runs := s.runs - {run})
  }

  function Do(s: State, t: Step): State
    requires Enabled(s, t)
  {
    match t
    case Api(a) => DoService(s, a)
    case Relay(o) => DoOutbox(s, o)
    case Handle(h) => DoHandler(s, h)
  }

  /** A finite run of the system. */
  predicate Possible(s: State, steps: seq<Step>)
    decreases |steps|
  {
    steps == [] || (Enabled(s, steps[0]) && Possible(Do(s, steps[0]), steps[1..]))
  }

  function After(s: State, steps: seq<Step>): State
    requires Possible(s, steps)
    decreases |steps|
  {
    if steps == [] then s else After(Do(s, steps[0]), steps[1..])
  }

  // ---- Frames: what each kind of step leaves alone ----

  /** Outbox transactions, stream and handlers are as before. */
  predicate SameTransport(s: State, s': State) {
    s'.published == s.published && s'.batches == s.batches && s'.locks == s.locks
    && s'.stream == s.stream && s'.undone == s.undone
  }

  /** The log has grown by at most one row, of a known file; no file has disappeared. */
  predicate LogGrows(s: State, s': State) {
    && s.files.Keys <= s'.files.Keys
    && (s'.log == s.log
        || (|s'.log| == |s.log| + 1 && s'.log == s.log + [s'.log[|s.log|]] && s'.log[|s.log|].file in s'.files))
  }

  lemma ServiceFrame(s: State, t: Service)
    requires ServiceEnabled(s, t)
    ensures var s' := DoService(s, t);
      SameTransport(s, s') && LogGrows(s, s') && s'.acked == s.acked && s'.runs == s.runs
  {
    ServiceLog(s, t);
  }

  lemma ServiceLog(s: State, t: Service)
    requires ServiceEnabled(s, t)
    ensures LogGrows(s, DoService(s, t))
  {
    match t
    case InitUpload(f) => assert DoService(s, t).log == s.log + [Row(f, UploadInitiated)];
    case StartMultipart(_) =>
    case Confirm(f, scan) =>
      assert DoService(s, t).log == s.log + [Row(f, if scan then Uploaded else FileReady(false))];
    case Restore(f) => assert DoService(s, t).log == s.log + [Row(f, Restored)];
    case Abort(_) =>
    case Delete(f) => assert DoService(s, t).log == s.log + [Row(f, Deleted)];
  }

  /** A service transaction concerns one file. */
  lemma ServiceTouches(s: State, t: Service)
    requires ServiceEnabled(s, t)
    ensures var s' := DoService(s, t);
      && (forall g :: g in s.files && g != t.file ==> g in s'.files && s'.files[g] == s.files[g])
      && (|s'.log| > |s.log| ==> s'.log[|s.log|].file == t.file)
  {
  }

  lemma HandlerFrame(s: State, t: Handler)
    requires HandlerEnabled(s, t)
    ensures var s' := DoHandler(s, t); SameTransport(s, s') && LogGrows(s, s') && s'.aborts == s.aborts
  {
  }
}
