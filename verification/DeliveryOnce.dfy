/** Idempotent consumption: when handlers of a file do not overlap, redelivery is harmless for it. */
module DeliveryOnce {
  import opened Events
  import opened Delivery
  import opened DeliverySafety
  import opened DeliveryTheorems
  import opened DeliveryWork

  /** Some handler of the file is at work. */
  predicate Busy(s: State, f: nat) {
    exists k :: k in s.runs && Working(s, k, f)
  }

  /** The step starts no second handler for the file while one is at work. */
  predicate Apart(s: State, t: Step, f: nat)
    requires Enabled(s, t)
  {
    t.Handle? && t.handler.Deliver? && FileOf(s, t.handler.msg) == f ==> !Busy(s, f)
  }

  /** The step is not a failed status read of the file. */
  predicate ReadsHold(s: State, t: Step, f: nat)
    requires Enabled(s, t)
  {
    t.Handle? && t.handler.ReadFails? ==> !Working(s, t.handler.run, f)
  }

  /** Handlers of the file never overlap in the run. */
  predicate ApartRun(s: State, steps: seq<Step>, f: nat)
    requires Possible(s, steps)
    decreases |steps|
  {
    steps == [] || (Apart(s, steps[0], f) && ApartRun(Do(s, steps[0]), steps[1..], f))
  }

  /** No status read of the file raises in the run. */
  predicate ReadsRun(s: State, steps: seq<Step>, f: nat)
    requires Possible(s, steps)
    decreases |steps|
  {
    steps == [] || (ReadsHold(s, steps[0], f) && ReadsRun(Do(s, steps[0]), steps[1..], f))
  }

  predicate SerialRun(s: State, steps: seq<Step>, f: nat)
    requires Possible(s, steps)
  {
    ApartRun(s, steps, f) && ReadsRun(s, steps, f)
  }

  /** At most one handler at work on the file. */
  ghost predicate OneAtWork(s: State, f: nat) {
    forall j, k :: j in s.runs && k in s.runs && Working(s, j, f) && Working(s, k, f) ==> j == k
  }

  /** The handler owes the file an outcome, unless what it met was a deleted file. */
  ghost predicate Owes(s: State, k: nat, f: nat)
    requires k in s.runs && f in s.files
  {
    (s.runs[k].phase.Raised? && s.files[f].deleted) || AwaitsOutcome(s.log, f)
  }

  /** Whoever is past the read of the status owes an outcome. */
  ghost predicate WorkIsOwed(s: State, f: nat) {
    forall k :: k in s.runs && f in s.files && Working(s, k, f) && !s.runs[k].phase.Received? ==> Owes(s, k, f)
  }

  ghost predicate OnceInv(s: State, f: nat) {
    Inv(s) && OneAtWork(s, f) && WorkIsOwed(s, f) && OutcomesAnswerUploads(s.log, f)
  }

  /** A replay that ends in processing has an unanswered upload. */
  lemma {:induction false} ProcessingAwaits(log: seq<Row>, f: nat)
    requires Replay(log, f) == Processing
    ensures AwaitsOutcome(log, f)
  {
    if log != [] {
      var last := log[|log| - 1];
      if last.file == f && Announces(last.event) {
        assert last.event == Uploaded;
      } else {
        ProcessingAwaits(log[..|log| - 1], f);
      }
    }
  }

  lemma OnceService(s: State, t: Service, f: nat)
    requires OnceInv(s, f) && ServiceEnabled(s, t)
    ensures var s' := DoService(s, t); OneAtWork(s', f) && WorkIsOwed(s', f) && OutcomesAnswerUploads(s'.log, f)
  {
    var s' := DoService(s, t);
    ServiceFrame(s, t);
    GrowthKeepsForm(s, s');
    WorkingSame(s, s');
    ServiceRow(s, t);
    if s'.log != s.log {
      AppendKeepsAnswers(s.log, s'.log[|s.log|], f);
    }
    forall k | k in s'.runs && f in s'.files && Working(s', k, f) && !s'.runs[k].phase.Received?
      ensures Owes(s', k, f)
    {
      assert Working(s, k, f) && f in s.files && Owes(s, k, f);
      if s.files[f].deleted {
        StaysDeleted(s, t, f);
      }
      if s'.log != s.log {
        AppendRow(s.log, s'.log[|s.log|], f);
      }
    }
  }

  lemma ServiceRow(s: State, t: Service)
    requires ServiceEnabled(s, t)
    ensures var s' := DoService(s, t); |s'.log| > |s.log| ==> !IsOutcome(s'.log[|s.log|].event)
  {
  }

  lemma StaysDeleted(s: State, t: Service, f: nat)
    requires ServiceEnabled(s, t) && f in s.files && s.files[f].deleted
    ensures f in DoService(s, t).files && DoService(s, t).files[f].deleted
  {
  }

  lemma OnceOutbox(s: State, t: Outbox, f: nat)
    requires OnceInv(s, f) && OutboxEnabled(s, t)
    ensures var s' := DoOutbox(s, t); OneAtWork(s', f) && WorkIsOwed(s', f) && OutcomesAnswerUploads(s'.log, f)
  {
    OutboxFrame(s, t);
    WorkingSame(s, DoOutbox(s, t));
  }

  lemma OneAtWorkHandler(s: State, t: Handler, f: nat)
    requires OnceInv(s, f) && HandlerEnabled(s, t) && Apart(s, Handle(t), f)
    ensures OneAtWork(DoHandler(s, t), f)
  {
    var s' := DoHandler(s, t);
    forall j, k | j in s'.runs && k in s'.runs && Working(s', j, f) && Working(s', k, f) ensures j == k {
      HandlerWork(s, t, j, f);
      HandlerWork(s, t, k, f);
    }
  }

  lemma AnswersHandler(s: State, t: Handler, f: nat)
    requires OnceInv(s, f) && HandlerEnabled(s, t)
    ensures OutcomesAnswerUploads(DoHandler(s, t).log, f)
  {
    if t.Conclude? || t.MarkFailed? {
      var g := FileOf(s, s.runs[t.run].msg);
      assert Working(s, t.run, g);
      if t.Conclude? {
        AppendKeepsAnswers(s.log, Row(g, EventOf(t.verdict)), f);
      } else if !s.files[g].deleted {
        AppendKeepsAnswers(s.log, Row(g, ProcessingFailed), f);
      }
    }
  }

  lemma WorkIsOwedHandler(s: State, t: Handler, f: nat)
    requires OnceInv(s, f) && HandlerEnabled(s, t) && ReadsHold(s, Handle(t), f)
    ensures WorkIsOwed(DoHandler(s, t), f)
  {
    var s' := DoHandler(s, t);
    HandlerFrame(s, t);
    forall k | k in s'.runs && f in s'.files && Working(s', k, f) && !s'.runs[k].phase.Received?
      ensures Owes(s', k, f)
    {
      HandlerWork(s, t, k, f);
      if k == t.run {
        StillOwed(s, t, f);
      } else {
        OthersOwed(s, t, k, f);
      }
    }
  }

  /** The stepping handler itself: it has read processing, or failed after reading it. */
  lemma StillOwed(s: State, t: Handler, f: nat)
    requires OnceInv(s, f) && HandlerEnabled(s, t) && ReadsHold(s, Handle(t), f)
    requires t.run in s.runs && Working(s, t.run, f) && f in s.files
    requires var s' := DoHandler(s, t); t.run in s'.runs && Working(s', t.run, f) && !s'.runs[t.run].phase.Received?
    ensures f in DoHandler(s, t).files && Owes(DoHandler(s, t), t.run, f)
  {
    if t.Read? && s.files[f].status == Processing {
      assert s.files[f].status == StatusByHistory(s, f);
      ProcessingAwaits(s.log, f);
    }
  }

  /** If another handler is at work on the file, the step is not about it. */
  lemma OthersOwed(s: State, t: Handler, k: nat, f: nat)
    requires OnceInv(s, f) && HandlerEnabled(s, t) && k in DoHandler(s, t).runs
    requires k in s.runs && k != t.run && Working(s, k, f) && f in s.files && !s.runs[k].phase.Received?
    requires DoHandler(s, t).runs[k] == s.runs[k]
    ensures f in DoHandler(s, t).files && Owes(DoHandler(s, t), k, f)
  {
    if t.Conclude? || t.MarkFailed? {
      assert Working(s, t.run, FileOf(s, s.runs[t.run].msg));
    }
    HandlerLeaves(s, t, f);
    HandlerFrame(s, t);
    assert Owes(s, k, f);
    if DoHandler(s, t).log != s.log {
      AppendRow(s.log, DoHandler(s, t).log[|s.log|], f);
    }
  }

  lemma OnceStep(s: State, t: Step, f: nat)
    requires OnceInv(s, f) && Enabled(s, t) && Apart(s, t, f) && ReadsHold(s, t, f)
    ensures OnceInv(Do(s, t), f)
  {
    InvStep(s, t);
    match t
    case Api(a) => OnceService(s, a, f);
    case Relay(o) => OnceOutbox(s, o, f);
    case Handle(h) =>
      OneAtWorkHandler(s, h, f);
      WorkIsOwedHandler(s, h, f);
      AnswersHandler(s, h, f);
  }

  lemma {:induction false} OnceRun(s: State, steps: seq<Step>, f: nat)
    requires OnceInv(s, f) && Possible(s, steps) && SerialRun(s, steps, f)
    ensures OnceInv(After(s, steps), f)
    decreases |steps|
  {
    if steps != [] {
      OnceStep(s, steps[0], f);
      OnceRun(Do(s, steps[0]), steps[1..], f);
    }
  }

  /** However often messages are redelivered, and with crashes anywhere: if handlers of the file do not
      overlap and none of their status reads raises, every outcome of the file answers an upload of it that
      no earlier outcome answered, so there are never more outcomes than uploads. */
  lemma AtMostOneOutcomePerUpload(steps: seq<Step>, f: nat)
    requires Possible(INIT, steps) && SerialRun(INIT, steps, f)
    ensures var log := After(INIT, steps).log;
      OutcomesAnswerUploads(log, f) && CountOutcomes(log, f) <= CountUploads(log, f)
  {
    InvInit();
    OnceRun(INIT, steps, f);
    OutcomesBounded(After(INIT, steps).log, f);
  }

  /** The row records an outcome of the file. */
  predicate OutcomeAt(log: seq<Row>, f: nat, i: int) {
    0 <= i < |log| && log[i].file == f && IsOutcome(log[i].event)
  }

  lemma {:induction false} AnsweredAfter(log: seq<Row>, f: nat, i: nat)
    requires OutcomeAt(log, f, i) && NewestUpload(log, f) < i
    ensures !AwaitsOutcome(log, f)
  {
    var front := log[..|log| - 1];
    assert log == front + [log[|log| - 1]];
    AppendRow(front, log[|log| - 1], f);
    if i < |log| - 1 {
      AnsweredAfter(front, f, i);
    }
  }

  /** Nobody confirmed, restored, aborted or deleted the file since its newest upload. */
  ghost predicate OnlyOutcomesSince(s: State, f: nat) {
    && Active(s, f) && (f in s.aborts ==> s.aborts[f] <= NewestUpload(s.log, f))
    && forall i :: NewestUpload(s.log, f) < i < |s.log| && s.log[i].file == f ==> IsOutcome(s.log[i].event)
  }

  /** Then, once some message of that upload has been settled, exactly one outcome event follows it. */
  lemma ExactlyOneOutcome(steps: seq<Step>, f: nat, m: nat)
    requires Possible(INIT, steps) && SerialRun(INIT, steps, f)
    requires var s := After(INIT, steps);
      OnlyOutcomesSince(s, f) && m < |s.stream| && s.stream[m] == NewestUpload(s.log, f) && Settled(s, m)
    ensures var log := After(INIT, steps).log; var r := NewestUpload(log, f);
      exists i :: r < i && OutcomeAt(log, f, i) && forall j :: r < j && OutcomeAt(log, f, j) ==> j == i
  {
    InvInit();
    OnceRun(INIT, steps, f);
    var s := After(INIT, steps);
    var r := NewestUpload(s.log, f);
    var i := SomeOutcomeSince(s, f, m);
    forall j | r < j && OutcomeAt(s.log, f, j) ensures j == i {
      OnlyOneAfter(s.log, f, i, j);
      OnlyOneAfter(s.log, f, j, i);
    }
  }

  lemma SomeOutcomeSince(s: State, f: nat, m: nat) returns (i: nat)
    requires Inv(s) && OnlyOutcomesSince(s, f)
    requires m < |s.stream| && s.stream[m] == NewestUpload(s.log, f) && Settled(s, m)
    ensures NewestUpload(s.log, f) < i && OutcomeAt(s.log, f, i)
  {
    var r := NewestUpload(s.log, f);
    assert s.log[r] == Row(f, Uploaded);
    assert f in s.aborts ==> AnnouncedSince(s.log, f, s.aborts[f]);
    assert !InProcessing(s, f) && s.files[f].status == Replay(s.log, f);
    if forall k :: r < k < |s.log| ==> s.log[k].file != f {
      ReplayAtUpload(s.log, f);
    }
    i :| r < i < |s.log| && s.log[i].file == f;
  }

  lemma {:induction false} ReplayAtUpload(log: seq<Row>, f: nat)
    requires NewestUpload(log, f) >= 0
    requires forall i :: NewestUpload(log, f) < i < |log| ==> log[i].file != f
    ensures Replay(log, f) == Processing
  {
    if log[|log| - 1] != Row(f, Uploaded) {
      ReplayAtUpload(log[..|log| - 1], f);
    }
  }

  lemma {:induction false} NewestOfPrefix(log: seq<Row>, f: nat, n: nat)
    requires NewestUpload(log, f) < n <= |log|
    ensures NewestUpload(log[..n], f) == NewestUpload(log, f)
  {
    if n == |log| {
      assert log[..n] == log;
    } else {
      assert log[..|log| - 1][..n] == log[..n];
      NewestOfPrefix(log[..|log| - 1], f, n);
    }
  }

  lemma OnlyOneAfter(log: seq<Row>, f: nat, i: nat, j: nat)
    requires OutcomesAnswerUploads(log, f)
    requires NewestUpload(log, f) < i && NewestUpload(log, f) < j && OutcomeAt(log, f, i) && OutcomeAt(log, f, j)
    ensures !(i < j)
  {
    if i < j {
      NewestOfPrefix(log, f, j);
      AnsweredAfter(log[..j], f, i);
    }
  }

  /** No API call on the file, and none of its handlers' status reads raises. */
  predicate Undisturbed(s: State, steps: seq<Step>, f: nat)
    requires Possible(s, steps)
    decreases |steps|
  {
    steps == []
    || ((steps[0].Api? ==> steps[0].service.file != f) && ReadsHold(s, steps[0], f)
        && Undisturbed(Do(s, steps[0]), steps[1..], f))
  }

  /** The file is not in processing and no handler of it is past its read of the status. */
  ghost predicate Idle(s: State, f: nat) {
    Active(s, f) && s.files[f].status != Processing
    && forall k :: k in s.runs && Working(s, k, f) ==> s.runs[k].phase.Received?
  }

  /** An idle file is changed by no worker or handler step and by no API call on other files: late
      redeliveries are skipped, overlapping or not. */
  lemma {:induction false} LaterRunsChangeNothing(s: State, steps: seq<Step>, f: nat)
    requires Inv(s) && Idle(s, f) && Possible(s, steps) && Undisturbed(s, steps, f)
    ensures Idle(After(s, steps), f) && Untouched(s, After(s, steps), f)
    decreases |steps|
  {
    if steps != [] {
      var s1 := Do(s, steps[0]);
      IdleStep(s, steps[0], f);
      InvStep(s, steps[0]);
      LaterRunsChangeNothing(s1, steps[1..], f);
      UntouchedTwice(s, s1, After(s, steps), f);
    }
  }

  lemma IdleStep(s: State, t: Step, f: nat)
    requires Inv(s) && Idle(s, f) && Enabled(s, t) && (t.Api? ==> t.service.file != f) && ReadsHold(s, t, f)
    ensures Idle(Do(s, t), f) && Untouched(s, Do(s, t), f)
  {
    match t
    case Api(a) =>
      ServiceFrame(s, a);
      ServiceLeaves(s, a, f);
    case Relay(o) =>
      OutboxFrame(s, o);
      OutboxLeaves(s, o, f);
    case Handle(h) => IdleHandler(s, h, f);
  }

  lemma IdleHandler(s: State, t: Handler, f: nat)
    requires Inv(s) && Idle(s, f) && HandlerEnabled(s, t) && ReadsHold(s, Handle(t), f)
    ensures Idle(DoHandler(s, t), f) && Untouched(s, DoHandler(s, t), f)
  {
    var s' := DoHandler(s, t);
    if t.Conclude? || t.MarkFailed? {
      assert Working(s, t.run, FileOf(s, s.runs[t.run].msg));
    }
    HandlerLeaves(s, t, f);
    forall k | k in s'.runs && Working(s', k, f) ensures s'.runs[k].phase.Received? {
      HandlerWork(s, t, k, f);
    }
  }
}
