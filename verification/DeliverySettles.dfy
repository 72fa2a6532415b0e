/** Without further failures every schedule of workers and handlers comes to rest, and settles every file. */
module DeliverySettles {
  import opened Events
  import opened Delivery
  import opened DeliverySafety
  import opened DeliveryTheorems
  import opened DeliveryWork
  import opened DeliveryProgress

  ghost predicate Held(s: State, m: nat) {
    exists k :: k in s.runs && s.runs[k].msg == m
  }

  /** A step of a worker or handler in which nothing dies and no transaction is lost; a message is delivered again
      only when no handler has it. Stages and status reads may raise. */
  ghost predicate Smooth(s: State, t: Step) {
    && Enabled(s, t)
    && match t
       case Api(_) => false
       case Relay(o) => o.Lock? || o.Send? || o.CommitBatch?
       case Handle(h) => !h.Drop? && !h.LoseFailure? && (h.Deliver? ==> !Held(s, h.msg))
  }

  ghost predicate SmoothRun(s: State, steps: seq<Step>)
    decreases |steps|
  {
    steps == [] || (Smooth(s, steps[0]) && SmoothRun(Do(s, steps[0]), steps[1..]))
  }

  // ---- The work left ----

  /** Steps it takes at most to get one run to its end, the event it may add included. */
  function RunWork(phase: Phase): nat {
    match phase
    case Received => 7
    case Loaded => 6
    case Raised => 5
    case Finished(_) => 1
  }

  ghost predicate Outstanding(s: State, m: nat) {
    && m !in s.acked && m < |s.stream| && s.stream[m] < |s.log| && s.log[s.stream[m]].event == Uploaded
    && !Held(s, m)
  }

  /** To deliver a message nobody has, and run it to its end. */
  ghost function MessageWork(s: State, m: nat): nat {
    if Outstanding(s, m) then 8 else 0
  }

  function SendWork(row: Row): nat {
    if row.event == Uploaded then 9 else 1
  }

  /** To lock, send and commit a row, and to handle the message it becomes. */
  ghost function RowWork(s: State, r: nat): nat
    requires r < |s.log|
  {
    if r in s.published || SentInOpenBatch(s, r) then 0
    else if r in s.locks then SendWork(s.log[r])
    else SendWork(s.log[r]) + 2
  }

  ghost function RowWorks(s: State): seq<nat> {
    seq(|s.log|, r requires 0 <= r < |s.log| => RowWork(s, r))
  }

  ghost function MessageWorks(s: State): seq<nat> {
    seq(|s.stream|, m requires 0 <= m < |s.stream| => MessageWork(s, m))
  }

  function Sum(works: seq<nat>): nat {
    if works == [] then 0 else Sum(works[..|works| - 1]) + works[|works| - 1]
  }

  lemma {:induction false} SumFalls(a: seq<nat>, b: seq<nat>, i: nat, d: nat)
    requires |a| == |b| && forall j :: 0 <= j < |a| ==> b[j] <= a[j]
    requires i < |a| ==> b[i] + d <= a[i]
    ensures Sum(b) <= Sum(a)
    ensures i < |a| ==> Sum(b) + d <= Sum(a)
  {
    if a != [] {
      SumFalls(a[..|a| - 1], b[..|b| - 1], i, d);
    }
  }

  lemma SumPush(works: seq<nat>, x: nat)
    ensures Sum(works + [x]) == Sum(works) + x
  {
    assert (works + [x])[..|works|] == works;
  }

  function InPhases(runs: map<nat, Run>, work: nat): set<nat> {
    set k | k in runs && RunWork(runs[k].phase) == work
  }

  function RunsWork(runs: map<nat, Run>): nat {
    7 * |InPhases(runs, 7)| + 6 * |InPhases(runs, 6)| + 5 * |InPhases(runs, 5)| + |InPhases(runs, 1)|
  }

  lemma WithoutRun(runs: map<nat, Run>, k: nat)
    requires k in runs
    ensures RunsWork(runs) == RunsWork(runs - {k}) + RunWork(runs[k].phase)
  {
    PhasesWithout(runs, k, 7);
    PhasesWithout(runs, k, 6);
    PhasesWithout(runs, k, 5);
    PhasesWithout(runs, k, 1);
  }

  lemma PhasesWithout(runs: map<nat, Run>, k: nat, work: nat)
    requires k in runs
    ensures |InPhases(runs, work)| == |InPhases(runs - {k}, work)| + if RunWork(runs[k].phase) == work then 1 else 0
  {
    var rest := InPhases(runs - {k}, work);
    assert InPhases(runs, work) == if RunWork(runs[k].phase) == work then rest + {k} else rest;
  }

  lemma RunChanges(runs: map<nat, Run>, k: nat, run: Run)
    requires k in runs
    ensures RunsWork(runs[k := run]) + RunWork(runs[k].phase) == RunsWork(runs) + RunWork(run.phase)
  {
    WithoutRun(runs, k);
    WithoutRun(runs[k := run], k);
    assert runs[k := run] - {k} == runs - {k};
  }

  lemma RunStarts(runs: map<nat, Run>, k: nat, run: Run)
    requires k !in runs
    ensures RunsWork(runs[k := run]) == RunsWork(runs) + RunWork(run.phase)
  {
    WithoutRun(runs[k := run], k);
    assert runs[k := run] - {k} == runs;
  }

  ghost function Work(s: State): nat {
    Sum(RowWorks(s)) + Sum(MessageWorks(s)) + RunsWork(s.runs) + |s.batches|
  }

  // ---- Every smooth step does some of it ----

  lemma LockWorks(s: State, w: nat, rows: seq<nat>)
    requires WellFormed(s) && OutboxEnabled(s, Lock(w, rows))
    ensures Work(DoOutbox(s, Lock(w, rows))) < Work(s)
  {
    var s' := DoOutbox(s, Lock(w, rows));
    forall r | 0 <= r < |s.log| ensures RowWork(s', r) + (if r in rows then 2 else 0) <= RowWork(s, r) {
      LockRow(s, w, rows, r);
    }
    assert rows[0] in rows;
    SumFalls(RowWorks(s), RowWorks(s'), rows[0], 2);
    SameMessages(s, s');
    assert s'.batches.Keys == s.batches.Keys + {w};
  }

  lemma LockRow(s: State, w: nat, rows: seq<nat>, r: nat)
    requires WellFormed(s) && OutboxEnabled(s, Lock(w, rows)) && r < |s.log|
    ensures RowWork(DoOutbox(s, Lock(w, rows)), r) + (if r in rows then 2 else 0) <= RowWork(s, r)
  {
    if r in rows {
      assert !SentInOpenBatch(s, r);
    } else {
      SentElsewhere(s, w, rows, r);
    }
  }

  lemma SentElsewhere(s: State, w: nat, rows: seq<nat>, r: nat)
    requires WellFormed(s) && OutboxEnabled(s, Lock(w, rows)) && r !in rows
    ensures var s' := DoOutbox(s, Lock(w, rows));
      (r in s'.locks <==> r in s.locks) && (SentInOpenBatch(s', r) <==> SentInOpenBatch(s, r))
  {
  }

  lemma SendWorks(s: State, w: nat)
    requires WellFormed(s) && OutboxEnabled(s, Send(w))
    ensures Work(DoOutbox(s, Send(w))) < Work(s)
  {
    var s' := DoOutbox(s, Send(w));
    var b := s.batches[w];
    var row := b.rows[b.sent];
    forall r | 0 <= r < |s.log| ensures RowWork(s', r) <= RowWork(s, r) {
      if SentInOpenBatch(s, r) {
        SentStays(s, w, r);
      }
    }
    SentNow(s, w);
    SumFalls(RowWorks(s), RowWorks(s'), row, SendWork(s.log[row]));
    MessageAdded(s, s');
    assert s'.batches.Keys == s.batches.Keys;
  }

  lemma MessageAdded(s: State, s': State)
    requires s'.log == s.log && s'.acked == s.acked && s'.runs == s.runs && StreamKnown(s)
    requires |s'.stream| == |s.stream| + 1 && s'.stream == s.stream + [s'.stream[|s.stream|]]
    requires s'.stream[|s.stream|] < |s.log|
    ensures Sum(MessageWorks(s')) < Sum(MessageWorks(s)) + SendWork(s.log[s'.stream[|s.stream|]])
  {
    forall m | 0 <= m < |s.stream| ensures MessageWork(s', m) == MessageWork(s, m) {
      assert s'.stream[m] == s.stream[m];
    }
    assert MessageWorks(s') == MessageWorks(s) + [MessageWork(s', |s.stream|)];
    SumPush(MessageWorks(s), MessageWork(s', |s.stream|));
  }

  lemma SentStays(s: State, w: nat, r: nat)
    requires WellFormed(s) && OutboxEnabled(s, Send(w)) && SentInOpenBatch(s, r)
    ensures SentInOpenBatch(DoOutbox(s, Send(w)), r)
  {
  }

  lemma SentNow(s: State, w: nat)
    requires WellFormed(s) && OutboxEnabled(s, Send(w))
    ensures var b := s.batches[w]; var row := b.rows[b.sent];
      row < |s.log| && row in s.locks && row !in s.published
      && !SentInOpenBatch(s, row) && SentInOpenBatch(DoOutbox(s, Send(w)), row)
  {
  }

  lemma CommitWorks(s: State, w: nat)
    requires WellFormed(s) && OutboxEnabled(s, CommitBatch(w))
    ensures Work(DoOutbox(s, CommitBatch(w))) < Work(s)
  {
    var s' := DoOutbox(s, CommitBatch(w));
    forall r | 0 <= r < |s.log| ensures RowWork(s', r) <= RowWork(s, r) {
      CommitRow(s, w, r);
    }
    SumFalls(RowWorks(s), RowWorks(s'), |s.log|, 0);
    SameMessages(s, s');
    assert s.batches.Keys == s'.batches.Keys + {w};
  }

  lemma CommitRow(s: State, w: nat, r: nat)
    requires WellFormed(s) && OutboxEnabled(s, CommitBatch(w)) && r < |s.log|
    ensures RowWork(DoOutbox(s, CommitBatch(w)), r) <= RowWork(s, r)
  {
    var s' := DoOutbox(s, CommitBatch(w));
    if r in s.batches[w].rows {
      assert r in s'.published;
    } else {
      assert r in s'.locks <==> r in s.locks;
      if SentInOpenBatch(s, r) {
        assert s'.batches[s'.locks[r]] == s.batches[s.locks[r]];
      }
    }
  }

  /** Messages, their handlers and acknowledgements are as before. */
  lemma SameMessages(s: State, s': State)
    requires s'.log == s.log && s'.stream == s.stream && s'.acked == s.acked && s'.runs == s.runs
    ensures MessageWorks(s') == MessageWorks(s)
  {
    forall m | 0 <= m < |s.stream| ensures MessageWork(s', m) == MessageWork(s, m) {
    }
  }

  /** A handler step leaves the rows there were alone; the event it may add costs three more. */
  lemma HandlerRows(s: State, t: Handler)
    requires WellFormed(s) && HandlerEnabled(s, t)
    ensures var s' := DoHandler(s, t);
      Sum(RowWorks(s')) == Sum(RowWorks(s)) + if s'.log == s.log then 0 else 3
  {
    var s' := DoHandler(s, t);
    HandlerFrame(s, t);
    forall r | 0 <= r < |s.log| ensures RowWork(s', r) == RowWork(s, r) {
      assert s'.log[r] == s.log[r];
    }
    if s'.log == s.log {
      assert RowWorks(s') == RowWorks(s);
    } else {
      HandlerLog(s, t);
      NewRow(s, s');
      assert RowWorks(s') == RowWorks(s) + [3];
      SumPush(RowWorks(s), 3);
    }
  }

  lemma HandlerLog(s: State, t: Handler)
    requires HandlerEnabled(s, t)
    ensures var s' := DoHandler(s, t);
      s'.log == s.log || ((t.Conclude? || t.MarkFailed?) && |s'.log| > |s.log| && s'.log[|s.log|].event != Uploaded)
  {
  }

  lemma NewRow(s: State, s': State)
    requires WellFormed(s) && SameTransport(s, s') && |s'.log| > |s.log| && s'.log[|s.log|].event != Uploaded
    ensures RowWork(s', |s.log|) == 3
  {
  }

  /** Nobody's message comes free in a smooth step. */
  lemma HandlerMessagesFall(s: State, t: Handler)
    requires WellFormed(s) && Smooth(s, Handle(t))
    ensures Sum(MessageWorks(DoHandler(s, t))) + (if t.Deliver? then 8 else 0) <= Sum(MessageWorks(s))
  {
    var s' := DoHandler(s, t);
    HandlerFrame(s, t);
    forall m | 0 <= m < |s.stream| ensures MessageWork(s', m) <= MessageWork(s, m) {
      HandlerMessageFalls(s, t, m);
    }
    if t.Deliver? {
      DeliveredHeld(s, t);
      SumFalls(MessageWorks(s), MessageWorks(s'), t.msg, 8);
    } else {
      SumFalls(MessageWorks(s), MessageWorks(s'), |s.stream|, 0);
    }
  }

  lemma DeliveredHeld(s: State, t: Handler)
    requires WellFormed(s) && Smooth(s, Handle(t)) && t.Deliver?
    ensures MessageWork(s, t.msg) == 8 && MessageWork(DoHandler(s, t), t.msg) == 0
  {
    assert DoHandler(s, t).runs[t.run].msg == t.msg;
  }

  lemma HandlerMessageFalls(s: State, t: Handler, m: nat)
    requires WellFormed(s) && Smooth(s, Handle(t)) && m < |s.stream|
    ensures MessageWork(DoHandler(s, t), m) <= MessageWork(s, m)
  {
    var s' := DoHandler(s, t);
    HandlerFrame(s, t);
    HandlerKeepsMessages(s, t);
    if Outstanding(s', m) && Held(s, m) {
      var k :| k in s.runs && s.runs[k].msg == m;
      HandlerHolds(s, t, k);
    }
  }

  /** A handler keeps its message until it acknowledges it. */
  lemma HandlerHolds(s: State, t: Handler, k: nat)
    requires HandlerEnabled(s, t) && k in s.runs && !t.Drop?
    ensures var s' := DoHandler(s, t);
      (k in s'.runs && s'.runs[k].msg == s.runs[k].msg) || s.runs[k].msg in s'.acked
    ensures s.acked.Keys <= DoHandler(s, t).acked.Keys
  {
  }

  lemma HandlerRunsWork(s: State, t: Handler)
    requires WellFormed(s) && Smooth(s, Handle(t))
    ensures var s' := DoHandler(s, t);
      RunsWork(s'.runs) + (if s'.log == s.log then 0 else 3)
      < RunsWork(s.runs) + (if t.Deliver? then 8 else 0)
  {
    var s' := DoHandler(s, t);
    if t.Deliver? {
      RunStarts(s.runs, t.run, Run(t.msg, Received));
    } else if t.Ack? {
      WithoutRun(s.runs, t.run);
    } else {
      HandlerLog(s, t);
      OneRunChanges(s, t);
      PhaseFalls(s, t);
      RunChanges(s.runs, t.run, s'.runs[t.run]);
    }
  }

  lemma OneRunChanges(s: State, t: Handler)
    requires HandlerEnabled(s, t) && !t.Deliver? && !t.Ack? && !t.Drop?
    ensures var s' := DoHandler(s, t);
      t.run in s.runs && t.run in s'.runs && s'.runs == s.runs[t.run := s'.runs[t.run]]
  {
  }

  lemma PhaseFalls(s: State, t: Handler)
    requires HandlerEnabled(s, t) && !t.Deliver? && !t.Ack? && !t.Drop?
    ensures var s' := DoHandler(s, t);
      && t.run in s.runs && t.run in s'.runs
      && RunWork(s'.runs[t.run].phase) + (if t.Conclude? || t.MarkFailed? then 3 else 0)
         < RunWork(s.runs[t.run].phase)
  {
  }

  /** Every smooth step leaves less to do. */
  lemma WorkFalls(s: State, t: Step)
    requires WellFormed(s) && Smooth(s, t)
    ensures Work(Do(s, t)) < Work(s)
  {
    match t
    case Relay(o) =>
      match o {
        case Lock(w, rows) => LockWorks(s, w, rows);
        case Send(w) => SendWorks(s, w);
        case CommitBatch(w) => CommitWorks(s, w);
        case _ =>
      }
    case Handle(h) =>
      HandlerFrame(s, h);
      HandlerRows(s, h);
      HandlerMessagesFall(s, h);
      HandlerRunsWork(s, h);
    case _ =>
  }

  // ---- Where it ends ----

  ghost predicate AtRest(s: State) {
    forall t :: !Smooth(s, t)
  }

  /** Nothing is left to do exactly when every row is published, every upload message acknowledged, and no
      transaction is open and no handler at work. */
  lemma RestExactly(s: State)
    requires WellFormed(s)
    ensures AtRest(s) <==>
            && (forall r :: 0 <= r < |s.log| ==> r in s.published) && s.batches == map[] && s.runs == map[]
            && (forall m :: 0 <= m < |s.stream| && s.log[s.stream[m]].event == Uploaded ==> m in s.acked)
  {
    if k :| k in s.runs {
      RunGoesOn(s, k);
    } else if w :| w in s.batches {
      BatchGoesOn(s, w);
    } else if r :| 0 <= r < |s.log| && r !in s.published {
      RowGoesOn(s, r);
    } else if m :| 0 <= m < |s.stream| && s.log[s.stream[m]].event == Uploaded && m !in s.acked {
      MessageGoesOn(s, m);
    } else {
      forall t ensures !Smooth(s, t) {
        if t.Relay? && t.outbox.Lock? && t.outbox.rows != [] {
          assert t.outbox.rows[0] >= |s.log| || t.outbox.rows[0] in s.published;
        }
      }
    }
  }

  lemma RowGoesOn(s: State, r: nat)
    requires WellFormed(s) && s.batches == map[] && r < |s.log| && r !in s.published
    ensures !AtRest(s)
  {
    assert Smooth(s, Relay(Lock(0, [r])));
  }

  lemma MessageGoesOn(s: State, m: nat)
    requires WellFormed(s) && s.runs == map[]
    requires m < |s.stream| && s.log[s.stream[m]].event == Uploaded && m !in s.acked
    ensures !AtRest(s)
  {
    assert Smooth(s, Handle(Deliver(0, m)));
  }

  lemma RunGoesOn(s: State, k: nat)
    requires WellFormed(s) && k in s.runs
    ensures !AtRest(s)
  {
    var t := match s.runs[k].phase
      case Received => ReadFails(k)
      case Loaded => StagesFail(k)
      case Raised => MarkFailed(k)
      case Finished(_) => Ack(k);
    assert Smooth(s, Handle(t));
  }

  lemma BatchGoesOn(s: State, w: nat)
    requires WellFormed(s) && w in s.batches
    ensures !AtRest(s)
  {
    var t := if s.batches[w].sent < |s.batches[w].rows| then Send(w) else CommitBatch(w);
    assert Smooth(s, Relay(t));
  }

  lemma {:induction false} SmoothRunBounded(s: State, steps: seq<Step>)
    requires Inv(s) && SmoothRun(s, steps)
    ensures Possible(s, steps) && Inv(After(s, steps)) && |steps| + Work(After(s, steps)) <= Work(s)
    ensures NothingLost(s) ==> NothingLost(After(s, steps))
    ensures Reachable(s) ==> Reachable(After(s, steps))
    decreases |steps|
  {
    if steps != [] {
      WorkFalls(s, steps[0]);
      InvStep(s, steps[0]);
      if NothingLost(s) {
        NothingLostStep(s, steps[0]);
      }
      if Reachable(s) {
        ReachStep(s, steps[0]);
      }
      SmoothRunBounded(Do(s, steps[0]), steps[1..]);
    }
  }

  /** From any state a run can be in, whatever has failed before, every schedule of smooth steps is finite, and where
      it can go no further the only undeleted files still in processing are the forgotten ones; there are none if no
      transaction of _mark_failed was lost. */
  lemma EveryScheduleSettles(s: State, steps: seq<Step>)
    requires Reachable(s) && SmoothRun(s, steps)
    ensures Possible(s, steps) && |steps| <= Work(s)
    ensures AtRest(After(s, steps)) ==>
              && (forall f :: InProcessing(After(s, steps), f) ==> Forgotten(After(s, steps), f))
              && (NothingLost(s) ==> forall f :: !InProcessing(After(s, steps), f))
  {
    ReachableInv(s);
    SmoothRunBounded(s, steps);
    var s' := After(s, steps);
    if AtRest(s') {
      RestExactly(s');
      forall f | InProcessing(s', f) ensures Forgotten(s', f) && !NothingLost(s') {
        RestForgets(s', f);
      }
    }
  }

  /** A file still in processing when nothing is left to do had its failure swallowed. */
  lemma RestForgets(s: State, f: nat)
    requires Reachable(s) && InProcessing(s, f) && s.runs == map[]
    requires forall r :: 0 <= r < |s.log| ==> r in s.published
    requires forall m :: 0 <= m < |s.stream| && s.stream[m] < |s.log| && s.log[s.stream[m]].event == Uploaded ==>
               m in s.acked
    ensures Forgotten(s, f) && !NothingLost(s)
  {
    LiveUnlessSwallowed(s, f);
    var r := NewestUpload(s.log, f);
    OutboxConservation(s, r);
    var m :| 0 <= m < |s.stream| && s.stream[m] == r;
    assert s.log[r].event == Uploaded && m in s.acked;
    assert !Live(s, r);
    assert Swallowed(s, m);
  }

  /** There always is such a schedule. */
  lemma {:induction false} CanComeToRest(s: State) returns (steps: seq<Step>)
    requires Inv(s)
    ensures SmoothRun(s, steps) && Possible(s, steps) && AtRest(After(s, steps))
    decreases Work(s)
  {
    if AtRest(s) {
      steps := [];
    } else {
      var t :| Smooth(s, t);
      WorkFalls(s, t);
      InvStep(s, t);
      var rest := CanComeToRest(Do(s, t));
      steps := [t] + rest;
      assert steps[1..] == rest;
    }
  }
}
