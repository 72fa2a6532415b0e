/** Which processing files can still reach an outcome, and which never will. */
module DeliveryProgress {
  import opened Events
  import opened Delivery
  import opened DeliverySafety
  import opened DeliveryTheorems
  import opened DeliveryWork

  /** Workers and handlers alone, without losing a failure. */
  predicate OwnSteps(steps: seq<Step>) {
    forall i :: 0 <= i < |steps| ==> IsOwn(steps[i])
  }

  predicate IsOwn(t: Step) {
    !t.Api? && !(t.Handle? && t.handler.LoseFailure?)
  }

  ghost predicate Leads(s: State, s': State) {
    exists steps :: Possible(s, steps) && OwnSteps(steps) && After(s, steps) == s'
  }

  lemma LeadsSelf(s: State)
    ensures Leads(s, s)
  {
    assert Possible(s, []) && OwnSteps([]) && After(s, []) == s;
  }

  lemma LeadsStep(s: State, s1: State, t: Step)
    requires Leads(s, s1) && Enabled(s1, t) && IsOwn(t)
    ensures Leads(s, Do(s1, t))
  {
    var steps :| Possible(s, steps) && OwnSteps(steps) && After(s, steps) == s1;
    Extend(s, steps, t);
    assert OwnSteps(steps + [t]);
  }

  lemma FreshId(taken: set<nat>) returns (k: nat)
    ensures k !in taken && forall x :: x in taken ==> x < k
  {
    if taken == {} {
      k := 0;
    } else {
      var x :| x in taken;
      var l := FreshId(taken - {x});
      k := if l > x then l else x + 1;
      forall y | y in taken ensures y < k {
        if y != x {
          assert y in taken - {x};
        }
      }
    }
  }

  /** A locked row becomes free when its worker's transaction fails. */
  lemma CanUnlock(s: State, r: nat) returns (s': State)
    requires WellFormed(s) && r < |s.log| && r !in s.published
    ensures Leads(s, s') && s'.files == s.files && s'.log == s.log && s'.runs == s.runs
    ensures WellFormed(s') && r !in s'.locks && r !in s'.published
  {
    LeadsSelf(s);
    s' := s;
    if r in s.locks {
      var t := RollBack(s.locks[r]);
      LeadsStep(s, s, Relay(t));
      WellFormedOutbox(s, t);
      s' := DoOutbox(s, t);
    }
  }

  /** A free unpublished row can be brought into the stream as an unacknowledged message. */
  lemma CanSend(s0: State, s: State, r: nat) returns (s': State, m: nat)
    requires Leads(s0, s) && WellFormed(s) && r < |s.log| && r !in s.published && r !in s.locks
    ensures Leads(s0, s') && s'.files == s.files && s'.log == s.log && s'.runs == s.runs
    ensures m < |s'.stream| && s'.stream[m] == r && m !in s'.acked
    ensures WellFormed(s')
  {
    var w := FreshId(s.batches.Keys);
    var lock := Lock(w, [r]);
    LeadsStep(s0, s, Relay(lock));
    WellFormedOutbox(s, lock);
    OutboxFrame(s, lock);
    s', m := CanSendLocked(s0, DoOutbox(s, lock), w, r);
  }

  lemma CanSendLocked(s0: State, s: State, w: nat, r: nat) returns (s': State, m: nat)
    requires Leads(s0, s) && WellFormed(s) && w in s.batches && s.batches[w] == Batch([r], 0)
    ensures Leads(s0, s') && s'.files == s.files && s'.log == s.log && s'.runs == s.runs
    ensures m < |s'.stream| && s'.stream[m] == r && m !in s'.acked
    ensures WellFormed(s')
  {
    LeadsStep(s0, s, Relay(Send(w)));
    WellFormedOutbox(s, Send(w));
    m := |s.stream|;
    s' := DoOutbox(s, Send(w));
  }

  /** An unacknowledged upload message of a processing file can be turned into an outcome. */
  lemma CanConclude(s0: State, s: State, m: nat, v: Verdict) returns (s': State)
    requires WellFormed(s) && Leads(s0, s) && m < |s.stream| && m !in s.acked
    requires s.log[s.stream[m]].event == Uploaded && InProcessing(s, FileOf(s, m))
    ensures Leads(s0, s') && FileOf(s, m) in s'.files && s'.files[FileOf(s, m)].status == StatusOf(v)
    ensures s'.log == s.log + [Row(FileOf(s, m), EventOf(v))]
  {
    var k := FreshId(s.runs.Keys);
    var s1 := DoHandler(s, Deliver(k, m));
    LeadsStep(s0, s, Handle(Deliver(k, m)));
    assert s1.runs[k] == Run(m, Received);
    var s2 := DoHandler(s1, Read(k));
    LeadsStep(s0, s1, Handle(Read(k)));
    assert s2.runs[k] == Run(m, Loaded);
    s' := DoHandler(s2, Conclude(k, v));
    LeadsStep(s0, s2, Handle(Conclude(k, v)));
  }

  /** Whatever has happened so far, a processing file with a live newest upload can still reach any
      outcome by worker and handler steps alone. */
  lemma OutcomeStillPossible(s: State, f: nat, v: Verdict) returns (s': State)
    requires Reachable(s) && InProcessing(s, f) && Live(s, NewestUpload(s.log, f))
    ensures Leads(s, s') && f in s'.files && s'.files[f].status == StatusOf(v)
    ensures s'.log == s.log + [Row(f, EventOf(v))]
  {
    ReachableInv(s);
    var r := NewestUpload(s.log, f);
    assert r >= 0;
    var s1: State, m: nat := s, 0;
    LeadsSelf(s);
    if r in s.published {
      m :| 0 <= m < |s.stream| && s.stream[m] == r && LiveMessage(s, m);
    } else {
      s1 := CanUnlock(s, r);
      s1, m := CanSend(s, s1, r);
    }
    s' := CanConclude(s, s1, m, v);
  }

  // ---- The other side ----

  /** No upload of the file is unpublished or unacknowledged, and no handler is still at work on one. */
  ghost predicate Spent(s: State, f: nat) {
    && (forall i :: 0 <= i < |s.log| && s.log[i] == Row(f, Uploaded) ==> i in s.published)
    && (forall m :: 0 <= m < |s.stream| && s.stream[m] < |s.log| && s.log[s.stream[m]] == Row(f, Uploaded) ==>
          m in s.acked)
    && (forall k :: k in s.runs ==> !Working(s, k, f))
  }

  ghost predicate Forgotten(s: State, f: nat) {
    InProcessing(s, f) && Spent(s, f)
  }

  /** The step is not an API call on file f. */
  predicate LeavesAlone(t: Step, f: nat) {
    t.Api? ==> t.service.file != f
  }

  /** Nothing of the file's is added or taken back. */
  lemma SpentFrame(s: State, s': State, f: nat)
    requires WellFormed(s) && Spent(s, f) && Untouched(s, s', f)
    requires s.published <= s'.published && s.stream <= s'.stream && s.acked.Keys <= s'.acked.Keys
    requires forall m :: |s.stream| <= m < |s'.stream| ==> s'.stream[m] < |s.log| && s'.stream[m] !in s.published
    requires forall k :: k in s'.runs ==> !Working(s', k, f)
    ensures Spent(s', f)
  {
    forall m | 0 <= m < |s'.stream| && s'.stream[m] < |s'.log| && s'.log[s'.stream[m]] == Row(f, Uploaded)
      ensures m in s'.acked
    {
      if m < |s.stream| {
        assert s'.stream[m] == s.stream[m] && s.stream[m] < |s.log|;
      }
    }
  }

  lemma SpentService(s: State, t: Service, f: nat)
    requires WellFormed(s) && Spent(s, f) && f in s.files && ServiceEnabled(s, t) && t.file != f
    ensures Spent(DoService(s, t), f) && Untouched(s, DoService(s, t), f)
  {
    ServiceFrame(s, t);
    ServiceLeaves(s, t, f);
    SpentFrame(s, DoService(s, t), f);
  }

  lemma OutboxSendsLocked(s: State, t: Outbox)
    requires WellFormed(s) && OutboxEnabled(s, t)
    ensures var s' := DoOutbox(s, t);
      && s.published <= s'.published
      && forall m :: |s.stream| <= m < |s'.stream| ==> s'.stream[m] in s.locks
  {
    if t.Send? || t.SendFails? {
      var b := s.batches[t.worker];
      assert b.rows[b.sent] in s.locks;
    }
  }

  lemma SpentOutbox(s: State, t: Outbox, f: nat)
    requires WellFormed(s) && Spent(s, f) && f in s.files && OutboxEnabled(s, t)
    ensures Spent(DoOutbox(s, t), f) && Untouched(s, DoOutbox(s, t), f)
  {
    OutboxFrame(s, t);
    OutboxLeaves(s, t, f);
    OutboxSendsLocked(s, t);
    SpentFrame(s, DoOutbox(s, t), f);
  }

  lemma SpentHandler(s: State, t: Handler, f: nat)
    requires WellFormed(s) && Spent(s, f) && f in s.files && HandlerEnabled(s, t)
    ensures Spent(DoHandler(s, t), f) && Untouched(s, DoHandler(s, t), f)
  {
    var s' := DoHandler(s, t);
    HandlerFrame(s, t);
    HandlerRuns(s, t);
    if t.Conclude? || t.MarkFailed? {
      assert Working(s, t.run, FileOf(s, s.runs[t.run].msg));
    }
    HandlerLeaves(s, t, f);
    forall k | k in s'.runs ensures !Working(s', k, f) {
      if Working(s', k, f) {
        HandlerWork(s, t, k, f);
      }
    }
    SpentFrame(s, s', f);
  }

  /** No step of any worker or handler, and no API call on another file, brings a spent file's uploads back. */
  lemma {:induction false} SpentForever(s: State, steps: seq<Step>, f: nat)
    requires Inv(s) && Spent(s, f) && f in s.files && Possible(s, steps)
    requires forall i :: 0 <= i < |steps| ==> LeavesAlone(steps[i], f)
    ensures Spent(After(s, steps), f) && Untouched(s, After(s, steps), f)
    decreases |steps|
  {
    if steps != [] {
      var t := steps[0];
      assert LeavesAlone(t, f);
      match t {
        case Api(a) => SpentService(s, a, f);
        case Relay(o) => SpentOutbox(s, o, f);
        case Handle(h) => SpentHandler(s, h, f);
      }
      InvStep(s, t);
      SpentForever(Do(s, t), steps[1..], f);
      UntouchedTwice(s, Do(s, t), After(s, steps), f);
    }
  }

  /** So a forgotten file stays in status processing for ever. */
  lemma ForgottenForever(s: State, steps: seq<Step>, f: nat)
    requires Inv(s) && Forgotten(s, f) && Possible(s, steps)
    requires forall i :: 0 <= i < |steps| ==> LeavesAlone(steps[i], f)
    ensures Forgotten(After(s, steps), f)
  {
    SpentForever(s, steps, f);
  }

  /** Such files exist: one upload whose stages raise and whose _mark_failed then loses its transaction. */
  lemma ForgottenReachable()
    ensures exists s :: Reachable(s) && Forgotten(s, 0)
  {
    var file := File(Processing, false);
    OneUploadReachable();
    var s0 := OneUpload(file, [], map[], map[]);
    ReachStep(s0, Handle(Deliver(0, 0)));
    var s1 := OneUpload(file, [], map[], map[0 := Run(0, Received)]);
    assert DoHandler(s0, Deliver(0, 0)) == s1;
    ReachStep(s1, Handle(Read(0)));
    var s2 := OneUpload(file, [], map[], map[0 := Run(0, Loaded)]);
    assert DoHandler(s1, Read(0)).runs == s2.runs;
    LosesIt(file, s2);
  }

  lemma LosesIt(file: File, s2: State)
    requires file == File(Processing, false) && s2 == OneUpload(file, [], map[], map[0 := Run(0, Loaded)])
    requires Reachable(s2)
    ensures exists s :: Reachable(s) && Forgotten(s, 0)
  {
    ReachStep(s2, Handle(StagesFail(0)));
    var s3 := OneUpload(file, [], map[], map[0 := Run(0, Raised)]);
    assert DoHandler(s2, StagesFail(0)).runs == s3.runs;
    ReachStep(s3, Handle(LoseFailure(0)));
    var s4 := OneUpload(file, [], map[], map[0 := Run(0, Finished(Lost))]);
    assert DoHandler(s3, LoseFailure(0)).runs == s4.runs;
    ReachStep(s4, Handle(Ack(0)));
    var s5 := OneUpload(file, [], map[0 := Lost], map[]);
    assert DoHandler(s4, Ack(0)).runs == s5.runs;
    assert Forgotten(s5, 0);
  }

  /** Some continuation without API calls on the file takes it out of status processing. */
  ghost predicate CanLeave(s: State, f: nat) {
    exists steps :: Possible(s, steps) && (forall i :: 0 <= i < |steps| ==> LeavesAlone(steps[i], f))
                    && !InProcessing(After(s, steps), f)
  }

  lemma LeadsLeaves(s: State, s': State, f: nat)
    requires Leads(s, s') && !InProcessing(s', f)
    ensures CanLeave(s, f)
  {
  }

  /** A handler still at work on the file can finish. */
  lemma CanFinish(s: State, k: nat, f: nat) returns (s': State)
    requires WellFormed(s) && InProcessing(s, f) && k in s.runs && FileOf(s, s.runs[k].msg) == f
    requires !s.runs[k].phase.Finished?
    ensures Leads(s, s') && !InProcessing(s', f)
  {
    LeadsSelf(s);
    s' := s;
    if s'.runs[k].phase.Received? {
      LeadsStep(s, s', Handle(Read(k)));
      s' := DoHandler(s', Read(k));
    }
    if s'.runs[k].phase.Loaded? {
      LeadsStep(s, s', Handle(Conclude(k, Clean)));
      s' := DoHandler(s', Conclude(k, Clean));
    } else {
      LeadsStep(s, s', Handle(MarkFailed(k)));
      s' := DoHandler(s', MarkFailed(k));
    }
  }

  /** A file in status processing can leave it without a further API call exactly when it is not forgotten. */
  lemma StuckExactly(s: State, f: nat)
    requires Reachable(s) && InProcessing(s, f)
    ensures CanLeave(s, f) <==> !Forgotten(s, f)
  {
    ReachableInv(s);
    LeadsSelf(s);
    if Forgotten(s, f) {
      forall steps | Possible(s, steps) && (forall i :: 0 <= i < |steps| ==> LeavesAlone(steps[i], f))
        ensures InProcessing(After(s, steps), f)
      {
        ForgottenForever(s, steps, f);
      }
    } else if i :| 0 <= i < |s.log| && s.log[i] == Row(f, Uploaded) && i !in s.published {
      var s1 := CanUnlock(s, i);
      var s2, m := CanSend(s, s1, i);
      var s3 := CanConclude(s, s2, m, Clean);
      LeadsLeaves(s, s3, f);
    } else if m :| 0 <= m < |s.stream| && s.log[s.stream[m]] == Row(f, Uploaded) && m !in s.acked {
      var s3 := CanConclude(s, s, m, Clean);
      LeadsLeaves(s, s3, f);
    } else {
      var k :| k in s.runs && FileOf(s, s.runs[k].msg) == f && !s.runs[k].phase.Finished?;
      var s3 := CanFinish(s, k, f);
      LeadsLeaves(s, s3, f);
    }
  }
}
