/** Exactly when a file whose outcome is recorded can still get another one. */
module DeliveryRepeats {
  import opened Events
  import opened Delivery
  import opened DeliverySafety
  import opened DeliveryTheorems
  import opened DeliveryWork
  import opened DeliveryProgress
  import opened DeliveryOnce

  ghost predicate MoreOutcomes(s: State, s': State, f: nat) {
    CountOutcomes(s'.log, f) > CountOutcomes(s.log, f)
  }

  lemma OutcomeAppended(s: State, s': State, f: nat, e: Event)
    requires IsOutcome(e) && s'.log == s.log + [Row(f, e)]
    ensures MoreOutcomes(s, s', f)
  {
    assert s'.log[..|s.log|] == s.log;
  }

  // ---- While no status read of the file raises ----

  /** Without API calls on the file and without a failed status read of it, another outcome can follow. */
  ghost predicate CanRepeat(s: State, f: nat) {
    exists steps :: Possible(s, steps) && Undisturbed(s, steps, f) && MoreOutcomes(s, After(s, steps), f)
  }

  ghost predicate PastRead(s: State, f: nat) {
    exists k :: k in s.runs && Working(s, k, f) && !s.runs[k].phase.Received?
  }

  /** For a file that is not in processing: exactly when some handler of it is past its read of the status, that
      is, it read processing before the file left that status. */
  lemma RepeatsExactly(s: State, f: nat)
    requires Reachable(s) && Active(s, f) && s.files[f].status != Processing
    ensures CanRepeat(s, f) <==> PastRead(s, f)
  {
    ReachableInv(s);
    if k :| k in s.runs && Working(s, k, f) && !s.runs[k].phase.Received? {
      RepeatNow(s, k, f);
    } else {
      forall steps | Possible(s, steps) && Undisturbed(s, steps, f) ensures !MoreOutcomes(s, After(s, steps), f) {
        LaterRunsChangeNothing(s, steps, f);
        CountOutcomesOthers(s.log, After(s, steps).log, f);
      }
    }
  }

  /** When the newest upload has its outcome already, only an overlap of handlers explains such a handler: in a run
      whose status reads hold and whose handlers of the file do not overlap, no further outcome can follow. */
  lemma RepeatNeedsOverlap(steps: seq<Step>, f: nat)
    requires Possible(INIT, steps) && ReadsRun(INIT, steps, f)
    requires var s := After(INIT, steps); Active(s, f) && !AwaitsOutcome(s.log, f) && CanRepeat(s, f)
    ensures !ApartRun(INIT, steps, f)
  {
    var s := After(INIT, steps);
    assert Reachable(s);
    ReachableInv(s);
    if s.files[f].status == Processing {
      assert s.files[f].status == StatusByHistory(s, f);
      ProcessingAwaits(s.log, f);
    }
    RepeatsExactly(s, f);
    if ApartRun(INIT, steps, f) {
      PastReadAwaits(steps, f);
    }
  }

  lemma PastReadAwaits(steps: seq<Step>, f: nat)
    requires Possible(INIT, steps) && SerialRun(INIT, steps, f)
    requires Active(After(INIT, steps), f) && PastRead(After(INIT, steps), f)
    ensures AwaitsOutcome(After(INIT, steps).log, f)
  {
    var s := After(INIT, steps);
    InvInit();
    OnceRun(INIT, steps, f);
    var k :| k in s.runs && Working(s, k, f) && !s.runs[k].phase.Received?;
    assert Owes(s, k, f);
  }

  lemma RepeatNow(s: State, k: nat, f: nat)
    requires WellFormed(s) && Active(s, f) && k in s.runs && Working(s, k, f) && !s.runs[k].phase.Received?
    ensures CanRepeat(s, f)
  {
    var t := if s.runs[k].phase.Loaded? then Conclude(k, Clean) else MarkFailed(k);
    OutcomeAppended(s, DoHandler(s, t), f, if t.Conclude? then FileReady(true) else ProcessingFailed);
    OneStep(s, Handle(t), f);
  }

  lemma OneStep(s: State, t: Step, f: nat)
    requires Enabled(s, t) && !t.Api? && ReadsHold(s, t, f) && MoreOutcomes(s, Do(s, t), f)
    ensures CanRepeat(s, f)
  {
    var steps := [t];
    assert steps[1..] == [];
    assert Possible(Do(s, t), []) && After(Do(s, t), []) == Do(s, t) && Undisturbed(Do(s, t), [], f);
    assert Possible(s, steps) && After(s, steps) == Do(s, t) && Undisturbed(s, steps, f);
  }

  // ---- With failing status reads ----

  /** Without API calls on the file another outcome can follow. */
  ghost predicate CanRecord(s: State, f: nat) {
    exists steps :: Possible(s, steps) && (forall i :: 0 <= i < |steps| ==> LeavesAlone(steps[i], f))
                    && MoreOutcomes(s, After(s, steps), f)
  }

  lemma LeadsRecords(s: State, s': State, f: nat)
    requires Leads(s, s') && MoreOutcomes(s, s', f)
    ensures CanRecord(s, f)
  {
    var steps :| Possible(s, steps) && OwnSteps(steps) && After(s, steps) == s';
    forall i | 0 <= i < |steps| ensures LeavesAlone(steps[i], f) {
      assert IsOwn(steps[i]);
    }
  }

  /** A handler at work can always end in _mark_failed, whose transaction does not look at the status. */
  lemma CanFail(s0: State, s: State, k: nat, f: nat) returns (s': State)
    requires Leads(s0, s) && WellFormed(s) && Active(s, f) && k in s.runs && Working(s, k, f)
    ensures Leads(s0, s') && s'.log == s.log + [Row(f, ProcessingFailed)]
  {
    var s1 := s;
    if s.runs[k].phase.Received? {
      LeadsStep(s0, s, Handle(ReadFails(k)));
      s1 := DoHandler(s, ReadFails(k));
    } else if s.runs[k].phase.Loaded? {
      LeadsStep(s0, s, Handle(StagesFail(k)));
      s1 := DoHandler(s, StagesFail(k));
    }
    LeadsStep(s0, s1, Handle(MarkFailed(k)));
    s' := DoHandler(s1, MarkFailed(k));
  }

  lemma CanDeliver(s0: State, s: State, m: nat, f: nat) returns (s': State)
    requires Leads(s0, s) && WellFormed(s) && Active(s, f)
    requires m < |s.stream| && m !in s.acked && s.log[s.stream[m]] == Row(f, Uploaded)
    ensures Leads(s0, s') && s'.log == s.log + [Row(f, ProcessingFailed)]
  {
    var k := FreshId(s.runs.Keys);
    LeadsStep(s0, s, Handle(Deliver(k, m)));
    WellFormedHandler(s, Deliver(k, m));
    s' := CanFail(s0, DoHandler(s, Deliver(k, m)), k, f);
  }

  /** Whatever its status, a file can get another outcome without a further API call exactly when it is not
      spent: some upload of it is unpublished or unacknowledged, or some handler is at work on one. */
  lemma RecordsExactly(s: State, f: nat)
    requires Reachable(s) && Active(s, f)
    ensures CanRecord(s, f) <==> !Spent(s, f)
  {
    ReachableInv(s);
    LeadsSelf(s);
    if Spent(s, f) {
      forall steps | Possible(s, steps) && (forall i :: 0 <= i < |steps| ==> LeavesAlone(steps[i], f))
        ensures !MoreOutcomes(s, After(s, steps), f)
      {
        SpentForever(s, steps, f);
        CountOutcomesOthers(s.log, After(s, steps).log, f);
      }
    } else {
      var s': State;
      if i :| 0 <= i < |s.log| && s.log[i] == Row(f, Uploaded) && i !in s.published {
        var s1 := CanUnlock(s, i);
        var s2, m := CanSend(s, s1, i);
        s' := CanDeliver(s, s2, m, f);
      } else if m :| 0 <= m < |s.stream| && s.log[s.stream[m]] == Row(f, Uploaded) && m !in s.acked {
        s' := CanDeliver(s, s, m, f);
      } else {
        var k :| k in s.runs && Working(s, k, f);
        s' := CanFail(s, s, k, f);
      }
      OutcomeAppended(s, s', f, ProcessingFailed);
      LeadsRecords(s, s', f);
    }
  }

  // ---- Concrete runs ----

  /** Overlapping handlers do break it: two deliveries of one message that both read processing record
      two outcomes for one upload, here first ready and then quarantined. */
  lemma OverlapGivesTwoOutcomes()
    ensures exists s :: Reachable(s) && CountUploads(s.log, 0) == 1 && CountOutcomes(s.log, 0) == 2
  {
    var file := File(Processing, false);
    OneUploadReachable();
    var s0 := OneUpload(file, [], map[], map[]);
    ReachStep(s0, Handle(Deliver(0, 0)));
    var s1 := OneUpload(file, [], map[], map[0 := Run(0, Received)]);
    assert DoHandler(s0, Deliver(0, 0)) == s1;
    ReachStep(s1, Handle(Deliver(1, 0)));
    var s2 := OneUpload(file, [], map[], map[0 := Run(0, Received), 1 := Run(0, Received)]);
    assert DoHandler(s1, Deliver(1, 0)) == s2;
    BothRead(s2);
  }

  lemma BothRead(s2: State)
    requires s2 == OneUpload(File(Processing, false), [], map[], map[0 := Run(0, Received), 1 := Run(0, Received)])
    requires Reachable(s2)
    ensures exists s :: Reachable(s) && CountUploads(s.log, 0) == 1 && CountOutcomes(s.log, 0) == 2
  {
    var file := File(Processing, false);
    ReachStep(s2, Handle(Read(0)));
    var s3 := OneUpload(file, [], map[], map[0 := Run(0, Loaded), 1 := Run(0, Received)]);
    assert DoHandler(s2, Read(0)).runs == s3.runs;
    ReachStep(s3, Handle(Read(1)));
    var s4 := OneUpload(file, [], map[], map[0 := Run(0, Loaded), 1 := Run(0, Loaded)]);
    assert DoHandler(s3, Read(1)).runs == s4.runs;
    BothConclude(s4);
  }

  lemma BothConclude(s4: State)
    requires s4 == OneUpload(File(Processing, false), [], map[], map[0 := Run(0, Loaded), 1 := Run(0, Loaded)])
    requires Reachable(s4)
    ensures exists s :: Reachable(s) && CountUploads(s.log, 0) == 1 && CountOutcomes(s.log, 0) == 2
  {
    ReachStep(s4, Handle(Conclude(0, Clean)));
    var s5 := DoHandler(s4, Conclude(0, Clean));
    assert s5.log == [Row(0, UploadInitiated), Row(0, Uploaded), Row(0, FileReady(true))];
    assert s5.runs == map[0 := Run(0, Finished(Recorded)), 1 := Run(0, Loaded)];
    ReachStep(s5, Handle(Conclude(1, Infected)));
    var s6 := DoHandler(s5, Conclude(1, Infected));
    assert s6.log == [Row(0, UploadInitiated), Row(0, Uploaded), Row(0, FileReady(true)), Row(0, FileQuarantined)];
    FourRows(s6.log, FileQuarantined);
  }

  lemma FourRows(log: seq<Row>, second: Event)
    requires log == [Row(0, UploadInitiated), Row(0, Uploaded), Row(0, FileReady(true)), Row(0, second)]
    requires IsOutcome(second)
    ensures CountUploads(log, 0) == 1 && CountOutcomes(log, 0) == 2
    ensures CountUploads(log[..3], 0) == 1 && CountOutcomes(log[..3], 0) == 1
  {
    var l3, l2, l1 := log[..3], log[..3][..2], log[..3][..2][..1];
    assert l1 == [Row(0, UploadInitiated)] && l1[..0] == [];
    assert CountUploads(l1, 0) == 0 && CountOutcomes(l1, 0) == 0;
    assert l2[1] == Row(0, Uploaded);
    assert CountUploads(l2, 0) == 1 && CountOutcomes(l2, 0) == 0;
    assert l3[2] == Row(0, FileReady(true));
    assert CountUploads(l3, 0) == 1 && CountOutcomes(l3, 0) == 1;
  }

  /** So does a single redelivery, with no other handler anywhere, whose status read raises: the failure
      that _mark_failed records turns the ready file into a failed one. */
  lemma ReadFailureGivesTwoOutcomes()
    ensures exists s :: Reachable(s) && JustReady(s) && FailsAgain(s)
  {
    OneUploadReachable();
    var s0 := OneUpload(File(Processing, false), [], map[], map[]);
    ReachStep(s0, Handle(Deliver(0, 0)));
    var s1 := OneUpload(File(Processing, false), [], map[], map[0 := Run(0, Received)]);
    assert DoHandler(s0, Deliver(0, 0)) == s1;
    ReachStep(s1, Handle(Read(0)));
    var s2 := OneUpload(File(Processing, false), [], map[], map[0 := Run(0, Loaded)]);
    assert DoHandler(s1, Read(0)).runs == s2.runs;
    ReadyThenDropped(s2);
  }

  /** One upload, answered by ready, and no handler. */
  ghost predicate JustReady(s: State) {
    s.runs == map[] && Active(s, 0) && s.files[0].status == Ready
    && CountUploads(s.log, 0) == 1 && CountOutcomes(s.log, 0) == 1
  }

  function Redelivery(): seq<Step> {
    [Handle(Deliver(0, 0)), Handle(ReadFails(0)), Handle(MarkFailed(0))]
  }

  ghost predicate FailsAgain(s: State) {
    Possible(s, Redelivery())
    && var s' := After(s, Redelivery());
       Active(s', 0) && s'.files[0].status == Failed && CountUploads(s'.log, 0) == 1 && CountOutcomes(s'.log, 0) == 2
  }

  lemma ReadyThenDropped(s2: State)
    requires s2 == OneUpload(File(Processing, false), [], map[], map[0 := Run(0, Loaded)]) && Reachable(s2)
    ensures exists s :: Reachable(s) && JustReady(s) && FailsAgain(s)
  {
    ReachStep(s2, Handle(Conclude(0, Clean)));
    var s3 := OneUpload(File(Ready, false), [Row(0, FileReady(true))], map[], map[0 := Run(0, Finished(Recorded))]);
    assert DoHandler(s2, Conclude(0, Clean)).runs == s3.runs;
    assert DoHandler(s2, Conclude(0, Clean)).log == s3.log;
    ReachStep(s3, Handle(Drop(0)));
    var s4 := OneUpload(File(Ready, false), [Row(0, FileReady(true))], map[], map[]);
    assert DoHandler(s3, Drop(0)).runs == s4.runs;
    ReadyThenFailed(s4);
  }

  lemma ReadyThenFailed(s4: State)
    requires s4 == OneUpload(File(Ready, false), [Row(0, FileReady(true))], map[], map[])
    ensures JustReady(s4) && FailsAgain(s4)
  {
    var log := s4.log + [Row(0, ProcessingFailed)];
    FourRows(log, ProcessingFailed);
    assert log[..3] == s4.log;
    FailAfterReady(s4);
  }

  lemma FailAfterReady(s4: State)
    requires s4 == OneUpload(File(Ready, false), [Row(0, FileReady(true))], map[], map[])
    requires CountUploads(s4.log + [Row(0, ProcessingFailed)], 0) == 1
    requires CountOutcomes(s4.log + [Row(0, ProcessingFailed)], 0) == 2
    ensures FailsAgain(s4)
  {
    var steps := Redelivery();
    var s5 := OneUpload(File(Ready, false), [Row(0, FileReady(true))], map[], map[0 := Run(0, Received)]);
    var s6 := OneUpload(File(Ready, false), [Row(0, FileReady(true))], map[], map[0 := Run(0, Raised)]);
    assert DoHandler(s4, Deliver(0, 0)) == s5;
    assert DoHandler(s5, ReadFails(0)).runs == s6.runs;
    var s7 := DoHandler(s6, MarkFailed(0));
    assert s7.log == s4.log + [Row(0, ProcessingFailed)];
    assert steps[1..][1..] == steps[2..] && steps[2..][1..] == [];
    assert Possible(s7, []) && After(s7, []) == s7;
    assert Possible(s6, steps[2..]) && After(s6, steps[2..]) == s7;
    assert Possible(s5, steps[1..]) && After(s5, steps[1..]) == s7;
  }
}
