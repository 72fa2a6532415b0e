/** What the protocol guarantees over every run from an empty system, and where it does not. */
module DeliveryTheorems {
  import opened Events
  import opened Delivery
  import opened DeliverySafety

  /** Some run from the empty system ends in this state. */
  ghost predicate Reachable(s: State) {
    exists steps :: Possible(INIT, steps) && After(INIT, steps) == s
  }

  lemma ReachableInv(s: State)
    requires Reachable(s)
    ensures Inv(s)
  {
    var steps :| Possible(INIT, steps) && After(INIT, steps) == s;
    InvInit();
    InvRun(INIT, steps);
  }

  // ---- Outbox conservation ----

  /** Over every run and any number of workers: every message is a committed row, every row's copies
      are accounted for, a published row has been sent, and a row that is not published yet can be
      fetched again unless an open batch holds it. */
  lemma OutboxConservation(s: State, r: nat)
    requires Reachable(s)
    ensures multiset(s.stream)[r] == (if r in s.published then 1 else 0)
                                   + (if SentInOpenBatch(s, r) then 1 else 0) + s.undone[r]
    ensures r in s.stream ==> r < |s.log|
    ensures r in s.published ==> r in s.stream
    ensures r < |s.log| && r !in s.published && r !in s.locks ==>
              forall w :: w !in s.batches ==> OutboxEnabled(s, Lock(w, [r]))
  {
    ReachableInv(s);
    assert Balanced(s, r);
    if r in s.published {
      assert r in multiset(s.stream);
    }
  }

  lemma BatchRowsLocked(s: State, w: nat)
    requires LocksHeld(s) && w in s.batches
    ensures forall r :: r in s.batches[w].rows ==> r in s.locks && s.locks[r] == w
  {
  }

  /** No row is ever in two open batches. */
  lemma OpenBatchesDisjoint(s: State, v: nat, w: nat)
    requires Reachable(s) && v in s.batches && w in s.batches && v != w
    ensures forall r :: !(r in s.batches[v].rows && r in s.batches[w].rows)
  {
    ReachableInv(s);
    BatchRowsLocked(s, v);
    BatchRowsLocked(s, w);
  }

  // ---- Status and events ----

  /** A file's status is the replay of its committed events exactly when no multipart abort is the last
      word on it, or the replay says failed anyway; overlapping pipeline runs make no difference. */
  lemma StatusIsReplay(s: State, f: nat)
    requires Reachable(s) && f in s.files
    ensures s.files[f].status == Replay(s.log, f)
            <==> f !in s.aborts || AnnouncedSince(s.log, f, s.aborts[f]) || Replay(s.log, f) == Failed
  {
    ReachableInv(s);
  }

  // ---- Processing files are never forgotten ----

  /** Nobody has finished with the message, and it will be delivered again. */
  ghost predicate LiveMessage(s: State, m: nat) {
    m !in s.acked && forall k :: k in s.runs && s.runs[k].msg == m ==> !s.runs[k].phase.Finished?
  }

  /** The row still has to be sent, or one of its messages is live. */
  ghost predicate Live(s: State, r: int) {
    r !in s.published || exists m :: 0 <= m < |s.stream| && s.stream[m] == r && LiveMessage(s, m)
  }

  /** The handler that finished with the message had lost the failure it wanted to record. */
  ghost predicate Swallowed(s: State, m: nat) {
    (m in s.acked && s.acked[m] == Lost)
    || exists k :: k in s.runs && s.runs[k].msg == m && s.runs[k].phase == Finished(Lost)
  }

  lemma UnsettledMessage(s: State, m: nat)
    requires !Settled(s, m)
    ensures LiveMessage(s, m) <==> !Swallowed(s, m)
  {
  }

  /** A file in status processing has a live newest upload exactly when that upload is unpublished or
      one of its messages was not swallowed by a failed _mark_failed. */
  lemma LiveUnlessSwallowed(s: State, f: nat)
    requires Reachable(s) && InProcessing(s, f)
    ensures var r := NewestUpload(s.log, f);
      r >= 0 && (Live(s, r) <==>
        r !in s.published || exists m :: 0 <= m < |s.stream| && s.stream[m] == r && !Swallowed(s, m))
  {
    ReachableInv(s);
    var r := NewestUpload(s.log, f);
    forall m | 0 <= m < |s.stream| && s.stream[m] == r ensures LiveMessage(s, m) <==> !Swallowed(s, m) {
      UnsettledMessage(s, m);
    }
  }

  predicate NoLoss(steps: seq<Step>) {
    forall i :: 0 <= i < |steps| ==> !(steps[i].Handle? && steps[i].handler.LoseFailure?)
  }

  ghost predicate NothingLost(s: State) {
    (forall m :: m in s.acked ==> s.acked[m] != Lost) && (forall k :: k in s.runs ==> s.runs[k].phase != Finished(Lost))
  }

  lemma NothingLostStep(s: State, t: Step)
    requires NothingLost(s) && Enabled(s, t) && !(t.Handle? && t.handler.LoseFailure?)
    ensures NothingLost(Do(s, t))
  {
    match t
    case Api(a) => ServiceFrame(s, a);
    case Relay(o) => OutboxFrame(s, o);
    case Handle(h) => NothingLostHandler(s, h);
  }

  lemma NothingLostHandler(s: State, t: Handler)
    requires NothingLost(s) && HandlerEnabled(s, t) && !t.LoseFailure?
    ensures NothingLost(DoHandler(s, t))
  {
  }

  /** The runs and acknowledgements after a handler step. */
  lemma HandlerRuns(s: State, t: Handler)
    requires HandlerEnabled(s, t)
    ensures var s' := DoHandler(s, t);
      && (forall k :: k in s'.runs && k != t.run ==> k in s.runs && s'.runs[k] == s.runs[k])
      && (t.run in s'.runs && s'.runs[t.run].phase == Finished(Lost) ==> t.LoseFailure?)
      && (s'.acked == s.acked || (t.Ack? && s'.acked == s.acked[s.runs[t.run].msg := s.runs[t.run].phase.ending]))
  {
  }

  lemma {:induction false} NothingLostRun(s: State, steps: seq<Step>)
    requires NothingLost(s) && Possible(s, steps) && NoLoss(steps)
    ensures NothingLost(After(s, steps))
    decreases |steps|
  {
    if steps != [] {
      NothingLostStep(s, steps[0]);
      NothingLostRun(Do(s, steps[0]), steps[1..]);
    }
  }

  /** As long as _mark_failed's transactions commit, a non-deleted file in status processing always has
      a live file.uploaded obligation: an unpublished row, or an unacknowledged message no handler has
      finished with. Crashes, redeliveries and overlapping runs included. */
  lemma ProcessingFilesAreOwed(steps: seq<Step>, f: nat)
    requires Possible(INIT, steps) && NoLoss(steps) && InProcessing(After(INIT, steps), f)
    ensures var s := After(INIT, steps);
      NewestUpload(s.log, f) >= 0 && Live(s, NewestUpload(s.log, f))
  {
    NothingLostRun(INIT, steps);
    var s := After(INIT, steps);
    LiveUnlessSwallowed(s, f);
    var r := NewestUpload(s.log, f);
    if r in s.published {
      OutboxConservation(s, r);
      var m :| 0 <= m < |s.stream| && s.stream[m] == r;
      assert !Swallowed(s, m);
    }
  }

  // ---- Concrete runs ----

  lemma {:induction false} Extend(s: State, steps: seq<Step>, t: Step)
    requires Possible(s, steps) && Enabled(After(s, steps), t)
    ensures Possible(s, steps + [t]) && After(s, steps + [t]) == Do(After(s, steps), t)
    decreases |steps|
  {
    if steps == [] {
      assert (steps + [t])[1..] == [];
    } else {
      assert (steps + [t])[1..] == steps[1..] + [t];
      Extend(Do(s, steps[0]), steps[1..], t);
    }
  }

  lemma ReachStep(s: State, t: Step)
    requires Reachable(s) && Enabled(s, t)
    ensures Reachable(Do(s, t))
  {
    var steps :| Possible(INIT, steps) && After(INIT, steps) == s;
    Extend(INIT, steps, t);
  }

  /** File 0 has been uploaded; where its event row stands, and what handlers have done. */
  function OneUpload(file: File, log: seq<Row>, acked: map<nat, Ending>, runs: map<nat, Run>): State {
    State(map[0 := file], [Row(0, UploadInitiated), Row(0, Uploaded)] + log, {1},
          map[], map[], [1], acked, runs, multiset{}, map[])
  }

  function Unsent(sent: bool, locked: bool): State {
    State(map[0 := File(Processing, false)], [Row(0, UploadInitiated), Row(0, Uploaded)], {},
          if locked then map[0 := Batch([1], if sent then 1 else 0)] else map[],
          if locked then map[1 := 0] else map[],
          if sent then [1] else [], map[], map[], multiset{}, map[])
  }

  lemma UnsentReachable()
    ensures Reachable(Unsent(false, false))
  {
    assert Possible(INIT, []) && After(INIT, []) == INIT;
    ReachStep(INIT, Api(InitUpload(0)));
    var s1 := INIT.(files := map[0 := File(Pending, false)], log := [Row(0, UploadInitiated)]);
    assert Do(INIT, Api(InitUpload(0))) == s1;
    ReachStep(s1, Api(Confirm(0, true)));
    assert Do(s1, Api(Confirm(0, true))) == Unsent(false, false);
  }

  lemma LockOne()
    requires Reachable(Unsent(false, false))
    ensures Reachable(Unsent(false, true))
  {
    ReachStep(Unsent(false, false), Relay(Lock(0, [1])));
    var s' := DoOutbox(Unsent(false, false), Lock(0, [1]));
    assert s'.locks == map[1 := 0] && s'.batches == map[0 := Batch([1], 0)];
  }

  lemma SendOne()
    requires Reachable(Unsent(false, true))
    ensures Reachable(Unsent(true, true))
  {
    ReachStep(Unsent(false, true), Relay(Send(0)));
    var s' := DoOutbox(Unsent(false, true), Send(0));
    assert s'.stream == [1] && s'.batches == map[0 := Batch([1], 1)];
  }

  lemma CommitOne()
    requires Reachable(Unsent(true, true))
    ensures Reachable(OneUpload(File(Processing, false), [], map[], map[]))
  {
    ReachStep(Unsent(true, true), Relay(CommitBatch(0)));
    var s' := DoOutbox(Unsent(true, true), CommitBatch(0));
    assert s'.locks == map[] && s'.batches == map[] && s'.published == {1};
    assert s'.log + [] == s'.log;
  }

  lemma OneUploadReachable()
    ensures Reachable(OneUpload(File(Processing, false), [], map[], map[]))
  {
    UnsentReachable();
    LockOne();
    SendOne();
    CommitOne();
  }
}
