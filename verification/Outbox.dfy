/** backend/app/core/messaging.py: one cycle of the outbox worker, and how cycles drain a backlog. */
module Outbox {
  import opened Sequences

  datatype OutboxMessage = OutboxMessage(subject: string, payload: string, createdAt: int, published: bool)

  datatype Message = Message(subject: string, data: string)

  function Encode(m: OutboxMessage): Message {
    Message(m.subject, m.payload)
  }

  type Rows = seq<OutboxMessage>

  // ---- The SELECT ----

  /** The rows the query may return: unpublished and not locked by another transaction. */
  predicate Available(rows: Rows, locked: set<nat>, r: nat) {
    r < |rows| && !rows[r].published && r !in locked
  }

  predicate InOrder(rows: Rows, batch: seq<nat>)
    requires InTable(rows, batch)
  {
    forall i, j :: 0 <= i < j < |batch| ==> rows[batch[i]].createdAt <= rows[batch[j]].createdAt
  }

  /** WHERE published_at IS NULL ORDER BY created_at LIMIT size FOR UPDATE SKIP LOCKED; rows created at
      the same instant may come in any order. */
  ghost predicate IsBatch(rows: Rows, locked: set<nat>, size: nat, batch: seq<nat>) {
    && |batch| <= size && Distinct(batch) && InTable(rows, batch)
    && (forall i :: 0 <= i < |batch| ==> Available(rows, locked, batch[i]))
    && InOrder(rows, batch)
    && (forall r: nat :: Available(rows, locked, r) && r !in batch ==>
          |batch| == size && forall i :: 0 <= i < |batch| ==> rows[batch[i]].createdAt <= rows[r].createdAt)
  }

  /** Such a batch always exists. */
  lemma {:induction false} BatchExists(rows: Rows, locked: set<nat>, size: nat) returns (batch: seq<nat>)
    ensures IsBatch(rows, locked, size, batch)
  {
    if size == 0 {
      batch := [];
    } else {
      var front := BatchExists(rows, locked, size - 1);
      var left := set r: nat | r < |rows| && Available(rows, locked, r) && r !in front;
      assert forall r: nat :: Available(rows, locked, r) && r !in front ==> r in left;
      if left != {} {
        var oldest := OldestOf(rows, left);
        batch := front + [oldest];
        forall r: nat | Available(rows, locked, r) && r !in batch
          ensures |batch| == size && forall i :: 0 <= i < |batch| ==> rows[batch[i]].createdAt <= rows[r].createdAt
        {
          assert r !in front && r in left;
        }
      } else {
        batch := front;
      }
    }
  }

  lemma OldestOf(rows: Rows, among: set<nat>) returns (r: nat)
    requires among != {} && forall x :: x in among ==> x < |rows|
    ensures r in among && forall x :: x in among ==> rows[r].createdAt <= rows[x].createdAt
  {
    var y :| y in among;
    if among == {y} {
      r := y;
    } else {
      var s := OldestOf(rows, among - {y});
      r := if rows[y].createdAt <= rows[s].createdAt then y else s;
      forall x | x in among ensures rows[r].createdAt <= rows[x].createdAt {
        if x != y {
          assert x in among - {y};
        }
      }
    }
  }

  // ---- One cycle ----

  predicate InTable(rows: Rows, batch: seq<nat>) {
    forall i :: 0 <= i < |batch| ==> batch[i] < |rows|
  }

  /** published_at set on the batch, nothing else changed. */
  function Mark(rows: Rows, batch: seq<nat>): (r: Rows)
    requires InTable(rows, batch)
    ensures |r| == |rows|
    ensures forall i :: 0 <= i < |rows| ==>
              r[i] == if i in batch then rows[i].(published := true) else rows[i]
  {
    if batch == [] then rows
    else
      var front, last := batch[..|batch| - 1], batch[|batch| - 1];
      assert batch == front + [last];
      Mark(rows, front)[last := rows[last].(published := true)]
  }

  function Encoded(rows: Rows, batch: seq<nat>): (ms: seq<Message>)
    requires InTable(rows, batch)
    ensures |ms| == |batch|
    ensures forall i :: 0 <= i < |batch| ==> ms[i] == Encode(rows[batch[i]])
  {
    if batch == [] then [] else Encoded(rows, batch[..|batch| - 1]) + [Encode(rows[batch[|batch| - 1]])]
  }

  /** The stream, answering `budget` more publishes; the first refused one may be stored all the same. */
  class JetStream {
    var messages: seq<Message>
    var budget: nat
    var stored: bool

    method Publish(m: Message) returns (ok: bool)
      modifies this
      ensures ok <==> old(budget) > 0
      ensures budget == (if old(budget) > 0 then old(budget) - 1 else 0) && stored == old(stored)
      ensures messages == if old(budget) > 0 || stored then old(messages) + [m] else old(messages)
    {
      ok := budget > 0;
      if ok || stored {
        messages := messages + [m];
      }
      budget := if ok then budget - 1 else 0;
    }
  }

  /** How many messages of a batch the stream holds after a cycle that failed. */
  function Stored(budget: nat, stored: bool, size: nat): (k: nat)
    ensures k <= size
  {
    if budget >= size then size else if stored then budget + 1 else budget
  }

  /** The whole effect of a cycle on its batch: every row sent once, in order, and all of them committed as
      published; or a publish raised or the commit was lost, the table is as it was, and a beginning of the
      batch is in the stream. */
  ghost predicate CycleEffect(rows: Rows, messages: seq<Message>, rows': Rows, messages': seq<Message>, batch: seq<nat>,
                              budget: nat, stored: bool, commits: bool)
    requires InTable(rows, batch)
  {
    if budget >= |batch| && (batch == [] || commits)
    then rows' == Mark(rows, batch) && messages' == messages + Encoded(rows, batch)
    else rows' == rows && messages' == messages + Encoded(rows, batch)[..Stored(budget, stored, |batch|)]
  }

  /** The first k rows of the batch were added to the stream, in order, each under its subject and with its payload. */
  ghost predicate Carries(rows: Rows, batch: seq<nat>, before: seq<Message>, after: seq<Message>, k: nat)
    requires InTable(rows, batch)
  {
    && k <= |batch| && before <= after && |after| == |before| + k
    && forall i :: 0 <= i < k ==>
         && after[|before| + i].subject == rows[batch[i]].subject
         && after[|before| + i].data == rows[batch[i]].payload
  }

  lemma EncodedCarries(rows: Rows, batch: seq<nat>, before: seq<Message>, k: nat)
    requires InTable(rows, batch) && k <= |batch|
    ensures Carries(rows, batch, before, before + Encoded(rows, batch)[..k], k)
  {
  }

  class OutboxWorker {
    var rows: Rows  // the committed table

    /** _poll_and_publish on the batch its query returned. On success every row of the batch is in the stream and
        marked; otherwise the table is as it was and the rows up to the refused one are in the stream, that one
        included if the stream stored it. */
    method PollAndPublish(js: JetStream, locked: set<nat>, size: nat, batch: seq<nat>, commits: bool)
      returns (ok: bool, count: nat)
      requires IsBatch(rows, locked, size, batch)
      modifies this, js
      ensures ok <==> old(js.budget) >= |batch| && (batch == [] || commits)
      ensures count == if ok then |batch| else 0
      ensures CycleEffect(old(rows), old(js.messages), rows, js.messages, batch,
                          old(js.budget), old(js.stored), commits)
      ensures Carries(old(rows), batch, old(js.messages), js.messages,
                      if old(js.budget) >= |batch| then |batch|
                      else if old(js.stored) then old(js.budget) + 1 else old(js.budget))
      ensures |rows| == |old(rows)| && forall r :: 0 <= r < |rows| ==>
                rows[r] == if ok && r in batch then old(rows)[r].(published := true) else old(rows)[r]
    {
      if batch == [] {
        return true, 0;
      }
      var session;
      ok, session := SendBatch(js, rows, batch);
      ok := ok && commits;
      if ok {
        rows := session;
      }
      count := if ok then |batch| else 0;
    }
  }

  lemma MarkOneMore(rows: Rows, batch: seq<nat>, i: nat)
    requires InTable(rows, batch) && i < |batch|
    ensures var r, session := batch[i], Mark(rows, batch[..i]);
            Encode(session[r]) == Encode(rows[r])
            && Mark(rows, batch[..i + 1]) == session[r := session[r].(published := true)]
  {
  }

  lemma OneMoreSent<T>(before: seq<T>, sent: seq<T>, i: nat)
    requires i < |sent|
    ensures before + sent[..i] + [sent[i]] == before + sent[..i + 1]
  {
  }

  /** The loop over the batch: send a row, set its published_at in the session. */
  method SendBatch(js: JetStream, rows: Rows, batch: seq<nat>) returns (ok: bool, session: Rows)
    requires InTable(rows, batch)
    modifies js
    ensures ok <==> old(js.budget) >= |batch|
    ensures js.stored == old(js.stored)
    ensures js.messages == old(js.messages)
                             + Encoded(rows, batch)[..Stored(old(js.budget), js.stored, |batch|)]
    ensures ok ==> session == Mark(rows, batch)
    ensures Carries(rows, batch, old(js.messages), js.messages,
                    if old(js.budget) >= |batch| then |batch|
                    else if js.stored then old(js.budget) + 1 else old(js.budget))
  {
    EncodedCarries(rows, batch, js.messages, Stored(js.budget, js.stored, |batch|));
    session := rows;
    ghost var sent := Encoded(rows, batch);
    for i := 0 to |batch|
      invariant session == Mark(rows, batch[..i])
      invariant js.messages == old(js.messages) + sent[..i]
      invariant js.budget == old(js.budget) - i && js.stored == old(js.stored)
    {
      MarkOneMore(rows, batch, i);
      OneMoreSent(old(js.messages), sent, i);
      var r := batch[i];
      ok := js.Publish(Encode(session[r]));
      if !ok {
        assert Stored(old(js.budget), js.stored, |batch|) == if js.stored then i + 1 else i;
        return;
      }
      session := session[r := session[r].(published := true)];
    }
    assert batch[..|batch|] == batch && Stored(old(js.budget), js.stored, |batch|) == |batch|;
    ok := true;
  }

  // ---- Draining ----

  function Backlog(rows: Rows): set<nat> {
    set r | 0 <= r < |rows| && !rows[r].published
  }

  /** The batches of successive cycles that all succeed, one worker, nothing committed meanwhile. */
  ghost predicate Cycles(rows: Rows, size: nat, batches: seq<seq<nat>>)
    decreases |batches|
  {
    batches == [] || (IsBatch(rows, {}, size, batches[0]) && Cycles(Mark(rows, batches[0]), size, batches[1..]))
  }

  ghost function AfterCycles(rows: Rows, size: nat, batches: seq<seq<nat>>): Rows
    requires Cycles(rows, size, batches)
    decreases |batches|
  {
    if batches == [] then rows else AfterCycles(Mark(rows, batches[0]), size, batches[1..])
  }

  /** Everything sent, in order. */
  function Sent(batches: seq<seq<nat>>): seq<nat> {
    if batches == [] then [] else batches[0] + Sent(batches[1..])
  }

  function SetOf(batch: seq<nat>): set<nat> {
    set r | r in batch
  }

  lemma SetOfConcat(a: seq<nat>, b: seq<nat>)
    ensures SetOf(a + b) == SetOf(a) + SetOf(b)
  {
  }

  lemma {:induction false} DistinctSize(batch: seq<nat>)
    requires Distinct(batch)
    ensures |SetOf(batch)| == |batch|
  {
    if batch != [] {
      var front, last := batch[..|batch| - 1], batch[|batch| - 1];
      DistinctSize(front);
      assert batch == front + [last];
      assert forall i :: 0 <= i < |front| ==> front[i] == batch[i] != last;
      SetOfConcat(front, [last]);
      assert SetOf([last]) == {last};
    }
  }

  function Min(a: nat, b: nat): nat { if a < b then a else b }

  lemma BacklogAfterMark(rows: Rows, batch: seq<nat>)
    requires InTable(rows, batch)
    ensures Backlog(Mark(rows, batch)) == Backlog(rows) - SetOf(batch)
  {
  }

  /** One cycle takes min(size, backlog) rows off the backlog. */
  lemma CycleShrinks(rows: Rows, size: nat, batch: seq<nat>)
    requires IsBatch(rows, {}, size, batch)
    ensures |batch| == Min(size, |Backlog(rows)|)
    ensures Backlog(Mark(rows, batch)) == Backlog(rows) - SetOf(batch)
    ensures |Backlog(Mark(rows, batch))| == |Backlog(rows)| - |batch|
  {
    DistinctSize(batch);
    BacklogAfterMark(rows, batch);
    BatchOfBacklog(rows, size, batch);
    Subset(SetOf(batch), Backlog(rows));
  }

  lemma BatchOfBacklog(rows: Rows, size: nat, batch: seq<nat>)
    requires IsBatch(rows, {}, size, batch)
    ensures SetOf(batch) <= Backlog(rows)
    ensures |batch| < size ==> Backlog(rows) == SetOf(batch)
  {
  }

  lemma Subset(a: set<nat>, b: set<nat>)
    requires a <= b
    ensures |a| <= |b| && |b - a| == |b| - |a|
  {
  }

  /** After k cycles exactly min(k * size, n) of the n backlog rows are published. */
  lemma {:induction false} BacklogAfter(rows: Rows, size: nat, batches: seq<seq<nat>>)
    requires Cycles(rows, size, batches) && size > 0
    ensures |Backlog(AfterCycles(rows, size, batches))| == Left(|Backlog(rows)|, size, |batches|)
    decreases |batches|
  {
    if batches != [] {
      CycleShrinks(rows, size, batches[0]);
      BacklogAfter(Mark(rows, batches[0]), size, batches[1..]);
      LeftAfter(|Backlog(rows)|, size, |batches| - 1);
    }
  }

  /** n less k times size, but not below zero. */
  function Left(n: nat, size: nat, k: nat): nat {
    if k * size >= n then 0 else n - k * size
  }

  lemma LeftAfter(n: nat, size: nat, k: nat)
    ensures Left(n - Min(size, n), size, k) == Left(n, size, k + 1)
  {
  }

  /** The number of cycles that empties a backlog: ceil(n / size). */
  function CyclesNeeded(n: nat, size: nat): nat
    requires size > 0
  {
    (n + size - 1) / size
  }

  lemma CeilBound(n: nat, size: nat, k: nat)
    requires size > 0
    ensures k * size >= n <==> k >= CyclesNeeded(n, size)
  {
    var c := CyclesNeeded(n, size);
    assert c * size <= n + size - 1 < c * size + size;
    if k >= c {
      MulMono(c, k, size);
    } else {
      MulMono(k + 1, c, size);
    }
  }

  lemma MulMono(a: nat, b: nat, m: nat)
    requires a <= b
    ensures a * m <= b * m
  {
  }

  lemma DrainedExactlyWhen(rows: Rows, size: nat, batches: seq<seq<nat>>)
    requires Cycles(rows, size, batches) && size > 0
    ensures Backlog(AfterCycles(rows, size, batches)) == {} <==> |batches| >= CyclesNeeded(|Backlog(rows)|, size)
  {
    BacklogAfter(rows, size, batches);
    CeilBound(|Backlog(rows)|, size, |batches|);
  }

  /** What is left after the cycles is what was not sent. */
  lemma {:induction false} LeftOver(rows: Rows, size: nat, batches: seq<seq<nat>>)
    requires Cycles(rows, size, batches)
    ensures Backlog(AfterCycles(rows, size, batches)) == Backlog(rows) - SetOf(Sent(batches))
    decreases |batches|
  {
    if batches != [] {
      BacklogAfterMark(rows, batches[0]);
      LeftOver(Mark(rows, batches[0]), size, batches[1..]);
      SetOfConcat(batches[0], Sent(batches[1..]));
    }
  }

  /** What was sent: backlog rows, each once, oldest first. */
  lemma {:induction false} SentOnceInOrder(rows: Rows, size: nat, batches: seq<seq<nat>>)
    requires Cycles(rows, size, batches)
    ensures var sent := Sent(batches);
      SetOf(sent) <= Backlog(rows) && Distinct(sent) && InTable(rows, sent) && InOrder(rows, sent)
    decreases |batches|
  {
    if batches != [] {
      var a, rest := batches[0], Sent(batches[1..]);
      SentOnceInOrder(Mark(rows, a), size, batches[1..]);
      BacklogAfterMark(rows, a);
      BatchOfBacklog(rows, size, a);
      SentAfter(rows, size, a, rest);
      SetOfConcat(a, rest);
    }
  }

  lemma SentAfter(rows: Rows, size: nat, a: seq<nat>, rest: seq<nat>)
    requires IsBatch(rows, {}, size, a)
    requires SetOf(rest) <= Backlog(rows) - SetOf(a) && Distinct(rest)
    requires InTable(rows, rest) && InOrder(Mark(rows, a), rest)
    ensures Distinct(a + rest) && InTable(rows, a + rest) && InOrder(rows, a + rest)
  {
    forall i | 0 <= i < |rest| ensures rest[i] !in a && Available(rows, {}, rest[i]) {
      assert rest[i] in SetOf(rest);
    }
    OrderUnchanged(rows, a, rest);
    SentConcat(rows, a, rest);
  }

  lemma OrderUnchanged(rows: Rows, a: seq<nat>, b: seq<nat>)
    requires InTable(rows, a) && InTable(rows, b) && InOrder(Mark(rows, a), b)
    ensures InOrder(rows, b)
  {
  }

  lemma SentConcat(rows: Rows, a: seq<nat>, b: seq<nat>)
    requires Distinct(a) && Distinct(b) && (forall i :: 0 <= i < |b| ==> b[i] !in a)
    requires InTable(rows, a) && InTable(rows, b) && InOrder(rows, a) && InOrder(rows, b)
    requires forall i, j :: 0 <= i < |a| && 0 <= j < |b| ==> rows[a[i]].createdAt <= rows[b[j]].createdAt
    ensures Distinct(a + b) && InTable(rows, a + b) && InOrder(rows, a + b)
  {
  }
}

/** Every cycle of the outbox worker, however it ends, is one of the protocol's outbox sequences. */
module OutboxInProtocol {
  import opened Events
  import opened Delivery
  import opened DeliverySafety
  import opened Sequences
  import O = Outbox

  /** The table and the stream as the protocol sees them: a log row per table row, the same rows published and
      locked, and each message with subject and payload of the row it came from. */
  ghost predicate Mirrors(rows: O.Rows, messages: seq<O.Message>, locked: set<nat>, s: State) {
    && |rows| == |s.log| && (forall r: nat :: r < |rows| ==> (rows[r].published <==> r in s.published))
    && s.locks.Keys == locked && Encodes(rows, messages, s.stream)
  }

  ghost predicate Encodes(rows: O.Rows, messages: seq<O.Message>, stream: seq<nat>) {
    && |messages| == |stream|
    && (forall m :: 0 <= m < |messages| ==>
          stream[m] < |rows|
          && messages[m].subject == rows[stream[m]].subject && messages[m].data == rows[stream[m]].payload)
  }

  function Sends(w: nat, n: nat): seq<Outbox> {
    if n == 0 then [] else Sends(w, n - 1) + [Send(w)]
  }

  /** How a cycle ends after its last successful publish. */
  function End(w: nat, size: nat, budget: nat, stored: bool, commits: bool): Outbox {
    if budget < size then SendFails(w, stored) else if commits then CommitBatch(w) else RollBack(w)
  }

  /** The steps a cycle consists of: none when nothing is to be sent. */
  function StepsOf(w: nat, batch: seq<nat>, budget: nat, stored: bool, commits: bool): seq<Outbox> {
    if batch == [] then []
    else [Lock(w, batch)] + Sends(w, O.Min(budget, |batch|)) + [End(w, |batch|, budget, stored, commits)]
  }

  ghost predicate Relayed(s: State, steps: seq<Outbox>, s': State)
    decreases |steps|
  {
    if steps == [] then s' == s
    else OutboxEnabled(s, steps[0]) && Relayed(DoOutbox(s, steps[0]), steps[1..], s')
  }

  lemma {:induction false} RelayedConcat(s: State, a: seq<Outbox>, s1: State, b: seq<Outbox>, s2: State)
    requires Relayed(s, a, s1) && Relayed(s1, b, s2)
    ensures Relayed(s, a + b, s2)
    decreases |a|
  {
    if a == [] {
      assert a + b == b;
    } else {
      assert (a + b)[1..] == a[1..] + b;
      RelayedConcat(DoOutbox(s, a[0]), a[1..], s1, b, s2);
    }
  }

  lemma RelayedOne(s: State, t: Outbox)
    requires OutboxEnabled(s, t)
    ensures Relayed(s, [t], DoOutbox(s, t))
  {
    assert [t][1..] == [];
  }

  /** The state while the worker's batch is open and so many of its rows are sent. */
  function Opened(locked: State, w: nat, batch: seq<nat>, sent: nat): State
    requires sent <= |batch|
  {
    locked.(stream := locked.stream + batch[..sent], batches := locked.batches[w := Batch(batch, sent)])
  }

  lemma SendOne(locked: State, w: nat, batch: seq<nat>, k: nat)
    requires k < |batch|
    ensures Relayed(Opened(locked, w, batch, k), [Send(w)], Opened(locked, w, batch, k + 1))
  {
    var s1 := Opened(locked, w, batch, k);
    assert batch[..k + 1] == batch[..k] + [batch[k]];
    Regroup(locked.stream, batch[..k], [batch[k]]);
    assert DoOutbox(s1, Send(w)) == Opened(locked, w, batch, k + 1);
    RelayedOne(s1, Send(w));
  }

  lemma Regroup(a: seq<nat>, b: seq<nat>, c: seq<nat>)
    ensures a + b + c == a + (b + c)
  {
  }

  lemma {:induction false} SendSome(locked: State, w: nat, batch: seq<nat>, n: nat)
    requires n <= |batch|
    ensures Relayed(Opened(locked, w, batch, 0), Sends(w, n), Opened(locked, w, batch, n))
  {
    if n > 0 {
      SendSome(locked, w, batch, n - 1);
      SendOne(locked, w, batch, n - 1);
      RelayedConcat(Opened(locked, w, batch, 0), Sends(w, n - 1), Opened(locked, w, batch, n - 1), [Send(w)],
                    Opened(locked, w, batch, n));
    }
  }

  /** Closing the batch takes back what locking it changed. */
  ghost predicate ClosesTo(locked: State, w: nat, batch: seq<nat>, sent: nat, s: State)
    requires sent <= |batch|
  {
    Close(Opened(locked, w, batch, sent), w) == s.(stream := s.stream + batch[..sent])
  }

  lemma Unlocked(s: State, w: nat, batch: seq<nat>, sent: nat)
    requires LocksHeld(s) && OutboxEnabled(s, Lock(w, batch)) && sent <= |batch|
    ensures ClosesTo(DoOutbox(s, Lock(w, batch)), w, batch, sent, s)
  {
    assert forall r :: r in s.locks ==> r !in batch && s.locks[r] != w;
    var closed := Close(Opened(DoOutbox(s, Lock(w, batch)), w, batch, sent), w);
    assert closed.locks == s.locks;
    assert closed.batches == s.batches;
  }

  /** What the protocol's state is after the cycle: k copies in the stream, published or undone. */
  function Cycled(s: State, batch: seq<nat>, k: nat, published: bool): State
    requires k <= |batch|
  {
    if published then s.(stream := s.stream + batch[..k], published := s.published + (set r | r in batch))
    else s.(stream := s.stream + batch[..k], undone := s.undone + multiset(batch[..k]))
  }

  lemma UndoOpened(s: State, locked: State, w: nat, batch: seq<nat>, sent: nat, extra: seq<nat>)
    requires sent + |extra| <= |batch| && extra == batch[sent..sent + |extra|]
    requires ClosesTo(locked, w, batch, sent, s)
    ensures Undo(Opened(locked, w, batch, sent), w, extra) == Cycled(s, batch, sent + |extra|, false)
  {
    assert batch[..sent + |extra|] == batch[..sent] + extra;
    Regroup(s.stream, batch[..sent], extra);
  }

  lemma EndFails(s: State, locked: State, w: nat, batch: seq<nat>, sent: nat, stored: bool)
    requires sent < |batch| && ClosesTo(locked, w, batch, sent, s)
    ensures var s1 := Opened(locked, w, batch, sent);
      Relayed(s1, [SendFails(w, stored)], Cycled(s, batch, if stored then sent + 1 else sent, false))
  {
    var extra := if stored then [batch[sent]] else [];
    UndoOpened(s, locked, w, batch, sent, extra);
    RelayedOne(Opened(locked, w, batch, sent), SendFails(w, stored));
  }

  lemma EndCommits(s: State, locked: State, w: nat, batch: seq<nat>)
    requires ClosesTo(locked, w, batch, |batch|, s)
    ensures Relayed(Opened(locked, w, batch, |batch|), [CommitBatch(w)], Cycled(s, batch, |batch|, true))
  {
    RelayedOne(Opened(locked, w, batch, |batch|), CommitBatch(w));
  }

  lemma EndRollsBack(s: State, locked: State, w: nat, batch: seq<nat>)
    requires ClosesTo(locked, w, batch, |batch|, s)
    ensures Relayed(Opened(locked, w, batch, |batch|), [RollBack(w)], Cycled(s, batch, |batch|, false))
  {
    UndoOpened(s, locked, w, batch, |batch|, []);
    RelayedOne(Opened(locked, w, batch, |batch|), RollBack(w));
  }

  lemma EndStep(s: State, locked: State, w: nat, batch: seq<nat>, budget: nat, stored: bool, commits: bool)
    requires ClosesTo(locked, w, batch, O.Min(budget, |batch|), s)
    ensures Relayed(Opened(locked, w, batch, O.Min(budget, |batch|)), [End(w, |batch|, budget, stored, commits)],
                    Cycled(s, batch, O.Stored(budget, stored, |batch|), budget >= |batch| && commits))
  {
    if budget < |batch| {
      EndFails(s, locked, w, batch, budget, stored);
    } else if commits {
      EndCommits(s, locked, w, batch);
    } else {
      EndRollsBack(s, locked, w, batch);
    }
  }

  /** Lock, one send per row, and commit, failed send or rollback: possible, with the effect stated. */
  lemma CycleIsProtocolSequence(s: State, w: nat, batch: seq<nat>, budget: nat, stored: bool, commits: bool)
    requires LocksHeld(s) && OutboxEnabled(s, Lock(w, batch))
    ensures Relayed(s, StepsOf(w, batch, budget, stored, commits),
                    Cycled(s, batch, O.Stored(budget, stored, |batch|), budget >= |batch| && commits))
  {
    var n, end := O.Min(budget, |batch|), End(w, |batch|, budget, stored, commits);
    var locked := DoOutbox(s, Lock(w, batch));
    var s1, s2 := Opened(locked, w, batch, 0), Opened(locked, w, batch, n);
    assert locked.stream + batch[..0] == locked.stream && s1 == locked;
    RelayedOne(s, Lock(w, batch));
    SendSome(locked, w, batch, n);
    RelayedConcat(s, [Lock(w, batch)], s1, Sends(w, n), s2);
    Unlocked(s, w, batch, n);
    EndStep(s, locked, w, batch, budget, stored, commits);
    RelayedConcat(s, [Lock(w, batch)] + Sends(w, n), s2, [end],
                  Cycled(s, batch, O.Stored(budget, stored, |batch|), budget >= |batch| && commits));
  }

  /** The query's rows are lockable in the protocol. */
  lemma BatchLockable(rows: O.Rows, messages: seq<O.Message>, locked: set<nat>, s: State, size: nat, batch: seq<nat>,
                      w: nat)
    requires Mirrors(rows, messages, locked, s) && O.IsBatch(rows, locked, size, batch)
    requires batch != [] && w !in s.batches
    ensures OutboxEnabled(s, Lock(w, batch))
  {
    forall i | 0 <= i < |batch| ensures batch[i] < |s.log| && batch[i] !in s.published && batch[i] !in s.locks {
      assert O.Available(rows, locked, batch[i]);
    }
  }

  lemma EncodesConcat(rows: O.Rows, a: seq<O.Message>, x: seq<nat>, b: seq<O.Message>, y: seq<nat>)
    requires Encodes(rows, a, x) && Encodes(rows, b, y)
    ensures Encodes(rows, a + b, x + y)
  {
  }

  lemma EncodesMarked(rows: O.Rows, messages: seq<O.Message>, stream: seq<nat>, batch: seq<nat>)
    requires Encodes(rows, messages, stream) && O.InTable(rows, batch)
    ensures Encodes(O.Mark(rows, batch), messages, stream)
  {
  }

  lemma EncodesAfter(rows: O.Rows, messages: seq<O.Message>, stream: seq<nat>, batch: seq<nat>, k: nat, rows': O.Rows)
    requires Encodes(rows, messages, stream) && O.InTable(rows, batch) && k <= |batch|
    requires rows' == O.Mark(rows, batch) || rows' == rows
    ensures Encodes(rows', messages + O.Encoded(rows, batch)[..k], stream + batch[..k])
  {
    assert Encodes(rows, O.Encoded(rows, batch)[..k], batch[..k]);
    EncodesConcat(rows, messages, stream, O.Encoded(rows, batch)[..k], batch[..k]);
    EncodesMarked(rows, messages + O.Encoded(rows, batch)[..k], stream + batch[..k], batch);
  }

  lemma MirrorsAfter(rows: O.Rows, messages: seq<O.Message>, locked: set<nat>, s: State, batch: seq<nat>, k: nat,
                     published: bool, rows': O.Rows, messages': seq<O.Message>)
    requires Mirrors(rows, messages, locked, s) && O.InTable(rows, batch) && k <= |batch|
    requires rows' == if published then O.Mark(rows, batch) else rows
    requires messages' == messages + O.Encoded(rows, batch)[..k]
    ensures Mirrors(rows', messages', locked, Cycled(s, batch, k, published))
  {
    EncodesAfter(rows, messages, s.stream, batch, k, rows');
  }

  /** Whatever its query returned, whenever the stream refuses and whether or not the commit holds: a cycle of
      the worker is a sequence of the protocol's steps that changes table and stream as the program does. */
  lemma CycleInProtocol(rows: O.Rows, messages: seq<O.Message>, rows': O.Rows, messages': seq<O.Message>,
                        locked: set<nat>, size: nat, batch: seq<nat>, budget: nat, stored: bool, commits: bool,
                        s: State, w: nat) returns (s': State)
    requires Mirrors(rows, messages, locked, s) && LocksHeld(s) && w !in s.batches
    requires O.IsBatch(rows, locked, size, batch)
    requires O.CycleEffect(rows, messages, rows', messages', batch, budget, stored, commits)
    ensures Relayed(s, StepsOf(w, batch, budget, stored, commits), s')
    ensures Mirrors(rows', messages', locked, s')
    ensures s' == if batch == [] then s
                  else Cycled(s, batch, O.Stored(budget, stored, |batch|), budget >= |batch| && commits)
  {
    if batch == [] {
      s' := s;
      assert O.Encoded(rows, batch) == [] && messages' == messages;
    } else {
      var k, published := O.Stored(budget, stored, |batch|), budget >= |batch| && commits;
      BatchLockable(rows, messages, locked, s, size, batch, w);
      CycleIsProtocolSequence(s, w, batch, budget, stored, commits);
      s' := Cycled(s, batch, k, published);
      assert k == |batch| ==> O.Encoded(rows, batch)[..k] == O.Encoded(rows, batch);
      MirrorsAfter(rows, messages, locked, s, batch, k, published, rows', messages');
    }
  }

  /** Table, stream and protocol agree, and no worker has a batch open. */
  ghost predicate AtRest(rows: O.Rows, messages: seq<O.Message>, s: State) {
    Mirrors(rows, messages, {}, s) && s.batches == map[]
  }

  lemma DrainingCycle(rows: O.Rows, messages: seq<O.Message>, s: State, size: nat, batch: seq<nat>, w: nat)
    returns (messages': seq<O.Message>, s': State)
    requires AtRest(rows, messages, s) && O.IsBatch(rows, {}, size, batch)
    ensures Relayed(s, StepsOf(w, batch, |batch|, false, true), s')
    ensures AtRest(O.Mark(rows, batch), messages', s') && s'.stream == s.stream + batch
  {
    assert s.locks == map[];
    messages' := messages + O.Encoded(rows, batch);
    s' := CycleInProtocol(rows, messages, O.Mark(rows, batch), messages', {}, size, batch, |batch|, false, true, s, w);
    assert batch[..|batch|] == batch;
  }

  /** The cycles that drain a backlog are a run of the protocol, which adds to the stream what they sent. */
  lemma {:induction false} DrainInProtocol(rows: O.Rows, messages: seq<O.Message>, s: State, size: nat,
                                           batches: seq<seq<nat>>, w: nat)
    returns (steps: seq<Outbox>, messages': seq<O.Message>, s': State)
    requires AtRest(rows, messages, s) && O.Cycles(rows, size, batches)
    ensures Relayed(s, steps, s') && AtRest(O.AfterCycles(rows, size, batches), messages', s')
    ensures s'.stream == s.stream + O.Sent(batches)
    decreases |batches|
  {
    if batches == [] {
      steps, messages', s' := [], messages, s;
    } else {
      var batch, rest := batches[0], batches[1..];
      var messages1, s1 := DrainingCycle(rows, messages, s, size, batch, w);
      var more;
      more, messages', s' := DrainInProtocol(O.Mark(rows, batch), messages1, s1, size, rest, w);
      steps := StepsOf(w, batch, |batch|, false, true) + more;
      RelayedConcat(s, StepsOf(w, batch, |batch|, false, true), s1, more, s');
      Regroup(s.stream, batch, O.Sent(rest));
    }
  }
}

/** What the two consumers of the stream receive of it. */
module OutboxToConsumers {
  import opened Events
  import opened Delivery
  import opened Subjects
  import opened Text
  import O = Outbox
  import P = OutboxInProtocol

  datatype Tenant = Tenant(org: string, project: string)

  predicate DotFree(t: Tenant) {
    '.' !in t.org && '.' !in t.project
  }

  /** Every row was published under its tenant's subject for its event. */
  ghost predicate Named(rows: O.Rows, log: seq<Row>, tenants: seq<Tenant>) {
    && |rows| == |log| == |tenants|
    && forall r :: 0 <= r < |rows| ==>
         rows[r].subject == Subject(tenants[r].org, tenants[r].project, EventName(log[r].event))
  }

  /** Of tenants whose ids have no dots, the processing consumer receives exactly the messages of file.uploaded rows,
      the ones the protocol delivers to handlers; and the webhook consumer receives all but those of
      file.upload.initiated, and reads tenant and event off them. Each message holds its row's payload. */
  lemma ConsumersReceive(rows: O.Rows, messages: seq<O.Message>, locked: set<nat>, s: State, tenants: seq<Tenant>,
                         m: nat)
    requires P.Mirrors(rows, messages, locked, s) && Named(rows, s.log, tenants) && m < |messages|
    ensures s.stream[m] < |s.log| && messages[m].data == rows[s.stream[m]].payload
    ensures var row, t := s.log[s.stream[m]], tenants[s.stream[m]];
      && (FilterMatches(PROCESSING_FILTER, Split(messages[m].subject, '.')) <==> DotFree(t) && row.event == Uploaded)
      && (FilterMatches(WEBHOOK_FILTER, Split(messages[m].subject, '.'))
          <==> DotFree(t) && row.event != UploadInitiated)
      && (FilterMatches(WEBHOOK_FILTER, Split(messages[m].subject, '.')) ==>
            Parse(messages[m].subject) == Parsed(t.org, t.project, EventName(row.event)))
  {
    var row, t := s.log[s.stream[m]], tenants[s.stream[m]];
    ProcessingReceives(t.org, t.project, row.event);
    WebhookReceives(t.org, t.project, row.event);
  }

  /** So a handler can be started for a message exactly when it is not acknowledged and the processing consumer
      receives it. */
  lemma DeliveredExactly(rows: O.Rows, messages: seq<O.Message>, locked: set<nat>, s: State, tenants: seq<Tenant>,
                         m: nat, k: nat)
    requires P.Mirrors(rows, messages, locked, s) && Named(rows, s.log, tenants) && m < |messages|
    requires k !in s.runs && forall t :: t in tenants ==> DotFree(t)
    ensures HandlerEnabled(s, Deliver(k, m))
            <==> m !in s.acked && FilterMatches(PROCESSING_FILTER, Split(messages[m].subject, '.'))
  {
    ConsumersReceive(rows, messages, locked, s, tenants, m);
    assert tenants[s.stream[m]] in tenants;
  }
}
