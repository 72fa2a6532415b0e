/** backend/app/workers/webhook.py: delivery attempts and acknowledgement. */
module Webhooks {
  import opened Options
  import opened Csv

  datatype HttpReply = Responded(code: int) | HttpError

  predicate Success(r: HttpReply) {
    r.Responded? && 200 <= r.code < 300
  }

  /** A webhook_deliveries row; retryAfter is the delay behind next_retry_at. */
  datatype Delivery = Delivery(webhook: nat, succeeded: bool, attempt: nat, retryAfter: Option<nat>)

  datatype Ending = Delivered | Exhausted | IndexError

  const MAX_ATTEMPTS := 3
  const RETRY_DELAYS: seq<nat> := [30, 60, 120]

  /** The rows one delivery leaves: numbered from 1, all failed but possibly the last, a retry time on exactly
      the failed ones before the bound; and how the delivery ended. */
  ghost predicate Attempts(rows: seq<Delivery>, webhook: nat, replies: seq<HttpReply>, maxAttempts: nat,
                           delays: seq<nat>, ending: Ending)
    requires |replies| >= maxAttempts
  {
    && |rows| <= maxAttempts
    && (forall i :: 0 <= i < |rows| ==>
          && rows[i].webhook == webhook && rows[i].attempt == i + 1
          && rows[i].succeeded == Success(replies[i])
          && (rows[i].succeeded ==> i == |rows| - 1)
          && (rows[i].retryAfter.Some? <==> !rows[i].succeeded && i + 1 < maxAttempts)
          && (rows[i].retryAfter.Some? ==> i < |delays| && rows[i].retryAfter.value == delays[i]))
    && (ending.Delivered? <==> |rows| > 0 && rows[|rows| - 1].succeeded)
    && (ending.Exhausted? ==> |rows| == maxAttempts)
    && (ending.IndexError? ==> |rows| == |delays| < maxAttempts - 1 && !Success(replies[|rows|]))
  }

  ghost predicate Ended(rows: seq<Delivery>, webhook: nat, replies: seq<HttpReply>, maxAttempts: nat, delays: seq<nat>)
    requires |replies| >= maxAttempts
  {
    exists ending :: Attempts(rows, webhook, replies, maxAttempts, delays, ending)
  }

  /** The rows of a delivery that is still trying: failures only. */
  ghost predicate StillTrying(rows: seq<Delivery>, webhook: nat, replies: seq<HttpReply>, maxAttempts: nat,
                              delays: seq<nat>)
    requires |replies| >= maxAttempts
  {
    && |rows| <= maxAttempts
    && (|rows| < maxAttempts ==> |rows| <= |delays|)
    && forall i :: 0 <= i < |rows| ==>
         && !Success(replies[i]) && rows[i].webhook == webhook && rows[i].attempt == i + 1 && !rows[i].succeeded
         && (if i + 1 < maxAttempts then i < |delays| && rows[i].retryAfter == Some(delays[i])
             else rows[i].retryAfter.None?)
  }

  /** Every delivery succeeds or uses all its attempts exactly when it never needs a delay the table lacks;
      the deployed table has one delay more than it needs. */
  lemma DeliveredOrExhausted(rows: seq<Delivery>, webhook: nat, replies: seq<HttpReply>, maxAttempts: nat,
                             delays: seq<nat>, ending: Ending)
    requires |replies| >= maxAttempts && Attempts(rows, webhook, replies, maxAttempts, delays, ending)
    ensures !ending.IndexError?
            <==> |delays| + 1 >= maxAttempts || exists i :: 0 <= i <= |delays| && Success(replies[i])
    ensures ending.Exhausted? ==> forall i :: 0 <= i < maxAttempts ==> !Success(replies[i])
    ensures ending.Delivered? ==>
              exists i :: 0 <= i < maxAttempts && Success(replies[i]) && forall j :: 0 <= j < i ==> !Success(replies[j])
    ensures |RETRY_DELAYS| + 1 > MAX_ATTEMPTS
  {
    assert forall i :: 0 <= i < |rows| - 1 ==> !rows[i].succeeded && !Success(replies[i]);
    assert |rows| >= 2 ==> rows[|rows| - 2].retryAfter.Some?;
    match ending {
      case Delivered =>
        assert Success(replies[|rows| - 1]);
      case Exhausted =>
        assert |rows| > 0 ==> !rows[|rows| - 1].succeeded;
      case IndexError =>
        assert |rows| > 0 ==> !rows[|rows| - 1].succeeded;
    }
  }

  /** A row says success exactly for an answer with a status code from 200 to 299. */
  lemma SucceededExactly(rows: seq<Delivery>, webhook: nat, replies: seq<HttpReply>, maxAttempts: nat,
                         delays: seq<nat>, i: nat)
    requires |replies| >= maxAttempts && Begun(rows, webhook, replies, maxAttempts, delays) && i < |rows|
    ensures rows[i].succeeded <==> replies[i].Responded? && 200 <= replies[i].code <= 299
    ensures rows[i].webhook == webhook && rows[i].attempt == i + 1
  {
  }

  /** As deployed: at most three attempts, the second 30 seconds after a failed first one, the third 60 seconds after a
      failed second one, and none after the third; every delivery ends delivered or exhausted. */
  lemma DeployedSchedule(rows: seq<Delivery>, webhook: nat, replies: seq<HttpReply>, ending: Ending)
    requires |replies| >= MAX_ATTEMPTS && Attempts(rows, webhook, replies, MAX_ATTEMPTS, RETRY_DELAYS, ending)
    ensures 1 <= |rows| <= 3 && (ending.Delivered? || ending.Exhausted?)
    ensures |rows| > 1 ==> rows[0].retryAfter == Some(30)
    ensures |rows| > 2 ==> rows[1].retryAfter == Some(60) && rows[2].retryAfter == None
    ensures |rows| < 3 ==> ending.Delivered?
  {
    DeliveredOrExhausted(rows, webhook, replies, MAX_ATTEMPTS, RETRY_DELAYS, ending);
  }

  class DeliveryTable {
    var rows: seq<Delivery>

    constructor ()
      ensures rows == []
    {
      rows := [];
    }

    /** One turn of the attempt loop of _deliver_with_retry, for any attempt bound and delay table. A missing
        delay raises before the row of that attempt is written. */
    method Attempt(webhook: nat, attempt: nat, reply: HttpReply, maxAttempts: nat, delays: seq<nat>)
      returns (ending: Option<Ending>)
      requires 1 <= attempt <= maxAttempts
      modifies this
      ensures ending == if Success(reply) then Some(Delivered)
                        else if attempt < maxAttempts && attempt > |delays| then Some(IndexError)
                        else None
      ensures rows == old(rows) + if ending == Some(IndexError) then []
                                  else [Delivery(webhook, Success(reply), attempt,
                                                 if Success(reply) || attempt == maxAttempts then None
                                                 else Some(delays[attempt - 1]))]
    {
      var succeeded := Success(reply);
      var isLastAttempt := attempt >= maxAttempts;
      var retryAfter: Option<nat> := None;
      if !succeeded && !isLastAttempt {
        if attempt - 1 >= |delays| {
          return Some(IndexError);
        }
        retryAfter := Some(delays[attempt - 1]);
      }
      rows := rows + [Delivery(webhook, succeeded, attempt, retryAfter)];
      ending := if succeeded then Some(Delivered) else None;
    }

    /** _deliver_with_retry on its own; `replies` holds what the endpoint answers to each attempt. */
    method DeliverWithRetry(webhook: nat, replies: seq<HttpReply>, maxAttempts: nat, delays: seq<nat>)
      returns (ending: Ending)
      requires |replies| >= maxAttempts
      modifies this
      ensures old(rows) <= rows
      ensures Attempts(rows[|old(rows)|..], webhook, replies, maxAttempts, delays, ending)
      ensures forall i :: |old(rows)| <= i < |rows| ==>
                var reply := replies[i - |old(rows)|];
                rows[i].succeeded <==> reply.Responded? && 200 <= reply.code <= 299
    {
      ghost var added: seq<Delivery> := [];
      for attempt := 1 to maxAttempts + 1
        invariant rows == old(rows) + added && |added| == attempt - 1
        invariant StillTrying(added, webhook, replies, maxAttempts, delays)
      {
        var outcome := Attempt(webhook, attempt, replies[attempt - 1], maxAttempts, delays);
        if outcome != Some(IndexError) {
          added := added + [rows[|rows| - 1]];
        }
        assert rows == old(rows) + added;
        if outcome.Some? {
          return outcome.value;
        }
      }
      return Exhausted;
    }
  }

  datatype Webhook = Webhook(id: nat, events: string)

  /** The rows of one webhook, in order. */
  function RowsOf(rows: seq<Delivery>, webhook: nat): seq<Delivery> {
    if rows == [] then []
    else RowsOf(rows[..|rows| - 1], webhook)
         + (if rows[|rows| - 1].webhook == webhook then [rows[|rows| - 1]] else [])
  }

  lemma RowsOfPush(rows: seq<Delivery>, row: Delivery, webhook: nat)
    ensures RowsOf(rows + [row], webhook) == RowsOf(rows, webhook) + if row.webhook == webhook then [row] else []
  {
  }

  /** The asyncio task delivering to one webhook. */
  datatype Task = Task(hook: Webhook, made: nat, ending: Option<Ending>)

  /** How many turns the tasks can still take. */
  function Work(tasks: seq<Task>, maxAttempts: nat): nat {
    if tasks == [] then 0
    else Work(tasks[..|tasks| - 1], maxAttempts)
         + (var t := tasks[|tasks| - 1];
            if t.ending.Some? || t.made > maxAttempts then 0 else 1 + maxAttempts - t.made)
  }

  lemma {:induction false} WorkShrinks(tasks: seq<Task>, i: nat, t: Task, maxAttempts: nat)
    requires i < |tasks| && tasks[i].ending.None? && tasks[i].made <= maxAttempts
    requires t.ending.Some? || t.made == tasks[i].made + 1
    ensures Work(tasks[i := t], maxAttempts) < Work(tasks, maxAttempts)
  {
    var last := |tasks| - 1;
    if i == last {
      assert tasks[i := t][..last] == tasks[..last];
    } else {
      WorkShrinks(tasks[..last], i, t, maxAttempts);
      assert tasks[i := t][..last] == tasks[..last][i := t];
    }
  }

  /** A task's own rows agree with how far it has come. */
  ghost predicate TaskState(t: Task, added: seq<Delivery>, replies: seq<HttpReply>, maxAttempts: nat, delays: seq<nat>)
    requires |replies| >= maxAttempts
  {
    var own := RowsOf(added, t.hook.id);
    if t.ending.Some? then Attempts(own, t.hook.id, replies, maxAttempts, delays, t.ending.value)
    else t.made == |own| && StillTrying(own, t.hook.id, replies, maxAttempts, delays)
  }

  /** The deliveries to start, in the order the webhooks were loaded. */
  function Matching(webhooks: seq<Webhook>, event: string): seq<Webhook> {
    if webhooks == [] then []
    else Matching(webhooks[..|webhooks| - 1], event)
         + (if EventMatches(webhooks[|webhooks| - 1].events, event) then [webhooks[|webhooks| - 1]] else [])
  }

  ghost predicate DistinctIds(webhooks: seq<Webhook>) {
    forall i, j :: 0 <= i < j < |webhooks| ==> webhooks[i].id != webhooks[j].id
  }

  lemma {:induction false} MatchingMembers(webhooks: seq<Webhook>, event: string)
    ensures forall w :: w in Matching(webhooks, event) <==> w in webhooks && EventMatches(w.events, event)
  {
    if webhooks != [] {
      MatchingMembers(webhooks[..|webhooks| - 1], event);
      assert webhooks == webhooks[..|webhooks| - 1] + [webhooks[|webhooks| - 1]];
    }
  }

  lemma {:induction false} MatchingDistinct(webhooks: seq<Webhook>, event: string)
    requires DistinctIds(webhooks)
    ensures DistinctIds(Matching(webhooks, event))
  {
    if webhooks != [] {
      var front, last := webhooks[..|webhooks| - 1], webhooks[|webhooks| - 1];
      MatchingDistinct(front, event);
      MatchingMembers(front, event);
      var rest := Matching(front, event);
      forall i | 0 <= i < |rest| ensures rest[i].id != last.id {
        assert rest[i] in rest;
        var j :| 0 <= j < |front| && front[j] == rest[i];
        assert webhooks[j] == front[j];
      }
    }
  }

  lemma {:induction false} MatchingExactly(webhooks: seq<Webhook>, event: string)
    requires DistinctIds(webhooks)
    ensures forall w :: w in Matching(webhooks, event) <==> w in webhooks && EventMatches(w.events, event)
    ensures DistinctIds(Matching(webhooks, event))
  {
    MatchingMembers(webhooks, event);
    MatchingDistinct(webhooks, event);
  }

  /** One turn of one task, on the task's own rows. */
  lemma OneTurn(t: Task, added: seq<Delivery>, row: Delivery, replies: seq<HttpReply>, maxAttempts: nat,
                delays: seq<nat>, outcome: Option<Ending>)
    requires |replies| >= maxAttempts && TaskState(t, added, replies, maxAttempts, delays)
    requires t.ending.None? && t.made < maxAttempts
    requires outcome == if Success(replies[t.made]) then Some(Delivered)
                        else if t.made + 1 < maxAttempts && t.made + 1 > |delays| then Some(IndexError) else None
    requires outcome != Some(IndexError) ==>
               row == Delivery(t.hook.id, Success(replies[t.made]), t.made + 1,
                               if Success(replies[t.made]) || t.made + 1 == maxAttempts then None
                               else Some(delays[t.made]))
    ensures TaskState(t.(made := t.made + 1, ending := outcome),
                      added + if outcome == Some(IndexError) then [] else [row], replies, maxAttempts, delays)
  {
    if outcome == Some(IndexError) {
      assert added + [] == added;
    } else {
      RowsOfPush(added, row, t.hook.id);
    }
  }

  lemma ConcatAssociates(a: seq<Delivery>, b: seq<Delivery>, c: seq<Delivery>)
    ensures (a + b) + c == a + (b + c)
  {
  }

  /** Some task's turn: it ends without an attempt, or makes one and commits its row. */
  method Turn(table: DeliveryTable, t: Task, replies: seq<HttpReply>, maxAttempts: nat, delays: seq<nat>,
              ghost added: seq<Delivery>)
    returns (next: Task, ghost more: seq<Delivery>)
    requires |replies| >= maxAttempts && t.ending.None?
    requires TaskState(t, added, replies, maxAttempts, delays)
    modifies table
    ensures table.rows == old(table.rows) + more
    ensures |more| <= 1 && forall row :: row in more ==> row.webhook == t.hook.id
    ensures next.hook == t.hook && (next.ending.Some? || next.made == t.made + 1)
    ensures TaskState(next, added + more, replies, maxAttempts, delays)
    ensures forall id :: id != t.hook.id ==> RowsOf(added + more, id) == RowsOf(added, id)
  {
    if t.made >= maxAttempts {
      more := [];
      assert added + more == added;
      return t.(ending := Some(Exhausted)), more;
    }
    var outcome := table.Attempt(t.hook.id, t.made + 1, replies[t.made], maxAttempts, delays);
    next := t.(made := t.made + 1, ending := outcome);
    ghost var row := if outcome == Some(IndexError) then Delivery(0, false, 0, None) else table.rows[|table.rows| - 1];
    more := if outcome == Some(IndexError) then [] else [row];
    OneTurn(t, added, row, replies, maxAttempts, delays, outcome);
    forall id | id != t.hook.id ensures RowsOf(added + more, id) == RowsOf(added, id) {
      RowsOfPush(added, row, id);
      assert added + [] == added;
    }
  }

  /** All tasks agree with the rows added so far, and nobody else has any. */
  ghost predicate Underway(tasks: seq<Task>, hooks: seq<Webhook>, added: seq<Delivery>,
                           replies: map<nat, seq<HttpReply>>, maxAttempts: nat, delays: seq<nat>)
    requires forall w :: w in hooks ==> w.id in replies && |replies[w.id]| >= maxAttempts
  {
    && |tasks| == |hooks|
    && (forall i :: 0 <= i < |tasks| ==>
          tasks[i].hook == hooks[i] && TaskState(tasks[i], added, replies[hooks[i].id], maxAttempts, delays))
    && (forall id :: (forall i :: 0 <= i < |hooks| ==> hooks[i].id != id) ==> RowsOf(added, id) == [])
  }

  lemma TurnKeepsUnderway(tasks: seq<Task>, hooks: seq<Webhook>, added: seq<Delivery>, more: seq<Delivery>, i: nat,
                          next: Task, replies: map<nat, seq<HttpReply>>, maxAttempts: nat, delays: seq<nat>)
    requires DistinctIds(hooks)
    requires forall w :: w in hooks ==> w.id in replies && |replies[w.id]| >= maxAttempts
    requires Underway(tasks, hooks, added, replies, maxAttempts, delays)
    requires i < |tasks| && next.hook == tasks[i].hook
    requires TaskState(next, added + more, replies[hooks[i].id], maxAttempts, delays)
    requires forall id :: id != next.hook.id ==> RowsOf(added + more, id) == RowsOf(added, id)
    ensures Underway(tasks[i := next], hooks, added + more, replies, maxAttempts, delays)
  {
  }

  /** The handler may have died on this webhook: its rows are those of a delivery that is still trying, or
      that has ended. */
  ghost predicate Begun(rows: seq<Delivery>, webhook: nat, replies: seq<HttpReply>, maxAttempts: nat, delays: seq<nat>)
    requires |replies| >= maxAttempts
  {
    StillTrying(rows, webhook, replies, maxAttempts, delays) || Ended(rows, webhook, replies, maxAttempts, delays)
  }

  /** What the rows added for the started deliveries say, when all have ended or when some may not have. */
  ghost predicate RowsTell(hooks: seq<Webhook>, added: seq<Delivery>, replies: map<nat, seq<HttpReply>>,
                           maxAttempts: nat, delays: seq<nat>, all: bool)
    requires forall w :: w in hooks ==> w.id in replies && |replies[w.id]| >= maxAttempts
  {
    && (forall w :: w in hooks ==>
          var own := RowsOf(added, w.id);
          if all then Ended(own, w.id, replies[w.id], maxAttempts, delays)
          else Begun(own, w.id, replies[w.id], maxAttempts, delays))
    && (forall id :: (forall i :: 0 <= i < |hooks| ==> hooks[i].id != id) ==> RowsOf(added, id) == [])
  }

  /** The turn of the i-th task. */
  method NextTurn(table: DeliveryTable, tasks: seq<Task>, i: nat, ghost hooks: seq<Webhook>, ghost added: seq<Delivery>,
                  replies: map<nat, seq<HttpReply>>, maxAttempts: nat, delays: seq<nat>)
    returns (tasks': seq<Task>, ghost more: seq<Delivery>)
    requires forall w :: w in hooks ==> w.id in replies && |replies[w.id]| >= maxAttempts
    requires DistinctIds(hooks) && Underway(tasks, hooks, added, replies, maxAttempts, delays)
    requires i < |tasks| && tasks[i].ending.None?
    modifies table
    ensures table.rows == old(table.rows) + more
    ensures Underway(tasks', hooks, added + more, replies, maxAttempts, delays)
    ensures Work(tasks', maxAttempts) < Work(tasks, maxAttempts)
  {
    var next;
    next, more := Turn(table, tasks[i], replies[tasks[i].hook.id], maxAttempts, delays, added);
    TurnKeepsUnderway(tasks, hooks, added, more, i, next, replies, maxAttempts, delays);
    WorkShrinks(tasks, i, next, maxAttempts);
    tasks' := tasks[i := next];
  }

  /** The tasks take turns, in any order, until all have ended or the handler dies, which it does after
      `lifetime` turns. */
  method RunTasks(table: DeliveryTable, hooks: seq<Webhook>, replies: map<nat, seq<HttpReply>>, maxAttempts: nat,
                  delays: seq<nat>, lifetime: nat)
    returns (finished: bool, ghost added: seq<Delivery>)
    requires forall w :: w in hooks ==> w.id in replies && |replies[w.id]| >= maxAttempts
    requires DistinctIds(hooks)
    modifies table
    ensures table.rows == old(table.rows) + added
    ensures RowsTell(hooks, added, replies, maxAttempts, delays, finished)
    ensures lifetime >= |hooks| * (maxAttempts + 1) ==> finished
  {
    var tasks := seq(|hooks|, i requires 0 <= i < |hooks| => Task(hooks[i], 0, None));
    ghost var enough := lifetime >= |hooks| * (maxAttempts + 1);
    WorkAtMost(tasks, maxAttempts);
    added := [];
    var left: nat := lifetime;
    while exists i :: 0 <= i < |tasks| && tasks[i].ending.None?
      invariant table.rows == old(table.rows) + added
      invariant Underway(tasks, hooks, added, replies, maxAttempts, delays)
      invariant enough ==> left >= Work(tasks, maxAttempts)
      decreases left
    {
      var i: nat :| i < |tasks| && tasks[i].ending.None?;
      if left == 0 {
        WorkLeft(tasks, i, maxAttempts);
        Interrupted(tasks, hooks, added, replies, maxAttempts, delays);
        return false, added;
      }
      ghost var more;
      tasks, more := NextTurn(table, tasks, i, hooks, added, replies, maxAttempts, delays);
      ConcatAssociates(old(table.rows), added, more);
      added, left := added + more, left - 1;
    }
    AllEnded(tasks, hooks, added, replies, maxAttempts, delays);
    finished := true;
  }

  lemma {:induction false} WorkAtMost(tasks: seq<Task>, maxAttempts: nat)
    requires forall i :: 0 <= i < |tasks| ==> tasks[i].made == 0
    ensures Work(tasks, maxAttempts) <= |tasks| * (maxAttempts + 1)
  {
    if tasks != [] {
      WorkAtMost(tasks[..|tasks| - 1], maxAttempts);
      OneTaskMore(|tasks| - 1, maxAttempts + 1);
    }
  }

  lemma OneTaskMore(n: nat, m: nat)
    ensures (n + 1) * m == n * m + m
  {
  }

  /** A task that has not ended has a turn to take. */
  lemma {:induction false} WorkLeft(tasks: seq<Task>, i: nat, maxAttempts: nat)
    requires i < |tasks| && tasks[i].ending.None? && tasks[i].made <= maxAttempts
    ensures Work(tasks, maxAttempts) > 0
  {
    if i < |tasks| - 1 {
      WorkLeft(tasks[..|tasks| - 1], i, maxAttempts);
    }
  }

  lemma Interrupted(tasks: seq<Task>, hooks: seq<Webhook>, added: seq<Delivery>, replies: map<nat, seq<HttpReply>>,
                    maxAttempts: nat, delays: seq<nat>)
    requires forall w :: w in hooks ==> w.id in replies && |replies[w.id]| >= maxAttempts
    requires Underway(tasks, hooks, added, replies, maxAttempts, delays)
    ensures RowsTell(hooks, added, replies, maxAttempts, delays, false)
  {
    forall w | w in hooks ensures Begun(RowsOf(added, w.id), w.id, replies[w.id], maxAttempts, delays) {
      var i :| 0 <= i < |hooks| && hooks[i] == w;
      var t := tasks[i];
      assert TaskState(t, added, replies[w.id], maxAttempts, delays);
      if t.ending.Some? {
        assert Attempts(RowsOf(added, w.id), w.id, replies[w.id], maxAttempts, delays, t.ending.value);
      }
    }
  }

  lemma AllEnded(tasks: seq<Task>, hooks: seq<Webhook>, added: seq<Delivery>, replies: map<nat, seq<HttpReply>>,
                 maxAttempts: nat, delays: seq<nat>)
    requires forall w :: w in hooks ==> w.id in replies && |replies[w.id]| >= maxAttempts
    requires Underway(tasks, hooks, added, replies, maxAttempts, delays)
    requires forall i :: 0 <= i < |tasks| ==> tasks[i].ending.Some?
    ensures RowsTell(hooks, added, replies, maxAttempts, delays, true)
  {
    forall w | w in hooks ensures Ended(RowsOf(added, w.id), w.id, replies[w.id], maxAttempts, delays) {
      var i :| 0 <= i < |hooks| && hooks[i] == w;
      assert TaskState(tasks[i], added, replies[w.id], maxAttempts, delays);
      assert Attempts(RowsOf(added, w.id), w.id, replies[w.id], maxAttempts, delays, tasks[i].ending.value);
    }
  }

  /** _handle once the webhooks are loaded. One task per matching webhook, each turn of a task being one
      attempt with its committed row. The handler may die between turns, and then does not acknowledge. It
      acknowledges only when every matching webhook's delivery has ended, and does so if it lives long enough;
      until then each of them has the rows of a delivery begun. Webhooks that do not match get no row. */
  method Handle(table: DeliveryTable, webhooks: seq<Webhook>, event: string, replies: map<nat, seq<HttpReply>>,
                maxAttempts: nat, delays: seq<nat>, lifetime: nat)
    returns (acked: bool)
    requires forall w :: w in webhooks ==> w.id in replies && |replies[w.id]| >= maxAttempts
    requires DistinctIds(webhooks)
    modifies table
    ensures old(table.rows) <= table.rows
    ensures forall w :: w in webhooks ==>
              var own := RowsOf(table.rows[|old(table.rows)|..], w.id);
              if !EventMatches(w.events, event) then own == []
              else if acked then Ended(own, w.id, replies[w.id], maxAttempts, delays)
              else Begun(own, w.id, replies[w.id], maxAttempts, delays)
    ensures lifetime >= |Matching(webhooks, event)| * (maxAttempts + 1) ==> acked
  {
    MatchingExactly(webhooks, event);
    DistinctMatches(webhooks, event);
    var hooks := Matching(webhooks, event);
    var finished, added := RunTasks(table, hooks, replies, maxAttempts, delays, lifetime);
    ghost var more := table.rows[|old(table.rows)|..];
    assert more == added;
    forall w | w in webhooks
      ensures var own := RowsOf(more, w.id);
              if !EventMatches(w.events, event) then own == []
              else if finished then Ended(own, w.id, replies[w.id], maxAttempts, delays)
              else Begun(own, w.id, replies[w.id], maxAttempts, delays)
    {
      if EventMatches(w.events, event) {
        assert w in hooks;
      }
    }
    if !finished {
      return false;
    }
    acked := true;
  }

  /** A webhook that does not match shares its id with none that does. */
  lemma DistinctMatches(webhooks: seq<Webhook>, event: string)
    requires DistinctIds(webhooks)
    ensures var hooks := Matching(webhooks, event);
            forall w :: w in webhooks && !EventMatches(w.events, event) ==>
              forall i :: 0 <= i < |hooks| ==> hooks[i].id != w.id
  {
    MatchingExactly(webhooks, event);
    var hooks := Matching(webhooks, event);
    forall w, i | w in webhooks && !EventMatches(w.events, event) && 0 <= i < |hooks| ensures hooks[i].id != w.id {
      assert hooks[i] in webhooks && hooks[i] != w;
    }
  }
}
