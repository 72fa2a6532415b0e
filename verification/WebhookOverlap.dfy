/** backend/app/workers/webhook.py: several handlings of one message at the same time, as when the stream redelivers
    it while earlier deliveries still sleep between their attempts. */
module WebhookOverlap {
  import opened Options
  import opened Csv
  import opened Webhooks

  /** The i-th delivery that the h-th handling started. */
  datatype Owner = Owner(handling: nat, index: nat)

  /** Which delivery wrote a row the table does not say; `owners` does. These are one delivery's rows, in order. */
  ghost function Pick(rows: seq<Delivery>, owners: seq<Owner>, o: Owner): seq<Delivery>
    requires |rows| == |owners|
  {
    if rows == [] then []
    else Pick(rows[..|rows| - 1], owners[..|rows| - 1], o)
         + (if owners[|rows| - 1] == o then [rows[|rows| - 1]] else [])
  }

  ghost function Tags(more: seq<Delivery>, who: Owner): seq<Owner> {
    seq(|more|, _ => who)
  }

  lemma PickMore(rows: seq<Delivery>, owners: seq<Owner>, more: seq<Delivery>, who: Owner, o: Owner)
    requires |rows| == |owners| && |more| <= 1
    ensures Pick(rows + more, owners + Tags(more, who), o)
            == if o == who then Pick(rows, owners, o) + more else Pick(rows, owners, o)
  {
    if more == [] {
      assert rows + more == rows && owners + Tags(more, who) == owners;
    } else {
      assert (rows + more)[..|rows|] == rows && (owners + Tags(more, who))[..|rows|] == owners;
      assert more == [more[0]];
    }
  }

  lemma {:induction false} RowsAllOf(rows: seq<Delivery>, webhook: nat)
    requires forall i :: 0 <= i < |rows| ==> rows[i].webhook == webhook
    ensures RowsOf(rows, webhook) == rows
  {
    if rows != [] {
      RowsAllOf(rows[..|rows| - 1], webhook);
    }
  }

  /** A delivery's own rows agree with how far it has come. */
  ghost predicate OwnState(t: Task, own: seq<Delivery>, replies: seq<HttpReply>, maxAttempts: nat, delays: seq<nat>)
    requires |replies| >= maxAttempts
  {
    match t.ending
    case Some(ending) => Attempts(own, t.hook.id, replies, maxAttempts, delays, ending)
    case None => t.made == |own| && StillTrying(own, t.hook.id, replies, maxAttempts, delays)
  }

  /** One turn of one delivery, whatever the others have written to the table. */
  method OwnTurn(table: DeliveryTable, t: Task, replies: seq<HttpReply>, maxAttempts: nat, delays: seq<nat>,
                 ghost own: seq<Delivery>)
    returns (next: Task, ghost more: seq<Delivery>)
    requires |replies| >= maxAttempts && t.ending.None? && OwnState(t, own, replies, maxAttempts, delays)
    modifies table
    ensures table.rows == old(table.rows) + more && |more| <= 1
    ensures forall row :: row in more ==> row.webhook == t.hook.id
    ensures next.hook == t.hook && (next.ending.Some? || next.made == t.made + 1)
    ensures OwnState(next, own + more, replies, maxAttempts, delays)
  {
    RowsAllOf(own, t.hook.id);
    next, more := Turn(table, t, replies, maxAttempts, delays, own);
    RowsAllOf(own + more, t.hook.id);
  }

  /** The endpoints' answers to each delivery's attempts are known. */
  ghost predicate Answered(hooks: map<Owner, Webhook>, replies: map<Owner, seq<HttpReply>>, maxAttempts: nat) {
    forall o :: o in hooks ==> o in replies && |replies[o]| >= maxAttempts
  }

  /** Every row is some delivery's. */
  ghost predicate Owned(hooks: map<Owner, Webhook>, rows: seq<Delivery>, owners: seq<Owner>) {
    |rows| == |owners| && forall j :: 0 <= j < |rows| ==> owners[j] in hooks && rows[j].webhook == hooks[owners[j]].id
  }

  /** The rows of each delivery. */
  ghost predicate Attributed(own: map<Owner, seq<Delivery>>, rows: seq<Delivery>, owners: seq<Owner>) {
    |rows| == |owners| && forall o :: o in own ==> own[o] == Pick(rows, owners, o)
  }

  /** Every delivery agrees with its own rows. */
  ghost predicate Going(hooks: map<Owner, Webhook>, tasks: map<Owner, Task>, own: map<Owner, seq<Delivery>>,
                        replies: map<Owner, seq<HttpReply>>, maxAttempts: nat, delays: seq<nat>)
    requires Answered(hooks, replies, maxAttempts)
  {
    && tasks.Keys == own.Keys == hooks.Keys
    && forall o :: o in hooks ==>
         tasks[o].hook == hooks[o] && OwnState(tasks[o], own[o], replies[o], maxAttempts, delays)
  }

  lemma OwnedMore(hooks: map<Owner, Webhook>, rows: seq<Delivery>, owners: seq<Owner>, more: seq<Delivery>, who: Owner)
    requires Owned(hooks, rows, owners) && who in hooks && forall row :: row in more ==> row.webhook == hooks[who].id
    ensures Owned(hooks, rows + more, owners + Tags(more, who))
  {
    forall j | |rows| <= j < |rows + more| ensures (rows + more)[j] in more {
      assert (rows + more)[j] == more[j - |rows|];
    }
  }

  lemma AttributedMore(own: map<Owner, seq<Delivery>>, rows: seq<Delivery>, owners: seq<Owner>, more: seq<Delivery>,
                       who: Owner)
    requires Attributed(own, rows, owners) && who in own && |more| <= 1
    ensures Attributed(own[who := own[who] + more], rows + more, owners + Tags(more, who))
  {
    forall o | o in own
      ensures own[who := own[who] + more][o] == Pick(rows + more, owners + Tags(more, who), o)
    {
      PickMore(rows, owners, more, who, o);
    }
  }

  /** The turn of one of them. */
  method Step(table: DeliveryTable, hooks: map<Owner, Webhook>, tasks: map<Owner, Task>, who: Owner,
              ghost own: map<Owner, seq<Delivery>>, replies: map<Owner, seq<HttpReply>>, maxAttempts: nat,
              delays: seq<nat>)
    returns (tasks': map<Owner, Task>, ghost more: seq<Delivery>)
    requires Answered(hooks, replies, maxAttempts)
    requires Going(hooks, tasks, own, replies, maxAttempts, delays) && who in hooks
    modifies table
    ensures table.rows == old(table.rows) + more && |more| <= 1
    ensures forall row :: row in more ==> row.webhook == hooks[who].id
    ensures Going(hooks, tasks', own[who := own[who] + more], replies, maxAttempts, delays)
    ensures forall o :: o in hooks && o != who ==> tasks'[o] == tasks[o]
    ensures tasks'[who].ending.Some? || (tasks[who].ending.None? && tasks'[who].made == tasks[who].made + 1)
  {
    var next := tasks[who];
    more := [];
    if next.ending.None? {
      next, more := OwnTurn(table, next, replies[who], maxAttempts, delays, own[who]);
    } else {
      assert own[who] + more == own[who];
    }
    tasks' := tasks[who := next];
  }

  /** How often a delivery is given a turn. */
  function Turns(schedule: seq<Owner>, o: Owner): nat {
    if schedule == [] then 0
    else Turns(schedule[..|schedule| - 1], o) + if schedule[|schedule| - 1] == o then 1 else 0
  }

  lemma TurnsNext(schedule: seq<Owner>, n: nat, o: Owner)
    requires n < |schedule|
    ensures Turns(schedule[..n + 1], o) == Turns(schedule[..n], o) + if schedule[n] == o then 1 else 0
  {
    assert schedule[..n + 1][..n] == schedule[..n];
  }

  /** A delivery that has not ended has made an attempt in each of its turns. */
  ghost predicate Counted(hooks: map<Owner, Webhook>, tasks: map<Owner, Task>, schedule: seq<Owner>) {
    forall o :: o in hooks ==> o in tasks && (tasks[o].ending.Some? || tasks[o].made == Turns(schedule, o))
  }

  /** All deliveries of all handlings take turns as the schedule says; one whose handling has died is given none. */
  method RunAll(table: DeliveryTable, hooks: map<Owner, Webhook>, replies: map<Owner, seq<HttpReply>>,
                maxAttempts: nat, delays: seq<nat>, schedule: seq<Owner>)
    returns (tasks: map<Owner, Task>, ghost owners: seq<Owner>, ghost own: map<Owner, seq<Delivery>>)
    requires Answered(hooks, replies, maxAttempts) && forall o :: o in schedule ==> o in hooks
    modifies table
    ensures old(table.rows) <= table.rows
    ensures Owned(hooks, table.rows[|old(table.rows)|..], owners)
    ensures Attributed(own, table.rows[|old(table.rows)|..], owners)
    ensures Going(hooks, tasks, own, replies, maxAttempts, delays)
    ensures Counted(hooks, tasks, schedule)
  {
    tasks := map o | o in hooks :: Task(hooks[o], 0, None);
    owners, own := [], map o | o in hooks :: [];
    ghost var added: seq<Delivery> := [];
    for n := 0 to |schedule|
      invariant table.rows == old(table.rows) + added
      invariant Owned(hooks, added, owners) && Attributed(own, added, owners)
      invariant Going(hooks, tasks, own, replies, maxAttempts, delays)
      invariant Counted(hooks, tasks, schedule[..n])
    {
      var who := schedule[n];
      ghost var before := tasks;
      ghost var more;
      tasks, more := Step(table, hooks, tasks, who, own, replies, maxAttempts, delays);
      CountedOn(hooks, before, tasks, schedule, n);
      OwnedMore(hooks, added, owners, more, who);
      AttributedMore(own, added, owners, more, who);
      ConcatAssociates(old(table.rows), added, more);
      added, owners, own := added + more, owners + Tags(more, who), own[who := own[who] + more];
    }
    assert schedule[..|schedule|] == schedule;
    assert table.rows[|old(table.rows)|..] == added;
  }

  lemma CountedOn(hooks: map<Owner, Webhook>, tasks: map<Owner, Task>, tasks': map<Owner, Task>, schedule: seq<Owner>,
                  n: nat)
    requires n < |schedule| && Counted(hooks, tasks, schedule[..n]) && tasks'.Keys == tasks.Keys == hooks.Keys
    requires forall o :: o in hooks && o != schedule[n] ==> tasks'[o] == tasks[o]
    requires schedule[n] in hooks
             && var o := schedule[n];
                tasks'[o].ending.Some? || (tasks[o].ending.None? && tasks'[o].made == tasks[o].made + 1)
    ensures Counted(hooks, tasks', schedule[..n + 1])
  {
    forall o | o in hooks ensures tasks'[o].ending.Some? || tasks'[o].made == Turns(schedule[..n + 1], o) {
      TurnsNext(schedule, n, o);
    }
  }

  /** What one delivery's rows say, its handling having acknowledged or not. */
  ghost predicate Tells(webhook: nat, own: seq<Delivery>, acked: bool, replies: seq<HttpReply>, maxAttempts: nat,
                        delays: seq<nat>)
    requires |replies| >= maxAttempts
  {
    if acked then Ended(own, webhook, replies, maxAttempts, delays)
    else Begun(own, webhook, replies, maxAttempts, delays)
  }

  /** The rows fall apart into one list for each delivery, which says what it would say alone. */
  ghost predicate AllTell(hooks: map<Owner, Webhook>, rows: seq<Delivery>, owners: seq<Owner>, acked: seq<bool>,
                          replies: map<Owner, seq<HttpReply>>, maxAttempts: nat, delays: seq<nat>)
    requires Answered(hooks, replies, maxAttempts)
  {
    && Owned(hooks, rows, owners)
    && forall o :: o in hooks ==>
         o.handling < |acked|
         && Tells(hooks[o].id, Pick(rows, owners, o), acked[o.handling], replies[o], maxAttempts, delays)
  }

  ghost predicate EnoughTurns(hooks: map<Owner, Webhook>, schedule: seq<Owner>, h: nat, maxAttempts: nat) {
    forall o :: o in hooks && o.handling == h ==> Turns(schedule, o) > maxAttempts
  }

  /** The deliveries that the handlings of one message start; each loads the webhooks anew. */
  function Started(webhooks: seq<seq<Webhook>>, event: string): map<Owner, Webhook> {
    map h: nat, i: nat | h < |webhooks| && i < |Matching(webhooks[h], event)| ::
      Owner(h, i) := Matching(webhooks[h], event)[i]
  }

  /** Any number of overlapping handlings of one message, interleaved in any order and dying anywhere. Each matching
      webhook of each handling has the rows it would have alone: a handling that acknowledges has ended every
      delivery it started, another has begun them. A handling whose deliveries all get turns enough acknowledges. */
  method HandleOverlapping(table: DeliveryTable, webhooks: seq<seq<Webhook>>, event: string,
                           replies: map<Owner, seq<HttpReply>>, maxAttempts: nat, delays: seq<nat>,
                           schedule: seq<Owner>)
    returns (acked: seq<bool>, ghost owners: seq<Owner>)
    requires Answered(Started(webhooks, event), replies, maxAttempts)
    requires forall o :: o in schedule ==> o in Started(webhooks, event)
    modifies table
    ensures |acked| == |webhooks| && old(table.rows) <= table.rows
    ensures AllTell(Started(webhooks, event), table.rows[|old(table.rows)|..], owners, acked, replies, maxAttempts,
                    delays)
    ensures forall h :: 0 <= h < |webhooks| && EnoughTurns(Started(webhooks, event), schedule, h, maxAttempts) ==>
              acked[h]
  {
    var hooks := Started(webhooks, event);
    acked, owners := HandleAll(table, hooks, |webhooks|, replies, maxAttempts, delays, schedule);
  }

  method HandleAll(table: DeliveryTable, hooks: map<Owner, Webhook>, count: nat, replies: map<Owner, seq<HttpReply>>,
                   maxAttempts: nat, delays: seq<nat>, schedule: seq<Owner>)
    returns (acked: seq<bool>, ghost owners: seq<Owner>)
    requires forall o :: o in hooks ==> o.handling < count
    requires Answered(hooks, replies, maxAttempts) && forall o :: o in schedule ==> o in hooks
    modifies table
    ensures |acked| == count && old(table.rows) <= table.rows
    ensures AllTell(hooks, table.rows[|old(table.rows)|..], owners, acked, replies, maxAttempts, delays)
    ensures forall h :: 0 <= h < count && EnoughTurns(hooks, schedule, h, maxAttempts) ==> acked[h]
  {
    var tasks;
    ghost var own;
    tasks, owners, own := RunAll(table, hooks, replies, maxAttempts, delays, schedule);
    acked := seq(count, h requires 0 <= h < count => AllEnded(tasks, h));
    forall o | o in hooks ensures Tells(hooks[o].id, own[o], acked[o.handling], replies[o], maxAttempts, delays) {
      OwnTells(tasks[o], own[o], replies[o], maxAttempts, delays);
    }
    forall h | 0 <= h < count && EnoughTurns(hooks, schedule, h, maxAttempts) ensures acked[h] {
      EnoughEnds(hooks, tasks, own, replies, maxAttempts, delays, schedule, h);
    }
  }

  /** Every delivery of the handling has ended: gather returns. */
  predicate AllEnded(tasks: map<Owner, Task>, h: nat) {
    forall o :: o in tasks && o.handling == h ==> tasks[o].ending.Some?
  }

  lemma EnoughEnds(hooks: map<Owner, Webhook>, tasks: map<Owner, Task>, own: map<Owner, seq<Delivery>>,
                   replies: map<Owner, seq<HttpReply>>, maxAttempts: nat, delays: seq<nat>, schedule: seq<Owner>,
                   h: nat)
    requires Answered(hooks, replies, maxAttempts)
    requires Going(hooks, tasks, own, replies, maxAttempts, delays) && Counted(hooks, tasks, schedule)
    requires EnoughTurns(hooks, schedule, h, maxAttempts)
    ensures AllEnded(tasks, h)
  {
    forall o | o in tasks && o.handling == h ensures tasks[o].ending.Some? {
      assert OwnState(tasks[o], own[o], replies[o], maxAttempts, delays);
    }
  }

  lemma OwnTells(t: Task, own: seq<Delivery>, replies: seq<HttpReply>, maxAttempts: nat, delays: seq<nat>)
    requires |replies| >= maxAttempts && OwnState(t, own, replies, maxAttempts, delays)
    ensures t.ending.Some? ==> Ended(own, t.hook.id, replies, maxAttempts, delays)
    ensures Begun(own, t.hook.id, replies, maxAttempts, delays)
  {
  }

  // ---- What a receiver sees ----

  lemma {:induction false} PickOne(rows: seq<Delivery>, owners: seq<Owner>, o: Owner, j: nat) returns (k: nat)
    requires |rows| == |owners| && j < |rows| && owners[j] == o
    ensures k < |Pick(rows, owners, o)| && Pick(rows, owners, o)[k] == rows[j]
    ensures j == |rows| - 1 ==> k == |Pick(rows, owners, o)| - 1
  {
    var last := |rows| - 1;
    if j == last {
      k := |Pick(rows[..last], owners[..last], o)|;
    } else {
      k := PickOne(rows[..last], owners[..last], o, j);
    }
  }

  lemma {:induction false} PickTwo(rows: seq<Delivery>, owners: seq<Owner>, o: Owner, i: nat, j: nat)
    returns (k: nat, l: nat)
    requires |rows| == |owners| && i < j < |rows| && owners[i] == owners[j] == o
    ensures k < l < |Pick(rows, owners, o)|
    ensures Pick(rows, owners, o)[k] == rows[i] && Pick(rows, owners, o)[l] == rows[j]
  {
    var last := |rows| - 1;
    if j == last {
      l := PickOne(rows, owners, o, j);
      k := PickOne(rows[..last], owners[..last], o, i);
    } else {
      k, l := PickTwo(rows[..last], owners[..last], o, i, j);
    }
  }

  /** No handling starts two deliveries to one webhook. */
  ghost predicate OncePerHandling(hooks: map<Owner, Webhook>) {
    forall a, b :: a in hooks && b in hooks && a.handling == b.handling && hooks[a].id == hooks[b].id ==> a == b
  }

  lemma StartedAt(webhooks: seq<seq<Webhook>>, event: string, o: Owner)
    requires o in Started(webhooks, event)
    ensures o.handling < |webhooks| && o.index < |Matching(webhooks[o.handling], event)|
    ensures Started(webhooks, event)[o] == Matching(webhooks[o.handling], event)[o.index]
  {
  }

  lemma StartedOnce(webhooks: seq<seq<Webhook>>, event: string)
    requires forall h :: 0 <= h < |webhooks| ==> DistinctIds(webhooks[h])
    ensures OncePerHandling(Started(webhooks, event))
  {
    var hooks := Started(webhooks, event);
    forall a, b | a in hooks && b in hooks && a.handling == b.handling && hooks[a].id == hooks[b].id ensures a == b {
      StartedAt(webhooks, event, a);
      StartedAt(webhooks, event, b);
      MatchingDistinct(webhooks[a.handling], event);
    }
  }

  /** Two successful deliveries to one webhook were made by different handlings, so an endpoint accepts a message at
      most once for each time the stream delivers it. */
  lemma OneSuccessEach(hooks: map<Owner, Webhook>, replies: map<Owner, seq<HttpReply>>, maxAttempts: nat,
                       delays: seq<nat>, rows: seq<Delivery>, owners: seq<Owner>, acked: seq<bool>, i: nat, j: nat)
    requires Answered(hooks, replies, maxAttempts) && OncePerHandling(hooks)
    requires AllTell(hooks, rows, owners, acked, replies, maxAttempts, delays)
    requires i < j < |rows| && rows[i].succeeded && rows[j].succeeded && rows[i].webhook == rows[j].webhook
    ensures owners[i].handling != owners[j].handling
  {
    var a, b := owners[i], owners[j];
    if a.handling == b.handling {
      assert a == b;
      var k, l := PickTwo(rows, owners, a, i, j);
      LastSucceeds(Pick(rows, owners, a), hooks[a].id, acked[a.handling], replies[a], maxAttempts, delays, k, l);
    }
  }

  lemma LastSucceeds(own: seq<Delivery>, webhook: nat, acked: bool, replies: seq<HttpReply>, maxAttempts: nat,
                     delays: seq<nat>, k: nat, l: nat)
    requires |replies| >= maxAttempts && Tells(webhook, own, acked, replies, maxAttempts, delays) && k < l < |own|
    ensures !own[k].succeeded
  {
  }
}
