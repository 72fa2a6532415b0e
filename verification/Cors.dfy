/** backend/app/core/cors_middleware.py: the per-project origin cache and how old its answers can be. */
module Cors {
  import opened Options
  import opened Csv
  import opened Text

  /** An allow list; None when the project restricts nothing. */
  type Origins = Option<seq<string>>

  const TTL: real := 60.0

  /** What _get_allowed_origins makes of the stored column; a missing row, null and blank text all mean no
      restriction. */
  function Parse(row: Option<string>): (origins: Origins)
    ensures origins != Some([])
  {
    if row == None || row == Some("") then None
    else
      var kept := SplitField(row).value;
      if kept == [] then None else Some(kept)
  }

  /** The allow list holds exactly the pieces between the column's commas without their outer blanks, blank ones
      dropped; there is no restriction exactly when that leaves none. */
  lemma ParseExactly(row: Option<string>, origin: string)
    ensures Parse(row).None? <==> forall o :: !Lists(row, o)
    ensures Parse(row).Some? ==> (origin in Parse(row).value <==> Lists(row, origin))
  {
    SplitFieldExactly(row, origin);
    if row.Some? && row != Some("") {
      forall o ensures o in SplitField(row).value <==> Lists(row, o) {
        SplitFieldExactly(row, o);
      }
      if SplitField(row).value != [] {
        assert SplitField(row).value[0] in SplitField(row).value;
      }
    } else {
      forall o ensures !Lists(row, o) {
        EmptyListsNothing(row, o);
      }
    }
  }

  ghost predicate Lists(row: Option<string>, origin: string) {
    row.Some? && origin != "" && exists piece :: piece in Split(row.value, ',') && Core(piece, origin)
  }

  lemma EmptyListsNothing(row: Option<string>, origin: string)
    requires row == None || row == Some("")
    ensures !Lists(row, origin)
  {
    if row.Some? {
      assert Split(row.value, ',') == [""];
      assert !Core("", origin) || origin == "";
    }
  }

  datatype Entry = Entry(origins: Origins, expiry: real)

  /** What a lookup that went to the database has read. */
  datatype Reading = Reading(began: real, row: Option<string>)

  /** The module-level dictionary, and the two stretches of _get_allowed_origins between which the coroutine
      waits for the database. */
  class OriginsCache {
    var entries: map<string, Entry>
    ghost var readings: map<string, Reading>  // per project, the lookup that finished last

    /** An entry is the parsed row of the last finished lookup, and expires a fixed time after that lookup began. */
    ghost predicate Valid()
      reads this
    {
      entries.Keys == readings.Keys
      && forall p :: p in entries ==> entries[p] == Entry(Parse(readings[p].row), readings[p].began + TTL)
    }

    constructor ()
      ensures Valid() && entries == map[] && readings == map[]
    {
      entries, readings := map[], map[];
    }

    /** Up to the query: answers at once exactly while the lookup that finished last began less than 60 seconds
        ago, and with what that one read. */
    method Begin(project: string, now: real) returns (answer: Option<Origins>)
      requires Valid()
      ensures answer.Some? <==> project in readings && now - readings[project].began < 60.0
      ensures answer.Some? ==> answer.value == Parse(readings[project].row)
      ensures answer == Fresh(entries, project, now)
    {
      if project in entries {
        var cached := entries[project];
        if now < cached.expiry {
          return Some(cached.origins);
        }
      }
      answer := None;
    }

    /** From the query's result: whatever was cached, this lookup is now the one that finished last. Other
        projects keep theirs. */
    method Finish(project: string, began: real, row: Option<string>) returns (origins: Origins)
      requires Valid()
      modifies this
      ensures Valid() && readings == old(readings)[project := Reading(began, row)]
      ensures origins == Parse(row) && entries == Stored(old(entries), project, began, row)
    {
      readings := readings[project := Reading(began, row)];
      if row == None {
        entries := entries[project := Entry(None, began + TTL)];
        return None;
      }
      if row.value == "" {
        entries := entries[project := Entry(None, began + TTL)];
        return None;
      }
      var kept := SplitField(row).value;
      origins := if kept != [] then Some(kept) else None;
      entries := entries[project := Entry(origins, began + TTL)];
    }
  }

  function Fresh(entries: map<string, Entry>, project: string, now: real): Option<Origins> {
    if project in entries && now < entries[project].expiry then Some(entries[project].origins) else None
  }

  function Stored(entries: map<string, Entry>, project: string, began: real, row: Option<string>): map<string, Entry> {
    entries[project := Entry(Parse(row), began + TTL)]
  }

  // ---- Concurrent lookups while the configuration changes ----

  datatype Change = Change(at: real, project: string, row: Option<string>)

  /** A lookup waiting for the database, or holding the row it read. */
  datatype Lookup = Waiting(project: string, began: real) | HasRow(project: string, began: real, row: Option<string>)

  datatype Answer = Answer(project: string, began: real, at: real, origins: Origins)

  datatype State = State(now: real, changes: seq<Change>, entries: map<string, Entry>, lookups: map<nat, Lookup>,
                         answers: seq<Answer>)

  datatype Step =
    | Tick(elapsed: real)
    | SetRow(project: string, row: Option<string>)
    | BeginLookup(id: nat, project: string)
    | ReadRow(id: nat)
    | FinishLookup(id: nat)

  /** The column after some changes; a project starts without a row. */
  function RowAfter(changes: seq<Change>, project: string): Option<string> {
    if changes == [] then None
    else if changes[|changes| - 1].project == project then changes[|changes| - 1].row
    else RowAfter(changes[..|changes| - 1], project)
  }

  /** The database held this row for the project at that instant. At the instant of a change it held both. */
  ghost predicate Held(changes: seq<Change>, project: string, row: Option<string>, instant: real) {
    exists k: nat :: HeldBefore(changes, k, project, row, instant)
  }

  ghost predicate HeldBefore(changes: seq<Change>, k: nat, project: string, row: Option<string>, instant: real) {
    && k <= |changes| && RowAfter(changes[..k], project) == row
    && (k > 0 ==> changes[k - 1].at <= instant)
    && (k < |changes| ==> instant <= changes[k].at)
  }

  predicate Enabled(s: State, step: Step) {
    match step
    case Tick(elapsed) => elapsed >= 0.0
    case SetRow(_, _) => true
    case BeginLookup(id, _) => id !in s.lookups
    case ReadRow(id) => id in s.lookups && s.lookups[id].Waiting?
    case FinishLookup(id) => id in s.lookups && s.lookups[id].HasRow?
  }

  function Do(s: State, step: Step): State
    requires Enabled(s, step)
  {
    match step
    case Tick(elapsed) => s.(now := s.now + elapsed)
    case SetRow(project, row) => s.(changes := s.changes + [Change(s.now, project, row)])
    case BeginLookup(id, project) => (
      match Fresh(s.entries, project, s.now)
      case Some(origins) => s.(answers := s.answers + [Answer(project, s.now, s.now, origins)])
      case None => s.(lookups := s.lookups[id := Waiting(project, s.now)]))
    case ReadRow(id) =>
      var l := s.lookups[id];
      s.(lookups := s.lookups[id := HasRow(l.project, l.began, RowAfter(s.changes, l.project))])
    case FinishLookup(id) =>
      var l := s.lookups[id];
      s.(entries := Stored(s.entries, l.project, l.began, l.row), lookups := s.lookups - {id},
         answers := s.answers + [Answer(l.project, l.began, s.now, Parse(l.row))])
  }

  const INITIAL := State(0.0, [], map[], map[], [])

  predicate Possible(s: State, steps: seq<Step>)
    decreases |steps|
  {
    steps == [] || (Enabled(s, steps[0]) && Possible(Do(s, steps[0]), steps[1..]))
  }

  function After(s: State, steps: seq<Step>): State
    requires Possible(s, steps)
    decreases |steps|
  {
    if steps == [] then s else After(Do(s, steps[0]), steps[1..])
  }

  /** The origins are what some row held at an instant of the window (from, to] or [from, to] parses to. */
  ghost predicate HeldWithin(s: State, project: string, origins: Origins, from: real, to: real, open: bool) {
    exists instant, row :: Held(s.changes, project, row, instant) && origins == Parse(row)
                           && (if open then from < instant else from <= instant) && instant <= to
  }

  /** An answer is a value held after its lookup began less the time to live and no later than the answer;
      one that took time was read from the database meanwhile. */
  ghost predicate Bounded(s: State, a: Answer) {
    && a.began <= a.at
    && HeldWithin(s, a.project, a.origins, a.began - TTL, a.at, true)
    && (a.began < a.at ==> HeldWithin(s, a.project, a.origins, a.began, a.at, false))
  }

  ghost predicate ReadInTime(s: State, l: Lookup) {
    && l.began <= s.now
    && (l.HasRow? ==> exists instant :: Held(s.changes, l.project, l.row, instant) && l.began <= instant <= s.now)
  }

  ghost predicate Sound(s: State) {
    && (forall i :: 0 <= i < |s.changes| ==> s.changes[i].at <= s.now)
    && (forall p :: p in s.entries ==> HeldWithin(s, p, s.entries[p].origins, s.entries[p].expiry - TTL, s.now, false))
    && (forall id :: id in s.lookups ==> ReadInTime(s, s.lookups[id]))
    && (forall i :: 0 <= i < |s.answers| ==> s.answers[i].at <= s.now && Bounded(s, s.answers[i]))
  }

  /** Later changes do not alter what was held at earlier instants. */
  lemma HeldStays(changes: seq<Change>, c: Change, project: string, row: Option<string>, instant: real)
    requires Held(changes, project, row, instant) && instant <= c.at
    ensures Held(changes + [c], project, row, instant)
  {
    var k: nat :| HeldBefore(changes, k, project, row, instant);
    assert (changes + [c])[..k] == changes[..k];
    assert HeldBefore(changes + [c], k, project, row, instant);
  }

  /** Windows survive the passing of time and new changes. */
  lemma WindowStays(s: State, s': State, project: string, origins: Origins, from: real, to: real, to': real, open: bool)
    requires HeldWithin(s, project, origins, from, to, open) && to <= to' && to <= s.now
    requires s'.changes == s.changes || exists c: Change :: c.at == s.now && s'.changes == s.changes + [c]
    ensures HeldWithin(s', project, origins, from, to', open)
  {
    var instant, row :| Held(s.changes, project, row, instant) && origins == Parse(row)
                        && (if open then from < instant else from <= instant) && instant <= to;
    if s'.changes != s.changes {
      var c: Change :| c.at == s.now && s'.changes == s.changes + [c];
      HeldStays(s.changes, c, project, row, instant);
    }
    assert Held(s'.changes, project, row, instant);
  }

  /** Time or a change leaves the invariant alone. */
  lemma EnvironmentKeeps(s: State, s': State)
    requires Sound(s) && s'.now >= s.now && s' == s.(now := s'.now, changes := s'.changes)
    requires s'.changes == s.changes || exists c: Change :: c.at == s.now && s'.changes == s.changes + [c]
    ensures Sound(s')
  {
    forall p | p in s.entries
      ensures HeldWithin(s', p, s.entries[p].origins, s.entries[p].expiry - TTL, s'.now, false)
    {
      WindowStays(s, s', p, s.entries[p].origins, s.entries[p].expiry - TTL, s.now, s'.now, false);
    }
    forall i | 0 <= i < |s.answers| ensures Bounded(s', s.answers[i]) {
      var a := s.answers[i];
      WindowStays(s, s', a.project, a.origins, a.began - TTL, a.at, a.at, true);
      if a.began < a.at {
        WindowStays(s, s', a.project, a.origins, a.began, a.at, a.at, false);
      }
    }
    forall id | id in s.lookups ensures ReadInTime(s', s.lookups[id]) {
      var l := s.lookups[id];
      if l.HasRow? {
        var instant :| Held(s.changes, l.project, l.row, instant) && l.began <= instant <= s.now;
        if s'.changes != s.changes {
          var c: Change :| c.at == s.now && s'.changes == s.changes + [c];
          HeldStays(s.changes, c, l.project, l.row, instant);
        }
        assert Held(s'.changes, l.project, l.row, instant);
      }
    }
  }

  lemma AnswerKeeps(s: State, a: Answer)
    requires Sound(s) && a.at == s.now && Bounded(s, a)
    ensures Sound(s.(answers := s.answers + [a]))
  {
  }

  /** A fresh entry answers at once, with a value held in its lifetime. */
  lemma HitKeeps(s: State, id: nat, project: string)
    requires Sound(s) && Enabled(s, BeginLookup(id, project)) && Fresh(s.entries, project, s.now).Some?
    ensures Sound(Do(s, BeginLookup(id, project)))
  {
    var e := s.entries[project];
    assert HeldWithin(s, project, e.origins, e.expiry - TTL, s.now, false);
    var instant, row :| Held(s.changes, project, row, instant) && e.origins == Parse(row)
                        && e.expiry - TTL <= instant <= s.now;
    assert HeldWithin(s, project, e.origins, s.now - TTL, s.now, true);
    AnswerKeeps(s, Answer(project, s.now, s.now, e.origins));
  }

  lemma ReadKeeps(s: State, id: nat)
    requires Sound(s) && Enabled(s, ReadRow(id))
    ensures Sound(Do(s, ReadRow(id)))
  {
    var l := s.lookups[id];
    var s' := Do(s, ReadRow(id));
    assert s.changes[..|s.changes|] == s.changes;
    assert HeldBefore(s.changes, |s.changes|, l.project, RowAfter(s.changes, l.project), s.now);
    assert ReadInTime(s, l);
    assert Held(s'.changes, l.project, s'.lookups[id].row, s.now);
    assert ReadInTime(s', s'.lookups[id]);
    SameDatabase(s, s');
  }

  lemma FinishKeeps(s: State, id: nat)
    requires Sound(s) && Enabled(s, FinishLookup(id))
    ensures Sound(Do(s, FinishLookup(id)))
  {
  }

  /** What was held, read or answered depends on the database and the clock alone. */
  lemma SameDatabase(s: State, s': State)
    requires s'.changes == s.changes && s'.now == s.now
    ensures forall p, o, from, to, open :: HeldWithin(s, p, o, from, to, open) ==> HeldWithin(s', p, o, from, to, open)
    ensures forall l :: ReadInTime(s, l) ==> ReadInTime(s', l)
    ensures forall a :: Bounded(s, a) ==> Bounded(s', a)
  {
  }

  lemma LookupKeeps(s: State, step: Step)
    requires Sound(s) && Enabled(s, step)
    requires step.BeginLookup? || step.ReadRow? || step.FinishLookup?
    ensures Sound(Do(s, step))
  {
    match step {
      case BeginLookup(id, project) =>
        if Fresh(s.entries, project, s.now).Some? {
          HitKeeps(s, id, project);
        } else {
          SameDatabase(s, Do(s, step));
        }
      case ReadRow(id) => ReadKeeps(s, id);
      case FinishLookup(id) => FinishKeeps(s, id);
    }
  }

  lemma StepKeepsSound(s: State, step: Step)
    requires Sound(s) && Enabled(s, step)
    ensures Sound(Do(s, step))
  {
    if step.Tick? || step.SetRow? {
      EnvironmentKeeps(s, Do(s, step));
    } else {
      LookupKeeps(s, step);
    }
  }

  lemma {:induction false} RunsAreSound(s: State, steps: seq<Step>)
    requires Sound(s) && Possible(s, steps)
    ensures Sound(After(s, steps))
    decreases |steps|
  {
    if steps != [] {
      StepKeepsSound(s, steps[0]);
      RunsAreSound(Do(s, steps[0]), steps[1..]);
    }
  }

  // ---- What callers can rely on ----

  /** Over every interleaving of lookups, changes and the passing of time: an answer given at `at` to a lookup
      begun at `began` parses a row the database held at some instant after began - 60 and no later than at. */
  lemma BoundedStaleness(steps: seq<Step>, i: nat)
    requires Possible(INITIAL, steps) && i < |After(INITIAL, steps).answers|
    ensures var s := After(INITIAL, steps);
            var a := s.answers[i];
            a.began <= a.at <= s.now
            && exists instant, row :: Held(s.changes, a.project, row, instant) && a.origins == Parse(row)
                                      && a.began - 60.0 < instant <= a.at
  {
    RunsAreSound(INITIAL, steps);
    var s := After(INITIAL, steps);
    var a := s.answers[i];
    assert Bounded(s, a);
    var instant, row :| Held(s.changes, a.project, row, instant) && a.origins == Parse(row)
                        && a.began - TTL < instant <= a.at;
  }

  /** The answer is less than 60 seconds old when it is given. */
  ghost predicate FreshAnswer(s: State, a: Answer) {
    HeldWithin(s, a.project, a.origins, a.at - 60.0, a.at, true)
  }

  /** In every run, every answer that takes this long is fresh. */
  ghost predicate AlwaysFresh(duration: real) {
    forall steps, i :: Possible(INITIAL, steps) && AnswerTook(After(INITIAL, steps), i, duration)
      ==> FreshAnswer(After(INITIAL, steps), After(INITIAL, steps).answers[i])
  }

  predicate AnswerTook(s: State, i: int, duration: real) {
    0 <= i < |s.answers| && s.answers[i].at - s.answers[i].began == duration
  }

  lemma QuickMeansFresh(steps: seq<Step>, i: int, duration: real)
    requires Possible(INITIAL, steps) && AnswerTook(After(INITIAL, steps), i, duration) && duration < TTL
    ensures FreshAnswer(After(INITIAL, steps), After(INITIAL, steps).answers[i])
  {
    RunsAreSound(INITIAL, steps);
    var s := After(INITIAL, steps);
    var a := s.answers[i];
    assert Bounded(s, a);
    if a.began < a.at {
      var instant, row :| Held(s.changes, a.project, row, instant) && a.origins == Parse(row)
                          && a.began <= instant <= a.at;
      assert a.at - TTL < instant;
    }
  }

  function SlowRun(duration: real): seq<Step> {
    [BeginLookup(0, "p"), ReadRow(0), SetRow("p", Some("a")), Tick(duration), FinishLookup(0)]
  }

  function SlowEnd(duration: real): State {
    State(duration, [Change(0.0, "p", Some("a"))], map["p" := Entry(None, TTL)], map[],
          [Answer("p", 0.0, duration, None)])
  }

  lemma SlowRunEnds(duration: real)
    requires duration >= TTL
    ensures Possible(INITIAL, SlowRun(duration)) && After(INITIAL, SlowRun(duration)) == SlowEnd(duration)
  {
    var steps := SlowRun(duration);
    var s2 := INITIAL.(lookups := map[0 := HasRow("p", 0.0, None)]);
    var s3 := s2.(changes := [Change(0.0, "p", Some("a"))]);
    var s4 := s3.(now := duration);
    assert Do(s4, steps[4]) == SlowEnd(duration) && steps[4..] == [steps[4]] && [steps[4]][1..] == [];
    assert Possible(SlowEnd(duration), []) && After(SlowEnd(duration), []) == SlowEnd(duration);
    assert Possible(s4, steps[4..]) && After(s4, steps[4..]) == SlowEnd(duration);
    assert Do(s3, steps[3]) == s4 && steps[3..][1..] == steps[4..];
    assert Possible(s3, steps[3..]) && After(s3, steps[3..]) == SlowEnd(duration);
    SlowRunBegins(duration, s2, s3);
  }

  lemma SlowRunBegins(duration: real, s2: State, s3: State)
    requires s2 == INITIAL.(lookups := map[0 := HasRow("p", 0.0, None)])
    requires s3 == s2.(changes := [Change(0.0, "p", Some("a"))])
    requires Possible(s3, SlowRun(duration)[3..]) && After(s3, SlowRun(duration)[3..]) == SlowEnd(duration)
    ensures Possible(INITIAL, SlowRun(duration)) && After(INITIAL, SlowRun(duration)) == SlowEnd(duration)
  {
    var steps := SlowRun(duration);
    var s1 := INITIAL.(lookups := map[0 := Waiting("p", 0.0)]);
    assert Do(s2, steps[2]) == s3 && steps[2..][1..] == steps[3..];
    assert Possible(s2, steps[2..]) && After(s2, steps[2..]) == SlowEnd(duration);
    assert Do(s1, steps[1]) == s2 && steps[1..][1..] == steps[2..];
    assert Possible(s1, steps[1..]) && After(s1, steps[1..]) == SlowEnd(duration);
    assert Do(INITIAL, steps[0]) == s1;
  }

  /** A query that takes 60 seconds or more: the configuration changes right after the row was read. */
  lemma SlowQuery(duration: real)
    requires duration >= TTL
    ensures !AlwaysFresh(duration)
  {
    SlowRunEnds(duration);
    var s := SlowEnd(duration);
    SplitSeparatorFree("a", ',');
    assert Parse(Some("a")) != None;
    assert AnswerTook(s, 0, duration);
    forall instant, r | Held(s.changes, "p", r, instant) && instant > 0.0 ensures Parse(r) != None {
      var k: nat :| HeldBefore(s.changes, k, "p", r, instant);
      assert k == 1 && s.changes[..1] == s.changes;
    }
    assert !FreshAnswer(s, s.answers[0]);
  }

  /** An origins list is always one the database held in the last 60 seconds exactly when its lookup takes
      less than 60 seconds; the age of the cache entry alone never exceeds the bound. */
  lemma FreshExactly(duration: real)
    ensures AlwaysFresh(duration) <==> duration < 60.0
  {
    if duration < TTL {
      forall steps, i | Possible(INITIAL, steps) && AnswerTook(After(INITIAL, steps), i, duration)
        ensures FreshAnswer(After(INITIAL, steps), After(INITIAL, steps).answers[i])
      {
        QuickMeansFresh(steps, i, duration);
      }
    } else {
      SlowQuery(duration);
    }
  }

  lemma {:induction false} RowAfterLast(changes: seq<Change>, k: nat, project: string)
    requires k <= |changes| && forall j :: k <= j < |changes| ==> changes[j].project != project
    ensures RowAfter(changes, project) == RowAfter(changes[..k], project)
  {
    if k < |changes| {
      RowAfterLast(changes[..|changes| - 1], k, project);
      assert changes[..|changes| - 1][..k] == changes[..k];
    } else {
      assert changes[..k] == changes;
    }
  }

  /** The current row is the one the project's last change wrote, and there is none before its first. */
  lemma LastChangeShows(changes: seq<Change>, k: nat, project: string)
    requires k <= |changes| && forall j :: k <= j < |changes| ==> changes[j].project != project
    requires k > 0 ==> changes[k - 1].project == project
    ensures RowAfter(changes, project) == if k > 0 then changes[k - 1].row else None
  {
    RowAfterLast(changes, k, project);
  }

  /** A change is everywhere 60 seconds later: a lookup begun that long after the project's last change
      answers with the current row. */
  lemma ChangePropagates(steps: seq<Step>, i: nat, k: nat)
    requires Possible(INITIAL, steps) && i < |After(INITIAL, steps).answers| && k <= |After(INITIAL, steps).changes|
    requires var s := After(INITIAL, steps);
             forall j :: 0 <= j < |s.changes| ==>
               if j < k then s.changes[j].at + 60.0 <= s.answers[i].began
               else s.changes[j].project != s.answers[i].project
    ensures var s := After(INITIAL, steps);
            s.answers[i].origins == Parse(RowAfter(s.changes, s.answers[i].project))
  {
    BoundedStaleness(steps, i);
    var s := After(INITIAL, steps);
    var a := s.answers[i];
    var instant, row :| Held(s.changes, a.project, row, instant) && a.origins == Parse(row)
                        && a.began - TTL < instant <= a.at;
    var n: nat :| HeldBefore(s.changes, n, a.project, row, instant);
    assert n >= k;
    RowAfterLast(s.changes, n, a.project);
  }
}
