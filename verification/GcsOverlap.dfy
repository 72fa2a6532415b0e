/** Two completions of one upload at the same time, each with its own list of parts: they share the names of the
    intermediate objects. (backend/app/storage/gcs.py) */
module GcsOverlap {
  import opened Assembly
  import opened GcsKeys
  import opened Gcs
  import opened Sequences

  /** Where a completion stands: at its k-th compose (the final one comes after all intermediate ones), at its i-th
      delete, or past its last request. */
  datatype Place = Compose(k: nat) | Cleanup(i: nat) | Ended

  /** How the bucket treats a request: answers it, applies it without an answer, or ignores it. A completion that
      gets no answer ends. */
  datatype Service = Answered | Applied | Ignored

  datatype Step = Step(first: bool, service: Service)

  datatype State = State(objects: Objects, first: Place, second: Place)

  /** The upload: its destination, the names of its intermediates, and the part keys the two completions list. */
  datatype Session = Session(key: string, temps: seq<string>, first: seq<string>, second: seq<string>)

  ghost predicate Valid(u: Session) {
    && Distinct(u.temps) && u.key !in u.temps
    && forall first: bool :: var keys := Keys(u, first);
         TempCount(|keys|) <= |u.temps| && u.key !in keys && forall x :: x in keys ==> x !in u.temps
  }

  function Keys(u: Session, first: bool): seq<string> {
    if first then u.first else u.second
  }

  function At(s: State, first: bool): Place {
    if first then s.first else s.second
  }

  function Moved(s: State, first: bool, place: Place): State {
    if first then s.(first := place) else s.(second := place)
  }

  /** How many composes come before the final one. */
  function Turns(u: Session, first: bool): nat {
    TempCount(|Keys(u, first)|)
  }

  /** What the k-th compose of the completion reads and writes. */
  function Batch(u: Session, first: bool, k: nat): seq<string>
    requires Valid(u) && k <= Turns(u, first)
  {
    var keys := Keys(u, first);
    var sources := Sources(keys, u.temps[..Turns(u, first)], k);
    if k < Turns(u, first) then assert |sources| > 32 by { TurnsLeft(|keys|, k); } sources[..31] else sources
  }

  function Dest(u: Session, first: bool, k: nat): string
    requires Valid(u) && k <= Turns(u, first)
  {
    if k < Turns(u, first) then u.temps[k] else u.key
  }

  /** The names the cleanup deletes, in its order. */
  function Cleaned(u: Session, first: bool): seq<string>
    requires Valid(u)
  {
    Keys(u, first) + u.temps[..Turns(u, first)]
  }

  predicate Enabled(u: Session, s: State, t: Step)
    requires Valid(u)
  {
    match At(s, t.first)
    case Compose(k) => k <= Turns(u, t.first)
    case Cleanup(i) => i < |Cleaned(u, t.first)|
    case Ended => false
  }

  function Do(u: Session, s: State, t: Step): State
    requires Valid(u) && Enabled(u, s, t)
  {
    match At(s, t.first)
    case Compose(k) =>
      var sources := Batch(u, t.first, k);
      if t.service.Ignored? || !Composable(s.objects, sources) then Moved(s, t.first, Ended)
      else
        var next := if t.service.Applied? then Ended else if k < Turns(u, t.first) then Compose(k + 1) else Cleanup(0);
        Moved(s, t.first, next).(objects := s.objects[Dest(u, t.first, k) := Concat(s.objects, sources)])
    case Cleanup(i) =>
      var next := if t.service.Answered? && i + 1 < |Cleaned(u, t.first)| then Cleanup(i + 1) else Ended;
      Moved(s, t.first, next).(objects := if t.service.Ignored? then s.objects
                                          else s.objects - {Cleaned(u, t.first)[i]})
  }

  ghost predicate Possible(u: Session, s: State, steps: seq<Step>)
    requires Valid(u)
    decreases |steps|
  {
    steps == [] || (Enabled(u, s, steps[0]) && Possible(u, Do(u, s, steps[0]), steps[1..]))
  }

  ghost function After(u: Session, s: State, steps: seq<Step>): State
    requires Valid(u) && Possible(u, s, steps)
    decreases |steps|
  {
    if steps == [] then s else After(u, Do(u, s, steps[0]), steps[1..])
  }

  function Start(o: Objects): State {
    State(o, Compose(0), Compose(0))
  }

  ghost predicate Reachable(u: Session, o: Objects, s: State)
    requires Valid(u)
  {
    exists steps :: Possible(u, Start(o), steps) && After(u, Start(o), steps) == s
  }

  /** The final compose, if that comes next and its sources are there, would write the listed parts' bytes. */
  ghost predicate WritesRight(u: Session, o: Objects, s: State, first: bool)
    requires Valid(u)
  {
    At(s, first) == Compose(Turns(u, first)) && Composable(s.objects, Batch(u, first, Turns(u, first))) ==>
      Present(o, Keys(u, first))
      && Concat(s.objects, Batch(u, first, Turns(u, first))) == Concat(o, Keys(u, first))
  }

  ghost predicate AlwaysRight(u: Session, o: Objects)
    requires Valid(u)
  {
    forall s, first :: Reachable(u, o, s) ==> WritesRight(u, o, s, first)
  }

  /** Both completions put the same bytes into every intermediate that both write. */
  ghost predicate Agree(u: Session, o: Objects) {
    forall k: nat :: k < Turns(u, true) && k < Turns(u, false) ==> AgreeAt(u, o, k)
  }

  ghost predicate AgreeAt(u: Session, o: Objects, k: nat)
    requires k < Turns(u, true) && k < Turns(u, false)
  {
    var a, b := Prefix(u, true, k + 1), Prefix(u, false, k + 1);
    Present(o, a) && Present(o, b) ==> Concat(o, a) == Concat(o, b)
  }

  /** The parts that the completion's k-th intermediate (from 1 on) stands for. */
  function Prefix(u: Session, first: bool, k: nat): seq<string>
    requires k <= Turns(u, first)
  {
    if k == 0 then [] else Keys(u, first)[..30 * k + 1]
  }

  // ---- What every interleaving keeps ----

  /** Parts and everything else outside the upload's own objects are as on entry, or deleted. */
  ghost predicate OnlyDeleted(u: Session, o: Objects, now: Objects) {
    forall x :: x in now && x !in u.temps && x != u.key ==> x in o && now[x] == o[x]
  }

  /** The parts behind the newest intermediate of the completion were there. */
  ghost predicate Standing(u: Session, o: Objects, s: State, first: bool) {
    At(s, first).Compose? ==> At(s, first).k <= Turns(u, first) && Present(o, Prefix(u, first, At(s, first).k))
  }

  /** That intermediate, if it is still there, holds their bytes. */
  ghost predicate Clean(u: Session, o: Objects, s: State, first: bool)
    requires Valid(u) && Standing(u, o, s, first)
  {
    At(s, first).Compose? && At(s, first).k > 0 && u.temps[At(s, first).k - 1] in s.objects ==>
      s.objects[u.temps[At(s, first).k - 1]] == Concat(o, Prefix(u, first, At(s, first).k))
  }

  ghost predicate Inv(u: Session, o: Objects, s: State) {
    OnlyDeleted(u, o, s.objects) && Standing(u, o, s, true) && Standing(u, o, s, false)
  }

  /** The destination is as on entry or holds the bytes of one of the two lists. */
  ghost predicate FinalOf(u: Session, o: Objects, now: Objects) {
    || ((u.key in now <==> u.key in o) && (u.key in now && u.key in o ==> now[u.key] == o[u.key]))
    || (Present(o, u.first) && u.key in now && now[u.key] == Concat(o, u.first))
    || (Present(o, u.second) && u.key in now && now[u.key] == Concat(o, u.second))
  }

  ghost predicate AllClean(u: Session, o: Objects, s: State)
    requires Valid(u) && Inv(u, o, s)
  {
    Clean(u, o, s, true) && Clean(u, o, s, false) && FinalOf(u, o, s.objects)
  }

  /** The parts a compose takes in, beyond the intermediate it starts from. */
  function Added(u: Session, first: bool, k: nat): seq<string>
    requires k <= Turns(u, first)
  {
    var keys := Keys(u, first);
    var lo := if k == 0 then 0 else 30 * k + 1;
    if k < Turns(u, first) then keys[lo..30 * (k + 1) + 1] else keys[lo..]
  }

  lemma BatchSplit(u: Session, first: bool, k: nat)
    requires Valid(u) && k <= Turns(u, first)
    ensures Batch(u, first, k) == (if k == 0 then [] else [u.temps[k - 1]]) + Added(u, first, k)
    ensures Prefix(u, first, k) + Added(u, first, k)
            == if k < Turns(u, first) then Prefix(u, first, k + 1) else Keys(u, first)
  {
    TurnsLeft(|Keys(u, first)|, k);
  }

  /** They are parts, and no intermediate or final object. */
  lemma AddedPart(u: Session, first: bool, k: nat, i: nat)
    requires Valid(u) && k <= Turns(u, first) && i < |Added(u, first, k)|
    ensures var x := Added(u, first, k)[i]; x !in u.temps && x != u.key
  {
    var keys := Keys(u, first);
    var lo := if k == 0 then 0 else 30 * k + 1;
    assert Added(u, first, k)[i] == keys[lo + i];
    assert keys[lo + i] in keys;
  }

  lemma PresentParts(o: Objects, a: seq<string>, b: seq<string>)
    ensures Present(o, a + b) <==> Present(o, a) && Present(o, b)
  {
    forall i | 0 <= i < |a| ensures (a + b)[i] == a[i] {
    }
    forall i | 0 <= i < |b| ensures (a + b)[|a| + i] == b[i] {
    }
  }

  /** A batch is there exactly when the intermediate and the added parts are. */
  lemma BatchPresent(u: Session, s: State, first: bool, k: nat)
    requires Valid(u) && k <= Turns(u, first)
    ensures Present(s.objects, Batch(u, first, k))
            <==> (k > 0 ==> u.temps[k - 1] in s.objects) && Present(s.objects, Added(u, first, k))
  {
    BatchSplit(u, first, k);
    if k > 0 {
      PresentParts(s.objects, [u.temps[k - 1]], Added(u, first, k));
      assert [u.temps[k - 1]][0] == u.temps[k - 1];
    } else {
      assert Batch(u, first, k) == Added(u, first, k);
    }
  }

  /** What a compose reads of the parts is what was there on entry. */
  lemma AddedBytes(u: Session, o: Objects, s: State, first: bool, k: nat)
    requires Valid(u) && OnlyDeleted(u, o, s.objects) && k <= Turns(u, first)
    requires Present(s.objects, Batch(u, first, k))
    ensures Present(s.objects, Added(u, first, k)) && Present(o, Added(u, first, k))
    ensures Concat(s.objects, Added(u, first, k)) == Concat(o, Added(u, first, k))
    ensures k > 0 ==> u.temps[k - 1] in s.objects
    ensures Concat(s.objects, Batch(u, first, k))
            == (if k == 0 then [] else s.objects[u.temps[k - 1]]) + Concat(o, Added(u, first, k))
  {
    var added := Added(u, first, k);
    BatchPresent(u, s, first, k);
    forall i | 0 <= i < |added| ensures added[i] in o && o[added[i]] == s.objects[added[i]] {
      AddedPart(u, first, k, i);
    }
    ConcatSame(s.objects, o, added);
    BatchSplit(u, first, k);
    if k > 0 {
      ConcatSplit(s.objects, [u.temps[k - 1]], added);
      ConcatOne(s.objects, u.temps[k - 1]);
    } else {
      assert Batch(u, first, k) == added;
    }
  }

  lemma ConcatOne(o: Objects, x: string)
    requires x in o
    ensures Concat(o, [x]) == o[x]
  {
    assert [x][1..] == [];
  }

  /** All parts behind what the k-th compose makes. */
  function Behind(u: Session, first: bool, k: nat): seq<string>
    requires k <= Turns(u, first)
  {
    if k < Turns(u, first) then Prefix(u, first, k + 1) else Keys(u, first)
  }

  lemma BehindSplit(u: Session, o: Objects, first: bool, k: nat)
    requires Valid(u) && k <= Turns(u, first) && Present(o, Prefix(u, first, k)) && Present(o, Added(u, first, k))
    ensures Present(o, Behind(u, first, k))
    ensures Concat(o, Behind(u, first, k)) == Concat(o, Prefix(u, first, k)) + Concat(o, Added(u, first, k))
  {
    BatchSplit(u, first, k);
    ConcatSplit(o, Prefix(u, first, k), Added(u, first, k));
  }

  /** So a compose of a clean completion yields the bytes of the parts behind it. */
  lemma CleanCompose(u: Session, o: Objects, s: State, first: bool, k: nat)
    requires Valid(u) && Inv(u, o, s) && Clean(u, o, s, first) && At(s, first) == Compose(k)
    requires Present(s.objects, Batch(u, first, k))
    ensures Present(o, Behind(u, first, k))
    ensures Concat(s.objects, Batch(u, first, k)) == Concat(o, Behind(u, first, k))
  {
    AddedBytes(u, o, s, first, k);
    BehindSplit(u, o, first, k);
  }

  /** A step of the one completion that writes nothing: objects are at most deleted, it ends or cleans up, and the
      other one stands where it stood. */
  ghost predicate Shrinks(u: Session, s: State, s': State, first: bool) {
    && (u.key in s.objects ==> u.key in s'.objects)
    && (forall x :: x in s'.objects ==> x in s.objects && s'.objects[x] == s.objects[x])
    && !At(s', first).Compose? && At(s', !first) == At(s, !first)
  }

  /** A compose that takes effect. */
  ghost predicate Composes(u: Session, s: State, s': State, first: bool, k: nat)
    requires Valid(u)
  {
    && At(s, first) == Compose(k) && k <= Turns(u, first) && Present(s.objects, Batch(u, first, k))
    && s'.objects == s.objects[Dest(u, first, k) := Concat(s.objects, Batch(u, first, k))]
    && (At(s', first).Compose? ==> k < Turns(u, first) && At(s', first) == Compose(k + 1))
    && At(s', !first) == At(s, !first)
  }

  lemma StepEffect(u: Session, s: State, t: Step)
    requires Valid(u) && Enabled(u, s, t)
    ensures Shrinks(u, s, Do(u, s, t), t.first)
            || (At(s, t.first).Compose? && Composes(u, s, Do(u, s, t), t.first, At(s, t.first).k))
  {
    if At(s, t.first).Cleanup? {
      var i := At(s, t.first).i;
      assert Cleaned(u, t.first)[i] in Keys(u, t.first) || Cleaned(u, t.first)[i] in u.temps;
    }
  }

  lemma ShrinksKeeps(u: Session, o: Objects, s: State, s': State, first: bool)
    requires Valid(u) && Inv(u, o, s) && Shrinks(u, s, s', first)
    ensures Inv(u, o, s') && (AllClean(u, o, s) ==> AllClean(u, o, s'))
  {
    assert Standing(u, o, s', first) && Standing(u, o, s', !first);
    if AllClean(u, o, s) {
      assert Clean(u, o, s, !first);
      assert Clean(u, o, s', !first) && Clean(u, o, s', first);
    }
  }

  lemma ComposesKeeps(u: Session, o: Objects, s: State, s': State, first: bool, k: nat)
    requires Valid(u) && Inv(u, o, s) && Composes(u, s, s', first, k)
    ensures Inv(u, o, s')
  {
    StandsFurther(u, o, s, s', first, k);
    OnlyOwnWritten(u, o, s, s', first, k);
    assert Standing(u, o, s', !first);
  }

  lemma StandsFurther(u: Session, o: Objects, s: State, s': State, first: bool, k: nat)
    requires Valid(u) && Inv(u, o, s) && Composes(u, s, s', first, k)
    ensures Standing(u, o, s', first)
  {
    if At(s', first).Compose? {
      AddedBytes(u, o, s, first, k);
      BehindSplit(u, o, first, k);
    }
  }

  lemma OnlyOwnWritten(u: Session, o: Objects, s: State, s': State, first: bool, k: nat)
    requires Valid(u) && OnlyDeleted(u, o, s.objects) && Composes(u, s, s', first, k)
    ensures OnlyDeleted(u, o, s'.objects)
  {
    assert Dest(u, first, k) in u.temps || Dest(u, first, k) == u.key;
  }

  lemma CleanSelf(u: Session, o: Objects, s: State, s': State, first: bool, k: nat)
    requires Valid(u) && Inv(u, o, s) && Composes(u, s, s', first, k) && Inv(u, o, s') && Clean(u, o, s, first)
    ensures Clean(u, o, s', first)
  {
    if At(s', first).Compose? {
      Overwritten(u, o, s, s', first, k);
    }
  }

  lemma Overwritten(u: Session, o: Objects, s: State, s': State, first: bool, k: nat)
    requires Valid(u) && Inv(u, o, s) && Composes(u, s, s', first, k) && Clean(u, o, s, first) && k < Turns(u, first)
    ensures Present(o, Prefix(u, first, k + 1))
    ensures u.temps[k] in s'.objects && s'.objects[u.temps[k]] == Concat(o, Prefix(u, first, k + 1))
  {
    CleanCompose(u, o, s, first, k);
  }

  /** The other one's intermediate is overwritten, if at all, with the same bytes. */
  lemma CleanOther(u: Session, o: Objects, s: State, s': State, first: bool, k: nat)
    requires Valid(u) && Inv(u, o, s) && Composes(u, s, s', first, k) && Inv(u, o, s')
    requires Clean(u, o, s, first) && Clean(u, o, s, !first) && Agree(u, o)
    ensures Clean(u, o, s', !first)
  {
    var there := At(s, !first);
    if there.Compose? && there.k > 0 {
      if there.k == k + 1 && k < Turns(u, first) {
        Overwritten(u, o, s, s', first, k);
        assert AgreeAt(u, o, k);
      } else {
        assert u.temps[there.k - 1] != Dest(u, first, k);
      }
    }
  }

  lemma ComposesClean(u: Session, o: Objects, s: State, s': State, first: bool, k: nat)
    requires Valid(u) && Inv(u, o, s) && Composes(u, s, s', first, k) && Inv(u, o, s')
    requires AllClean(u, o, s) && Agree(u, o)
    ensures AllClean(u, o, s')
  {
    CleanSelf(u, o, s, s', first, k);
    CleanOther(u, o, s, s', first, k);
    FinalKept(u, o, s, s', first, k);
  }

  lemma FinalKept(u: Session, o: Objects, s: State, s': State, first: bool, k: nat)
    requires Valid(u) && Inv(u, o, s) && Composes(u, s, s', first, k) && Clean(u, o, s, first)
    requires FinalOf(u, o, s.objects)
    ensures FinalOf(u, o, s'.objects)
  {
    CleanCompose(u, o, s, first, k);
    assert k < Turns(u, first) ==> Dest(u, first, k) in u.temps;
  }

  lemma {:induction false} InvRun(u: Session, o: Objects, s: State, steps: seq<Step>)
    requires Valid(u) && Inv(u, o, s) && Possible(u, s, steps)
    ensures Inv(u, o, After(u, s, steps))
    ensures AllClean(u, o, s) && Agree(u, o) ==> AllClean(u, o, After(u, s, steps))
    decreases |steps|
  {
    if steps != [] {
      var t := steps[0];
      var s' := Do(u, s, t);
      StepEffect(u, s, t);
      if Shrinks(u, s, s', t.first) {
        ShrinksKeeps(u, o, s, s', t.first);
      } else {
        ComposesKeeps(u, o, s, s', t.first, At(s, t.first).k);
        if AllClean(u, o, s) && Agree(u, o) {
          ComposesClean(u, o, s, s', t.first, At(s, t.first).k);
        }
      }
      InvRun(u, o, s', steps[1..]);
    }
  }

  /** No final compose can take place unless all listed parts were there. */
  lemma NothingToWrite(u: Session, o: Objects, s: State, first: bool)
    requires Valid(u) && Inv(u, o, s) && At(s, first) == Compose(Turns(u, first))
    requires Present(s.objects, Batch(u, first, Turns(u, first)))
    ensures Present(o, Keys(u, first))
  {
    var k := Turns(u, first);
    AddedBytes(u, o, s, first, k);
    BehindSplit(u, o, first, k);
  }

  /** While both lists agree on the shared intermediates, or neither has all its parts, nothing wrong is written. */
  lemma RightIfAgree(u: Session, o: Objects, s: State, first: bool)
    requires Valid(u) && Reachable(u, o, s)
    requires Agree(u, o) || (!Present(o, u.first) && !Present(o, u.second))
    ensures WritesRight(u, o, s, first)
  {
    var steps :| Possible(u, Start(o), steps) && After(u, Start(o), steps) == s;
    InvRun(u, o, Start(o), steps);
    var k := Turns(u, first);
    if At(s, first) == Compose(k) && Composable(s.objects, Batch(u, first, k)) {
      NothingToWrite(u, o, s, first);
      if Agree(u, o) {
        assert AllClean(u, o, Start(o));
        assert Clean(u, o, s, first);
        CleanCompose(u, o, s, first, k);
      }
    }
  }

  /** So the destination never holds anything but one list's bytes, whichever completion wrote last. */
  lemma FinalIsOneList(u: Session, o: Objects, s: State)
    requires Valid(u) && Reachable(u, o, s) && Agree(u, o)
    ensures FinalOf(u, o, s.objects)
  {
    var steps :| Possible(u, Start(o), steps) && After(u, Start(o), steps) == s;
    assert AllClean(u, o, Start(o));
    InvRun(u, o, Start(o), steps);
  }

  // ---- And when they do not agree ----

  /** The intermediate the completion starts its next compose from holds what it was made of. */
  ghost predicate Sound(u: Session, o: Objects, s: State, first: bool, k: nat)
    requires Valid(u) && k <= Turns(u, first) && Present(o, Prefix(u, first, k))
  {
    k == 0 || (u.temps[k - 1] in s.objects && s.objects[u.temps[k - 1]] == Concat(o, Prefix(u, first, k)))
  }

  /** The completion is at its k-th compose in some run that has deleted nothing and written no final object. */
  ghost predicate Underway(u: Session, o: Objects, s: State, first: bool, k: nat)
    requires Valid(u)
  {
    && Reachable(u, o, s) && AgreeOff(o, s.objects, u.temps) && At(s, first) == Compose(k) && k <= Turns(u, first)
    && (k > 0 ==> u.temps[k - 1] in s.objects)
  }

  lemma {:induction false} Extend(u: Session, s: State, steps: seq<Step>, t: Step)
    requires Valid(u) && Possible(u, s, steps) && Enabled(u, After(u, s, steps), t)
    ensures Possible(u, s, steps + [t]) && After(u, s, steps + [t]) == Do(u, After(u, s, steps), t)
    decreases |steps|
  {
    if steps == [] {
      assert (steps + [t])[1..] == [];
    } else {
      assert (steps + [t])[1..] == steps[1..] + [t];
      Extend(u, Do(u, s, steps[0]), steps[1..], t);
    }
  }

  lemma CanRead(u: Session, o: Objects, s: State, first: bool, k: nat)
    requires Valid(u) && Underway(u, o, s, first, k) && Present(o, Added(u, first, k))
    ensures Composable(s.objects, Batch(u, first, k)) || Keys(u, first) == []
  {
    var added := Added(u, first, k);
    BatchPresent(u, s, first, k);
    BatchSplit(u, first, k);
    TurnsLeft(|Keys(u, first)|, k);
    forall i | 0 <= i < |added| ensures added[i] in s.objects {
      AddedPart(u, first, k, i);
    }
  }

  lemma Cancel(x: Bytes, y: Bytes, z: Bytes)
    ensures x + z == y + z <==> x == y
  {
    if x + z == y + z {
      assert |x| == |y|;
      assert x == (x + z)[..|x|] && y == (y + z)[..|y|];
    }
  }

  /** What a compose makes of a sound intermediate is right, and of any other wrong. */
  lemma SoundExactly(u: Session, o: Objects, s: State, first: bool, k: nat)
    requires Valid(u) && Underway(u, o, s, first, k) && Present(s.objects, Batch(u, first, k))
    requires Present(o, Prefix(u, first, k))
    ensures Present(o, Behind(u, first, k))
    ensures Concat(s.objects, Batch(u, first, k)) == Concat(o, Behind(u, first, k)) <==> Sound(u, o, s, first, k)
  {
    AddedBytes(u, o, s, first, k);
    BehindSplit(u, o, first, k);
    Cancel(if k == 0 then [] else s.objects[u.temps[k - 1]], Concat(o, Prefix(u, first, k)),
           Concat(o, Added(u, first, k)));
  }

  lemma ReachStep(u: Session, o: Objects, s: State, t: Step)
    requires Valid(u) && Reachable(u, o, s) && Enabled(u, s, t)
    ensures Reachable(u, o, Do(u, s, t))
  {
    var steps :| Possible(u, Start(o), steps) && After(u, Start(o), steps) == s;
    Extend(u, Start(o), steps, t);
  }

  /** The k-th intermediate is written, and nothing else. */
  ghost predicate Turned(u: Session, s: State, s': State, first: bool, k: nat)
    requires Valid(u) && k < Turns(u, first)
  {
    && Present(s.objects, Batch(u, first, k))
    && s'.objects == s.objects[u.temps[k] := Concat(s.objects, Batch(u, first, k))]
    && At(s', first) == Compose(k + 1) && At(s', !first) == At(s, !first)
  }

  lemma CanTurn(u: Session, o: Objects, s: State, first: bool, k: nat) returns (s': State)
    requires Valid(u) && Underway(u, o, s, first, k) && k < Turns(u, first) && Present(o, Added(u, first, k))
    ensures Reachable(u, o, s') && Turned(u, s, s', first, k)
  {
    CanRead(u, o, s, first, k);
    ReachStep(u, o, s, Step(first, Answered));
    s' := Do(u, s, Step(first, Answered));
  }

  lemma OneTurn(u: Session, o: Objects, s: State, first: bool, k: nat) returns (s': State)
    requires Valid(u) && Underway(u, o, s, first, k) && k < Turns(u, first) && Present(o, Prefix(u, first, k + 1))
    ensures Underway(u, o, s', first, k + 1) && At(s', !first) == At(s, !first) && Present(o, Prefix(u, first, k))
    ensures Sound(u, o, s', first, k + 1) <==> Sound(u, o, s, first, k)
    ensures forall x :: x in s.objects ==> x in s'.objects
  {
    BatchSplit(u, first, k);
    PresentParts(o, Prefix(u, first, k), Added(u, first, k));
    s' := CanTurn(u, o, s, first, k);
    SoundExactly(u, o, s, first, k);
    assert u.temps[k] in u.temps;
  }

  /** Left to itself, the completion composes up to its k-th. */
  lemma {:induction false} Alone(u: Session, o: Objects, s: State, first: bool, a: nat, b: nat) returns (s': State)
    requires Valid(u) && Underway(u, o, s, first, a) && a <= b <= Turns(u, first) && Present(o, Prefix(u, first, b))
    ensures Underway(u, o, s', first, b) && At(s', !first) == At(s, !first) && Present(o, Prefix(u, first, a))
    ensures Sound(u, o, s', first, b) <==> Sound(u, o, s, first, a)
    ensures forall x :: x in s.objects ==> x in s'.objects
    decreases b - a
  {
    if a == b {
      s' := s;
    } else {
      assert Prefix(u, first, a + 1) == Prefix(u, first, b)[..|Prefix(u, first, a + 1)|];
      var s1 := OneTurn(u, o, s, first, a);
      s' := Alone(u, o, s1, first, a + 1, b);
    }
  }

  lemma Disagree(u: Session, o: Objects, first: bool, k: nat)
    requires k < Turns(u, true) && k < Turns(u, false) && !AgreeAt(u, o, k)
    ensures var a, b := Prefix(u, first, k + 1), Prefix(u, !first, k + 1);
            Present(o, a) && Present(o, b) && Concat(o, a) != Concat(o, b)
  {
  }

  /** The one completes its first k + 1 composes, then the other does. */
  lemma Overtaken(u: Session, o: Objects, first: bool, k: nat) returns (s: State)
    requires Valid(u) && k < Turns(u, true) && k < Turns(u, false) && !AgreeAt(u, o, k)
    ensures Present(o, Prefix(u, first, k + 1)) && Underway(u, o, s, first, k + 1) && !Sound(u, o, s, first, k + 1)
  {
    Disagree(u, o, first, k);
    var s0 := Start(o);
    assert Possible(u, s0, []) && After(u, s0, []) == s0;
    var s1 := Alone(u, o, s0, first, 0, k + 1);
    s := Overtakes(u, o, s1, first, k);
  }

  lemma Overtakes(u: Session, o: Objects, s1: State, first: bool, k: nat) returns (s: State)
    requires Valid(u) && k < Turns(u, first) && Underway(u, o, s1, first, k + 1)
    requires k < Turns(u, !first) && At(s1, !first) == Compose(0)
    requires var a, b := Prefix(u, first, k + 1), Prefix(u, !first, k + 1);
             Present(o, a) && Present(o, b) && Concat(o, a) != Concat(o, b)
    ensures Underway(u, o, s, first, k + 1) && !Sound(u, o, s, first, k + 1)
  {
    s := Alone(u, o, s1, !first, 0, k + 1);
    assert Sound(u, o, s, !first, k + 1);
  }

  /** From there on the one composes from the other's intermediate. */
  lemma WrongIfNot(u: Session, o: Objects, first: bool, k: nat) returns (s: State)
    requires Valid(u) && Present(o, Keys(u, first)) && k < Turns(u, true) && k < Turns(u, false) && !AgreeAt(u, o, k)
    ensures Reachable(u, o, s) && !WritesRight(u, o, s, first)
  {
    var t := Turns(u, first);
    BatchSplit(u, first, t);
    PresentParts(o, Prefix(u, first, t), Added(u, first, t));
    var s2 := Overtaken(u, o, first, k);
    s := Alone(u, o, s2, first, k + 1, t);
    CanRead(u, o, s, first, t);
    SoundExactly(u, o, s, first, t);
  }

  /** In every interleaving of two completions of one upload, with requests failing anywhere, whatever a final
      compose writes is right, exactly when the two lists agree, byte for byte, on every intermediate that both
      write, or neither list has all its parts. */
  lemma RightExactly(u: Session, o: Objects)
    requires Valid(u)
    ensures AlwaysRight(u, o) <==> Agree(u, o) || (!Present(o, u.first) && !Present(o, u.second))
  {
    if Agree(u, o) || (!Present(o, u.first) && !Present(o, u.second)) {
      forall s, first | Reachable(u, o, s) ensures WritesRight(u, o, s, first) {
        RightIfAgree(u, o, s, first);
      }
    } else {
      var k: nat :| k < Turns(u, true) && k < Turns(u, false) && !AgreeAt(u, o, k);
      var first := Present(o, u.first);
      var s := WrongIfNot(u, o, first, k);
    }
  }

  // ---- One completion alone ----

  lemma CanWrite(u: Session, o: Objects, s: State, first: bool) returns (s': State)
    requires Valid(u) && Underway(u, o, s, first, Turns(u, first)) && Keys(u, first) != [] && Present(o, Keys(u, first))
    requires Present(o, Prefix(u, first, Turns(u, first))) && Sound(u, o, s, first, Turns(u, first))
    ensures Reachable(u, o, s') && At(s', first) == Cleanup(0)
    ensures s'.objects == s.objects[u.key := Concat(o, Keys(u, first))]
  {
    var t := Turns(u, first);
    BatchSplit(u, first, t);
    PresentParts(o, Prefix(u, first, t), Added(u, first, t));
    CanRead(u, o, s, first, t);
    SoundExactly(u, o, s, first, t);
    ReachStep(u, o, s, Step(first, Answered));
    s' := Do(u, s, Step(first, Answered));
  }

  function Without(o: Objects, names: seq<string>): Objects {
    o - (set x | x in names)
  }

  lemma {:induction false} CanCleanUp(u: Session, o: Objects, s: State, first: bool, i: nat, written: Objects)
    returns (s': State)
    requires Valid(u) && Reachable(u, o, s) && At(s, first) == Cleanup(i) && i < |Cleaned(u, first)|
    requires s.objects == Without(written, Cleaned(u, first)[..i])
    ensures Reachable(u, o, s') && At(s', first) == Ended && s'.objects == Without(written, Cleaned(u, first))
    decreases |Cleaned(u, first)| - i
  {
    var names := Cleaned(u, first);
    ReachStep(u, o, s, Step(first, Answered));
    s' := Do(u, s, Step(first, Answered));
    DeleteOne(written, names, i);
    if i + 1 < |names| {
      s' := CanCleanUp(u, o, s', first, i + 1, written);
    } else {
      assert names[..i + 1] == names;
    }
  }

  lemma DeleteOne(written: Objects, names: seq<string>, i: nat)
    requires i < |names|
    ensures Without(written, names[..i]) - {names[i]} == Without(written, names[..i + 1])
  {
    assert names[..i + 1] == names[..i] + [names[i]];
  }

  /** A completion that nobody disturbs and whose requests are answered ends as the program does on its own. */
  lemma AloneCompletes(u: Session, o: Objects, first: bool) returns (s: State)
    requires Valid(u) && Keys(u, first) != [] && Present(o, Keys(u, first)) && |u.temps| == Turns(u, first)
    ensures Reachable(u, o, s) && At(s, first) == Ended
    ensures Completed(o, s.objects, Keys(u, first), u.temps, u.key)
  {
    var s0, t := Start(o), Turns(u, first);
    assert Possible(u, s0, []) && After(u, s0, []) == s0;
    BatchSplit(u, first, t);
    PresentParts(o, Prefix(u, first, t), Added(u, first, t));
    var s1 := Alone(u, o, s0, first, 0, t);
    var s2 := CanWrite(u, o, s1, first);
    s := CanCleanUp(u, o, s2, first, 0, s2.objects);
    assert u.temps[..t] == u.temps;
    CleanedUp(o, s2.objects, s.objects, Keys(u, first), u.temps, u.key);
  }

  /** Two completions with the same list never disturb each other's result, nor do lists of at most 32 parts. */
  lemma SameListAgrees(u: Session, o: Objects)
    requires Valid(u) && (u.first == u.second || |u.first| <= 32 || |u.second| <= 32)
    ensures AlwaysRight(u, o)
  {
    RightExactly(u, o);
  }

  /** Two lists of more than 32 parts each that begin with different bytes do not agree. */
  lemma WrongExample(u: Session, o: Objects)
    requires Valid(u) && |u.first| > 32 && |u.second| > 32 && Present(o, u.first) && Present(o, u.second)
    requires o[u.first[0]] != [] && o[u.second[0]] != [] && o[u.first[0]][0] != o[u.second[0]][0]
    ensures !AlwaysRight(u, o)
  {
    RightExactly(u, o);
    var a, b := Prefix(u, true, 1), Prefix(u, false, 1);
    assert a[0] == u.first[0] && b[0] == u.second[0];
    assert Concat(o, a)[0] != Concat(o, b)[0];
    assert !AgreeAt(u, o, 0);
  }

  /** The names of a real upload. */
  lemma NamesValid(key: string, uploadId: string, ms: seq<int>, ns: seq<int>, count: nat)
    requires '/' !in uploadId && TempCount(|ms|) <= count && TempCount(|ns|) <= count
    ensures Valid(Session(key, TempKeys(key, uploadId, count), PartKeys(key, uploadId, ms),
                          PartKeys(key, uploadId, ns)))
  {
    TempsDistinct(key, uploadId, count);
    TempKeyAt(key, uploadId, count);
    PartKeyAt(key, uploadId, ms);
    PartKeyAt(key, uploadId, ns);
    forall i | 0 <= i < count ensures TempKeys(key, uploadId, count)[i] != key {
      TempIsNotKey(key, uploadId, i, key);
    }
    forall n: int, i: nat ensures PartKey(key, uploadId, n) != TempKey(key, uploadId, i) {
      PartIsNotTemp(key, uploadId, n, key, uploadId, i);
    }
    forall n: int ensures PartKey(key, uploadId, n) != key {
      PartIsNotKey(key, uploadId, n, key);
    }
  }
}
