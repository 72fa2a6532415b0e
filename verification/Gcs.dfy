/** backend/app/storage/gcs.py: multipart completion by iterated composition. */
module Gcs {
  import opened Assembly
  import opened GcsKeys
  import opened Sequences

  datatype Deletion = Deleted | NotFound | Failed

  type Objects = map<string, Bytes>

  predicate Present(o: Objects, keys: seq<string>) {
    forall i :: 0 <= i < |keys| ==> keys[i] in o
  }

  /** The bytes of the named objects, one after the other. */
  function Concat(o: Objects, keys: seq<string>): Bytes
    requires Present(o, keys)
  {
    if keys == [] then [] else o[keys[0]] + Concat(o, keys[1..])
  }

  lemma {:induction false} ConcatSplit(o: Objects, a: seq<string>, b: seq<string>)
    requires Present(o, a) && Present(o, b)
    ensures Present(o, a + b) && Concat(o, a + b) == Concat(o, a) + Concat(o, b)
  {
    if a == [] {
      assert a + b == b;
    } else {
      ConcatSplit(o, a[1..], b);
      assert (a + b)[1..] == a[1..] + b;
    }
  }

  /** Concatenation reads nothing but the objects it names. */
  lemma {:induction false} ConcatSame(o: Objects, o': Objects, keys: seq<string>)
    requires Present(o, keys)
    requires forall i :: 0 <= i < |keys| ==> keys[i] in o' && o'[keys[i]] == o[keys[i]]
    ensures Present(o', keys) && Concat(o', keys) == Concat(o, keys)
  {
    if keys != [] {
      forall i | 0 <= i < |keys[1..]| ensures keys[1..][i] in o' && o'[keys[1..][i]] == o[keys[1..][i]] {
        assert keys[1..][i] == keys[i + 1];
      }
      ConcatSame(o, o', keys[1..]);
    }
  }

  /** The two maps agree on every key outside the list. */
  ghost predicate AgreeOff(o: Objects, o': Objects, keys: seq<string>) {
    forall x :: x !in keys ==> (x in o <==> x in o') && (x in o && x in o' ==> o[x] == o'[x])
  }

  /** The bucket, with a fault model: it answers `budget` more requests, after which every request
      fails; the request that fails first takes effect all the same when `applied` holds. */
  class Bucket {
    var objects: Objects
    var composes: nat  // compose requests received
    var budget: nat
    var applied: bool

    /** Object Compose: refused without sources or when one is missing. No request may name more than 32. */
    method Compose(sources: seq<string>, dest: string) returns (ok: bool)
      requires |sources| <= 32
      modifies this
      ensures composes == old(composes) + 1
      ensures budget == (if old(budget) > 0 then old(budget) - 1 else 0) && applied == old(applied)
      ensures ok <==> old(budget) > 0 && Composable(old(objects), sources)
      ensures objects == if Composable(old(objects), sources) && (old(budget) > 0 || applied)
                         then old(objects)[dest := Concat(old(objects), sources)] else old(objects)
    {
      composes := composes + 1;
      var composable := Composable(objects, sources);
      ok := budget > 0 && composable;
      if composable && (budget > 0 || applied) {
        objects := objects[dest := Concat(objects, sources)];
      }
      budget := if budget > 0 then budget - 1 else 0;
    }

    method Delete(key: string) returns (reply: Deletion)
      modifies this
      ensures composes == old(composes) && applied == old(applied)
      ensures budget == if old(budget) > 0 then old(budget) - 1 else 0
      ensures reply.Failed? <==> old(budget) == 0
      ensures objects == if old(budget) > 0 || applied then old(objects) - {key} else old(objects)
      ensures reply.Deleted? ==> key in old(objects)
      ensures reply.NotFound? ==> key !in old(objects)
    {
      reply := if budget == 0 then Failed else if key in objects then Deleted else NotFound;
      if budget > 0 || applied {
        objects := objects - {key};
      }
      budget := if budget > 0 then budget - 1 else 0;
    }
  }

  predicate Composable(o: Objects, sources: seq<string>) {
    sources != [] && Present(o, sources)
  }

  function PartKeys(key: string, uploadId: string, ns: seq<int>): (keys: seq<string>)
    ensures |keys| == |ns|
  {
    if ns == [] then [] else [PartKey(key, uploadId, ns[0])] + PartKeys(key, uploadId, ns[1..])
  }

  function TempKeys(key: string, uploadId: string, count: nat): (keys: seq<string>)
    ensures |keys| == count
  {
    if count == 0 then [] else TempKeys(key, uploadId, count - 1) + [TempKey(key, uploadId, count - 1)]
  }

  lemma {:induction false} PartKeyAt(key: string, uploadId: string, ns: seq<int>)
    ensures forall i :: 0 <= i < |ns| ==> PartKeys(key, uploadId, ns)[i] == PartKey(key, uploadId, ns[i])
  {
    if ns != [] {
      PartKeyAt(key, uploadId, ns[1..]);
    }
  }

  lemma {:induction false} TempKeyAt(key: string, uploadId: string, count: nat)
    ensures forall i :: 0 <= i < count ==> TempKeys(key, uploadId, count)[i] == TempKey(key, uploadId, i)
  {
    if count > 0 {
      TempKeyAt(key, uploadId, count - 1);
    }
  }

  /** How many intermediate objects n parts need: ceil((n - 32) / 30) beyond 32, none below. */
  function TempCount(n: nat): nat {
    if n <= 32 then 0 else (n - 32 + 29) / 30
  }

  /** The names one completion works with: final, part and intermediate keys never coincide. */
  ghost predicate Layout(keys: seq<string>, temps: seq<string>, key: string) {
    && |temps| == TempCount(|keys|)
    && (forall x :: x in keys ==> x !in temps)
    && key !in keys && key !in temps
  }

  lemma KeysApart(key: string, uploadId: string, ns: seq<int>)
    requires '/' !in uploadId
    ensures Layout(PartKeys(key, uploadId, ns), TempKeys(key, uploadId, TempCount(|ns|)), key)
  {
    var temps := TempKeys(key, uploadId, TempCount(|ns|));
    PartKeyAt(key, uploadId, ns);
    TempKeyAt(key, uploadId, |temps|);
    forall i | 0 <= i < |ns| ensures PartKeys(key, uploadId, ns)[i] != key {
      PartIsNotKey(key, uploadId, ns[i], key);
    }
    forall i | 0 <= i < |temps| ensures temps[i] != key {
      TempIsNotKey(key, uploadId, i, key);
    }
    forall i, j | 0 <= i < |ns| && 0 <= j < |temps| ensures PartKeys(key, uploadId, ns)[i] != temps[j] {
      PartIsNotTemp(key, uploadId, ns[i], key, uploadId, j);
    }
  }

  lemma TempsDistinct(key: string, uploadId: string, count: nat)
    requires '/' !in uploadId
    ensures Distinct(TempKeys(key, uploadId, count))
  {
    var temps := TempKeys(key, uploadId, count);
    TempKeyAt(key, uploadId, count);
    forall i, j | 0 <= i < j < |temps| ensures temps[i] != temps[j] {
      if temps[i] == temps[j] {
        TempKeyInjective(key, uploadId, i, key, uploadId, j);
      }
    }
  }

  /** What the collapse loop has established after k intermediate composes; `keys` are the part keys
      in PartNumber order and `o` the objects found on entry. */
  ghost predicate Collapsed(o: Objects, now: Objects, keys: seq<string>, temps: seq<string>,
                            k: nat, sources: seq<string>)
  {
    && k <= |temps| == TempCount(|keys|)
    && sources == Sources(keys, temps, k)
    && AgreeOff(o, now, temps)
    && (k > 0 ==> StandsFor(o, now, keys[..30 * k + 1], temps[k - 1]))
  }

  /** The intermediate holds the parts' bytes. */
  ghost predicate StandsFor(o: Objects, now: Objects, keys: seq<string>, temp: string) {
    Present(o, keys) && temp in now && now[temp] == Concat(o, keys)
  }

  /** The loop's list after k turns. */
  function Sources(keys: seq<string>, temps: seq<string>, k: nat): (sources: seq<string>)
    requires k <= |temps| == TempCount(|keys|)
    ensures |sources| == |keys| - 30 * k
  {
    if k == 0 then keys else [temps[k - 1]] + keys[30 * k + 1..]
  }

  /** Part objects present now were there on entry, with the same bytes. */
  lemma PartsStillThere(o: Objects, now: Objects, keys: seq<string>, temps: seq<string>, key: string, lo: nat, hi: nat)
    requires Layout(keys, temps, key) && AgreeOff(o, now, temps) && lo <= hi <= |keys|
    requires Present(now, keys[lo..hi])
    ensures Present(o, keys[lo..hi]) && Concat(now, keys[lo..hi]) == Concat(o, keys[lo..hi])
  {
    var batch := keys[lo..hi];
    forall i | 0 <= i < |batch| ensures batch[i] in o && o[batch[i]] == now[batch[i]] {
      assert batch[i] == keys[lo + i] && keys[lo + i] in keys;
    }
    ConcatSame(now, o, batch);
  }

  lemma ConcatPrefix(o: Objects, keys: seq<string>, a: nat, b: nat)
    requires a <= b <= |keys| && Present(o, keys[..a]) && Present(o, keys[a..b])
    ensures Present(o, keys[..b]) && Concat(o, keys[..b]) == Concat(o, keys[..a]) + Concat(o, keys[a..b])
  {
    assert keys[..b] == keys[..a] + keys[a..b];
    ConcatSplit(o, keys[..a], keys[a..b]);
  }

  /** If the first sources of a collapsed state are present, so is every part they stand for, and
      composing them yields those parts' bytes. */
  lemma SourcesStandForParts(o: Objects, now: Objects, keys: seq<string>, temps: seq<string>, key: string,
                             k: nat, sources: seq<string>, cut: nat)
    requires Layout(keys, temps, key) && Collapsed(o, now, keys, temps, k, sources)
    requires 1 <= cut <= |sources| && Present(now, sources[..cut])
    ensures 30 * k + cut <= |keys| && Present(o, keys[..30 * k + cut])
    ensures Concat(now, sources[..cut]) == Concat(o, keys[..30 * k + cut])
  {
    if k == 0 {
      assert keys[0..cut] == keys[..cut];
      PartsStillThere(o, now, keys, temps, key, 0, cut);
    } else {
      var a, b := 30 * k + 1, 30 * k + cut;
      assert sources[..cut][1..] == keys[a..b];
      assert sources[..cut][0] == temps[k - 1];
      forall i | 0 <= i < b - a ensures keys[a..b][i] in now {
        assert keys[a..b][i] == sources[..cut][i + 1];
      }
      PartsStillThere(o, now, keys, temps, key, a, b);
      ConcatPrefix(o, keys, a, b);
    }
  }

  /** While every part is in the bucket, so is every source. */
  lemma SourcesPresent(o: Objects, now: Objects, keys: seq<string>, temps: seq<string>, key: string,
                       k: nat, sources: seq<string>)
    requires Layout(keys, temps, key) && Collapsed(o, now, keys, temps, k, sources) && Present(o, keys)
    ensures Present(now, sources)
  {
  }

  /** One turn of the loop: an intermediate compose that took effect moves the state one step on. */
  lemma CollapseStep(o: Objects, now: Objects, after: Objects, keys: seq<string>, temps: seq<string>, key: string,
                     k: nat, sources: seq<string>)
    requires Layout(keys, temps, key) && Collapsed(o, now, keys, temps, k, sources)
    requires |sources| == |keys| - 30 * k > 32
    requires Present(now, sources[..31]) && k < |temps|
    requires after == now[temps[k] := Concat(now, sources[..31])]
    ensures Collapsed(o, after, keys, temps, k + 1, [temps[k]] + sources[31..])
  {
    SourcesStandForParts(o, now, keys, temps, key, k, sources, 31);
    assert sources[31..] == keys[30 * (k + 1) + 1..];
  }

  /** The last sources, when all present, compose to the parts' bytes. */
  lemma LastCompose(o: Objects, now: Objects, keys: seq<string>, temps: seq<string>, key: string,
                    k: nat, sources: seq<string>)
    requires Layout(keys, temps, key) && Collapsed(o, now, keys, temps, k, sources)
    requires |sources| == |keys| - 30 * k && sources != [] && Present(now, sources)
    ensures Present(o, keys) && Concat(now, sources) == Concat(o, keys)
  {
    assert sources[..|sources|] == sources && keys[..|keys|] == keys;
    SourcesStandForParts(o, now, keys, temps, key, k, sources, |sources|);
  }

  /** The bucket after a successful completion. */
  ghost predicate Completed(o: Objects, o': Objects, keys: seq<string>, temps: seq<string>, key: string) {
    keys != [] && Present(o, keys)
    && o' == (o - (set x | x in keys) - (set x | x in temps))[key := Concat(o, keys)]
  }

  /** A failure before the final object was written: parts and everything else but this upload's
      intermediate objects are as they were. */
  ghost predicate PartsIntact(o: Objects, o': Objects, temps: seq<string>) {
    AgreeOff(o, o', temps)
  }

  /** A failure after it was written: the final object has the right bytes, the parts that remain are
      unchanged, and so is everything outside this upload. */
  ghost predicate FinalWritten(o: Objects, o': Objects, keys: seq<string>, temps: seq<string>, key: string) {
    keys != [] && Present(o, keys)
    && key in o' && o'[key] == Concat(o, keys)
    && (forall x :: x in keys && x in o' ==> x in o && o'[x] == o[x])
    && AgreeOff(o, o', keys + temps + [key])
  }

  lemma CleanedUp(o: Objects, written: Objects, after: Objects, keys: seq<string>, temps: seq<string>, key: string)
    requires Layout(keys, temps, key) && keys != [] && Present(o, keys) && AgreeOff(o, written, temps + [key])
    requires key in written && written[key] == Concat(o, keys)
    requires after == written - (set x | x in keys + temps)
    ensures Completed(o, after, keys, temps, key)
  {
  }

  // ---- Which intermediate objects exist ----

  /** The first `made` intermediates have been written; the others are as they were. */
  ghost predicate TempsMade(o: Objects, now: Objects, temps: seq<string>, made: nat) {
    made <= |temps| && forall i :: 0 <= i < |temps| ==> (temps[i] in now <==> temps[i] in o || i < made)
  }

  lemma MadeOneMore(o: Objects, now: Objects, after: Objects, key: string, uploadId: string, temps: seq<string>, k: nat,
                    effect: bool)
    requires '/' !in uploadId && temps == TempKeys(key, uploadId, |temps|)
    requires TempsMade(o, now, temps, k) && k < |temps|
    requires after.Keys == now.Keys + if effect then {temps[k]} else {}
    ensures TempsMade(o, after, temps, if effect then k + 1 else k)
  {
    TempsDistinct(key, uploadId, |temps|);
    forall i | 0 <= i < |temps| && i != k ensures temps[i] in after <==> temps[i] in now {
      assert temps[i] != temps[k];
    }
  }

  /** What a completion leaves of the intermediates: of those it wrote or found, the ones that the cleanup,
      which deleted the first `gone` of parts and intermediates, had not come to. */
  ghost predicate Leftover(o: Objects, now: Objects, keys: seq<string>, temps: seq<string>, made: nat, gone: nat) {
    && made <= |temps| && gone <= |keys| + |temps| && (gone > 0 ==> made == |temps|)
    && forall i :: 0 <= i < |temps| ==> (temps[i] in now <==> (temps[i] in o || i < made) && |keys| + i >= gone)
  }

  lemma LeftAfterDelete(o: Objects, written: Objects, after: Objects, keys: seq<string>, temps: seq<string>,
                        key: string, uploadId: string, gone: nat)
    requires '/' !in uploadId && temps == TempKeys(key, uploadId, |temps|)
    requires Layout(keys, temps, key) && TempsMade(o, written, temps, |temps|) && gone <= |keys| + |temps|
    requires after == written - (set x | x in (keys + temps)[..gone])
    ensures Leftover(o, after, keys, temps, |temps|, gone)
  {
    TempsDistinct(key, uploadId, |temps|);
    var deleted := (keys + temps)[..gone];
    forall i | 0 <= i < |temps| ensures temps[i] in deleted <==> |keys| + i < gone {
      if |keys| + i < gone {
        assert deleted[|keys| + i] == temps[i];
      }
      if temps[i] in deleted {
        var j :| 0 <= j < |deleted| && deleted[j] == temps[i];
        assert j < |keys| ==> keys[j] in keys;
        assert j >= |keys| ==> temps[j - |keys|] == temps[i];
      }
    }
  }

  /** Requests that took effect before the bucket's first failure: the answered ones, and one more when the
      failing request was applied. */
  function Effects(budget: nat, applied: bool): nat {
    if applied then budget + 1 else budget
  }

  function Min(a: nat, b: nat): nat { if a < b then a else b }

  /** How many of its t intermediates a completion with all n parts present writes, and how many of the n + t
      keys its cleanup deletes, when that many requests take effect. */
  function MadeBy(effects: nat, t: nat): nat {
    Min(t, effects)
  }

  function GoneBy(effects: nat, n: nat, t: nat): nat {
    if effects <= t + 1 then 0 else Min(n + t, effects - t - 1)
  }

  /** The first intermediate compose takes effect: there is one, its parts are there, and so is the bucket. */
  predicate FirstTakesEffect(o: Objects, keys: seq<string>, budget: nat, applied: bool) {
    |keys| > 32 && Present(o, keys[..31]) && Effects(budget, applied) > 0
  }

  /** A completion deletes parts only when all were there. */
  function GoneFrom(o: Objects, keys: seq<string>, effects: nat, t: nat): nat {
    if keys != [] && Present(o, keys) then GoneBy(effects, |keys|, t) else 0
  }

  /** Of the parts, and of any other names but the final one and the intermediates, the ones that were there
      and that the cleanup had not come to are still there. */
  ghost predicate PartsLeft(o: Objects, now: Objects, keys: seq<string>, temps: seq<string>, key: string, gone: nat) {
    forall x :: x !in temps && x != key ==> (x in now <==> x in o && x !in keys[..Min(gone, |keys|)])
  }

  lemma PartsAfterDelete(o: Objects, written: Objects, after: Objects, keys: seq<string>, temps: seq<string>,
                         key: string, gone: nat)
    requires Layout(keys, temps, key) && AgreeOff(o, written, temps + [key]) && gone <= |keys| + |temps|
    requires after == written - (set x | x in (keys + temps)[..gone])
    ensures PartsLeft(o, after, keys, temps, key, gone)
  {
    var deleted, first := (keys + temps)[..gone], keys[..Min(gone, |keys|)];
    forall x | x !in temps && x != key ensures x in deleted <==> x in first {
      if x in deleted {
        var j :| 0 <= j < |deleted| && deleted[j] == x;
        assert (keys + temps)[j] == x && j < |keys|;
        assert first[j] == x;
      }
      if x in first {
        var j :| 0 <= j < |first| && first[j] == x;
        assert deleted[j] == x;
      }
    }
  }

  /** The same count from the end of the loop on, when `effects` of the remaining requests take effect. */
  function GoneAfterLoop(o: Objects, keys: seq<string>, effects: nat, t: nat): nat {
    if keys != [] && Present(o, keys) && effects > 0 then Min(|keys| + t, effects - 1) else 0
  }

  /** The bucket stopped answering in the loop, so the cleanup was not reached. */
  lemma StoppedEarly(o: Objects, keys: seq<string>, budget: nat, applied: bool, t: nat)
    requires Present(o, keys) ==> budget < t
    ensures GoneFrom(o, keys, Effects(budget, applied), t) == 0
  {
  }

  /** The loop took t answers, which leaves `left` for the final compose and the cleanup. */
  lemma RestOfBudget(o: Objects, keys: seq<string>, left: nat, applied: bool, t: nat)
    ensures GoneFrom(o, keys, Effects(left + t, applied), t) == GoneAfterLoop(o, keys, Effects(left, applied), t)
  {
  }

  /** complete_multipart_upload. Whatever the bucket holds and whenever it fails, the outcome is one of
      the three states above; it succeeds whenever all parts are there and no request fails. */
  method CompleteMultipartUpload(bucket: Bucket, key: string, uploadId: string, parts: seq<Part>,
                                 ghost keys: seq<string>, ghost temps: seq<string>)
    returns (ok: bool, ghost made: nat, ghost gone: nat)
    requires '/' !in uploadId
    requires keys == PartKeys(key, uploadId, SortedNumbers(parts))
    requires temps == TempKeys(key, uploadId, TempCount(|parts|))
    modifies bucket
    ensures ok ==> Completed(old(bucket.objects), bucket.objects, keys, temps, key)
    ensures !ok ==> PartsIntact(old(bucket.objects), bucket.objects, temps)
                    || FinalWritten(old(bucket.objects), bucket.objects, keys, temps, key)
    ensures Leftover(old(bucket.objects), bucket.objects, keys, temps, made, gone)
    ensures PartsLeft(old(bucket.objects), bucket.objects, keys, temps, key, gone)
    ensures (parts == [] || !Present(old(bucket.objects), keys))
            ==> PartsIntact(old(bucket.objects), bucket.objects, temps)
    ensures ok <==> parts != [] && Present(old(bucket.objects), keys) && old(bucket.budget) > |parts| + 2 * |temps|
    ensures gone == GoneFrom(old(bucket.objects), keys, Effects(old(bucket.budget), old(bucket.applied)), |temps|)
    ensures (made > 0) == FirstTakesEffect(old(bucket.objects), keys, old(bucket.budget), old(bucket.applied))
    ensures Present(old(bucket.objects), keys) ==>
              made == MadeBy(Effects(old(bucket.budget), old(bucket.applied)), |temps|)
    ensures bucket.composes - old(bucket.composes) <= TempCount(|parts|) + 1
    ensures ok ==> bucket.composes - old(bucket.composes) == TempCount(|parts|) + 1
  {
    KeysApart(key, uploadId, SortedNumbers(parts));
    var partKeys := PartKeys(key, uploadId, SortedNumbers(parts));
    gone := 0;
    var sources, tempKeys;
    ok, sources, tempKeys, made := Collapse(bucket, key, uploadId, partKeys, temps);
    if ok {
      RestOfBudget(old(bucket.objects), partKeys, bucket.budget, bucket.applied, |temps|);
      ok, gone := AssembleAndClean(bucket, key, uploadId, partKeys, sources, tempKeys, old(bucket.objects), temps);
    } else {
      StoppedEarly(old(bucket.objects), partKeys, old(bucket.budget), old(bucket.applied), |temps|);
    }
  }

  /** The rest after the loop: the final compose and the cleanup. */
  method AssembleAndClean(bucket: Bucket, key: string, ghost uploadId: string, keys: seq<string>,
                          sources: seq<string>, tempKeys: seq<string>, ghost o: Objects, ghost temps: seq<string>)
    returns (ok: bool, ghost gone: nat)
    requires '/' !in uploadId && temps == TempKeys(key, uploadId, |temps|)
    requires Layout(keys, temps, key) && tempKeys == temps && |sources| == |keys| - 30 * |temps| <= 32
    requires Collapsed(o, bucket.objects, keys, temps, |temps|, sources)
    requires TempsMade(o, bucket.objects, temps, |temps|)
    modifies bucket
    ensures ok ==> Completed(o, bucket.objects, keys, temps, key)
    ensures !ok ==> PartsIntact(o, bucket.objects, temps) || FinalWritten(o, bucket.objects, keys, temps, key)
    ensures Leftover(o, bucket.objects, keys, temps, |temps|, gone)
    ensures PartsLeft(o, bucket.objects, keys, temps, key, gone)
    ensures (keys == [] || !Present(o, keys)) ==> PartsIntact(o, bucket.objects, temps)
    ensures ok <==> keys != [] && Present(o, keys) && old(bucket.budget) > |keys| + |temps|
    ensures gone == GoneAfterLoop(o, keys, Effects(old(bucket.budget), old(bucket.applied)), |temps|)
    ensures bucket.composes == old(bucket.composes) + 1
  {
    ghost var before := bucket.objects;
    gone := 0;
    SourcesAfterCollapse(o, before, keys, temps, key, sources);
    ok := bucket.Compose(sources, key);
    if !ok {
      if bucket.objects != before {
        LateFailure(o, before, bucket.objects, keys, temps, key);
      }
      return;
    }
    ok, gone := CleanUp(bucket, key, uploadId, keys, tempKeys, o, temps);
  }

  /** After the final compose: parts and intermediates are deleted, in this order. */
  method CleanUp(bucket: Bucket, ghost key: string, ghost uploadId: string, keys: seq<string>, tempKeys: seq<string>,
                 ghost o: Objects, ghost temps: seq<string>)
    returns (ok: bool, ghost gone: nat)
    requires '/' !in uploadId && tempKeys == temps == TempKeys(key, uploadId, |temps|)
    requires Layout(keys, temps, key) && keys != [] && Present(o, keys)
    requires AgreeOff(o, bucket.objects, temps + [key]) && TempsMade(o, bucket.objects, temps, |temps|)
    requires key in bucket.objects && bucket.objects[key] == Concat(o, keys)
    modifies bucket
    ensures ok ==> Completed(o, bucket.objects, keys, temps, key)
    ensures !ok ==> FinalWritten(o, bucket.objects, keys, temps, key)
    ensures Leftover(o, bucket.objects, keys, temps, |temps|, gone)
    ensures PartsLeft(o, bucket.objects, keys, temps, key, gone)
    ensures ok <==> old(bucket.budget) >= |keys| + |temps|
    ensures gone == Min(|keys| + |temps|, Effects(old(bucket.budget), old(bucket.applied)))
    ensures bucket.composes == old(bucket.composes)
  {
    ghost var written := bucket.objects;
    ok, gone := DeleteKeys(bucket, keys + tempKeys);
    LeftAfterDelete(o, written, bucket.objects, keys, temps, key, uploadId, gone);
    PartsAfterDelete(o, written, bucket.objects, keys, temps, key, gone);
    if ok {
      CleanedUp(o, written, bucket.objects, keys, temps, key);
    } else {
      HalfCleaned(o, written, bucket.objects, keys, temps, key);
    }
  }

  /** The loop: composes the first 31 sources into an intermediate object until at most 32 are left. */
  method Collapse(bucket: Bucket, key: string, uploadId: string, partKeys: seq<string>, ghost temps: seq<string>)
    returns (ok: bool, sources: seq<string>, tempKeys: seq<string>, ghost made: nat)
    requires Layout(partKeys, temps, key) && temps == TempKeys(key, uploadId, TempCount(|partKeys|))
    requires '/' !in uploadId
    modifies bucket
    ensures PartsIntact(old(bucket.objects), bucket.objects, temps)
    ensures TempsMade(old(bucket.objects), bucket.objects, temps, made)
    ensures bucket.applied == old(bucket.applied)
    ensures bucket.composes - old(bucket.composes) <= |temps|
    ensures ok ==> bucket.composes - old(bucket.composes) == |temps|
                   && tempKeys == temps && made == |temps| && |sources| <= 32
                   && bucket.budget == old(bucket.budget) - |temps|
    ensures ok ==> Collapsed(old(bucket.objects), bucket.objects, partKeys, temps, |temps|, sources)
    ensures Present(old(bucket.objects), partKeys) ==>
              (ok <==> old(bucket.budget) >= |temps|)
              && made == MadeBy(Effects(old(bucket.budget), old(bucket.applied)), |temps|)
    ensures (made > 0) ==
            FirstTakesEffect(old(bucket.objects), partKeys, old(bucket.budget), old(bucket.applied))
  {
    ghost var o := bucket.objects;
    ghost var first := FirstTakesEffect(o, partKeys, bucket.budget, bucket.applied);
    sources, tempKeys, made := partKeys, [], 0;
    while |sources| > 32
      invariant made <= |temps| && tempKeys == TempKeys(key, uploadId, made)
      invariant Collapsed(o, bucket.objects, partKeys, temps, made, sources)
      invariant TempsMade(o, bucket.objects, temps, made)
      invariant bucket.composes == old(bucket.composes) + made && (made > 0 ==> first)
      invariant bucket.budget == old(bucket.budget) - made && bucket.applied == old(bucket.applied)
      decreases |sources|
    {
      TurnsLeft(|partKeys|, made);
      var temp := TempKey(key, uploadId, |tempKeys|);
      ok, sources, made := ComposeBatch(bucket, sources, temp, o, partKeys, temps, key, uploadId, made);
      if !ok {
        return;
      }
      tempKeys := tempKeys + [temp];
    }
    TurnsLeft(|partKeys|, made);
    ok := true;
  }

  /** The loop turns exactly as often as there are intermediates to make. */
  lemma TurnsLeft(n: nat, k: nat)
    requires k <= TempCount(n)
    ensures n - 30 * k > 32 <==> k < TempCount(n)
  {
  }

  /** One turn: the first 31 sources are composed into the intermediate, which takes their place. */
  method ComposeBatch(bucket: Bucket, sources: seq<string>, temp: string, ghost o: Objects, ghost keys: seq<string>,
                      ghost temps: seq<string>, ghost key: string, ghost uploadId: string, ghost k: nat)
    returns (ok: bool, shorter: seq<string>, ghost made: nat)
    requires '/' !in uploadId && temps == TempKeys(key, uploadId, |temps|)
    requires Layout(keys, temps, key) && Collapsed(o, bucket.objects, keys, temps, k, sources)
    requires TempsMade(o, bucket.objects, temps, k)
    requires |sources| > 32 && k < |temps| && temp == TempKey(key, uploadId, k)
    modifies bucket
    ensures AgreeOff(o, bucket.objects, temps) && TempsMade(o, bucket.objects, temps, made)
    ensures ok ==> Collapsed(o, bucket.objects, keys, temps, k + 1, shorter) && made == k + 1
                   && |shorter| == |sources| - 30
    ensures Present(o, keys) ==>
              (ok <==> old(bucket.budget) > 0) && made == k + Min(1, Effects(old(bucket.budget), bucket.applied))
    ensures k <= made && (k == 0 ==> (made > 0) == FirstTakesEffect(o, keys, old(bucket.budget), bucket.applied))
    ensures ok ==> bucket.budget == old(bucket.budget) - 1
    ensures bucket.applied == old(bucket.applied) && bucket.composes == old(bucket.composes) + 1
  {
    if Present(o, keys) {
      SourcesPresent(o, bucket.objects, keys, temps, key, k, sources);
    }
    TempKeyAt(key, uploadId, |temps|);
    var batch := sources[..31];
    if k == 0 {
      FirstBatch(o, bucket.objects, keys, temps, key);
    }
    ghost var before := bucket.objects;
    ghost var effect := Composable(before, batch) && (bucket.budget > 0 || bucket.applied);
    ok := bucket.Compose(batch, temp);
    made := if effect then k + 1 else k;
    MadeOneMore(o, before, bucket.objects, key, uploadId, temps, k, effect);
    shorter := [temp] + sources[31..];
    if ok {
      CollapseStep(o, before, bucket.objects, keys, temps, key, k, sources);
    }
  }

  /** The first batch is parts only, so it is there exactly when it was on entry. */
  lemma FirstBatch(o: Objects, now: Objects, keys: seq<string>, temps: seq<string>, key: string)
    requires Layout(keys, temps, key) && AgreeOff(o, now, temps) && |keys| > 32
    ensures Present(now, keys[..31]) <==> Present(o, keys[..31])
  {
    forall i | 0 <= i < 31 ensures keys[..31][i] in o <==> keys[..31][i] in now {
      assert keys[..31][i] in keys;
    }
  }

  /** What the final compose finds when the loop is done. */
  lemma SourcesAfterCollapse(o: Objects, now: Objects, keys: seq<string>, temps: seq<string>, key: string,
                             sources: seq<string>)
    requires Layout(keys, temps, key) && Collapsed(o, now, keys, temps, |temps|, sources)
    requires |sources| == |keys| - 30 * |temps|
    ensures sources == [] <==> keys == []
    ensures sources != [] && Present(now, sources) ==> Present(o, keys) && Concat(now, sources) == Concat(o, keys)
    ensures Present(o, keys) ==> Present(now, sources)
  {
    if Present(o, keys) {
      SourcesPresent(o, now, keys, temps, key, |temps|, sources);
    }
    if sources != [] && Present(now, sources) {
      LastCompose(o, now, keys, temps, key, |temps|, sources);
    }
  }

  /** A final compose that took effect although its request failed. */
  lemma LateFailure(o: Objects, before: Objects, after: Objects, keys: seq<string>, temps: seq<string>, key: string)
    requires Layout(keys, temps, key) && keys != [] && Present(o, keys) && AgreeOff(o, before, temps)
    requires after == before[key := Concat(o, keys)]
    ensures FinalWritten(o, after, keys, temps, key) && PartsLeft(o, after, keys, temps, key, 0)
  {
  }

  /** A cleanup cut short leaves the final object and everything outside this upload alone. */
  lemma HalfCleaned(o: Objects, written: Objects, after: Objects, keys: seq<string>, temps: seq<string>, key: string)
    requires Layout(keys, temps, key) && keys != [] && Present(o, keys)
    requires key in written && written[key] == Concat(o, keys)
    requires AgreeOff(o, written, temps + [key]) && AgreeOff(written, after, keys + temps)
    requires forall x :: x in after ==> x in written && after[x] == written[x]
    ensures FinalWritten(o, after, keys, temps, key)
  {
  }

  /** _delete_keys: a key that is already gone is no failure. */
  method DeleteKeys(bucket: Bucket, keys: seq<string>) returns (ok: bool, ghost gone: nat)
    modifies bucket
    ensures ok <==> old(bucket.budget) >= |keys|
    ensures gone == Min(|keys|, Effects(old(bucket.budget), old(bucket.applied)))
    ensures bucket.objects == old(bucket.objects) - (set x | x in keys[..gone])
    ensures ok ==> bucket.objects == old(bucket.objects) - (set x | x in keys)
    ensures AgreeOff(old(bucket.objects), bucket.objects, keys)
    ensures forall x :: x in bucket.objects ==> x in old(bucket.objects) && bucket.objects[x] == old(bucket.objects)[x]
    ensures bucket.composes == old(bucket.composes)
  {
    gone := 0;
    for i := 0 to |keys|
      invariant bucket.budget == old(bucket.budget) - i && bucket.applied == old(bucket.applied)
      invariant bucket.objects == old(bucket.objects) - (set x | x in keys[..i])
      invariant bucket.composes == old(bucket.composes)
    {
      assert keys[..i + 1] == keys[..i] + [keys[i]];
      var reply := bucket.Delete(keys[i]);
      if reply.Failed? {
        return false, if bucket.applied then i + 1 else i;
      }
    }
    assert keys[..|keys|] == keys;
    ok, gone := true, |keys|;
  }

  /** A client that calls complete again after a failure, the service answering `budget` requests by
      then. The source has no such loop; it is what a caller does with a failed request. The client ends with a
      success exactly when all parts are there and the first call succeeds or stops before it deletes one; the
      final object is right in every case. */
  method CompleteTwice(bucket: Bucket, key: string, uploadId: string, parts: seq<Part>, budget: nat,
                       ghost keys: seq<string>, ghost temps: seq<string>) returns (ok: bool)
    requires '/' !in uploadId
    requires keys == PartKeys(key, uploadId, SortedNumbers(parts))
    requires temps == TempKeys(key, uploadId, TempCount(|parts|))
    requires budget > |parts| + 2 * TempCount(|parts|)
    modifies bucket
    ensures ok <==> parts != [] && Present(old(bucket.objects), keys)
                    && (old(bucket.budget) > |parts| + 2 * TempCount(|parts|)
                        || Effects(old(bucket.budget), old(bucket.applied)) <= TempCount(|parts|) + 1)
    ensures parts != [] && Present(old(bucket.objects), keys) ==>
              key in bucket.objects && bucket.objects[key] == Concat(old(bucket.objects), keys)
    ensures AgreeOff(old(bucket.objects), bucket.objects, keys + temps + [key])
    ensures !ok && parts != [] ==> !Present(bucket.objects, keys)
  {
    ghost var o := bucket.objects;
    KeysApart(key, uploadId, SortedNumbers(parts));
    ghost var made, gone;
    ok, made, gone := CompleteMultipartUpload(bucket, key, uploadId, parts, keys, temps);
    ghost var mid := bucket.objects;
    OutcomesAgree(o, mid, keys, temps, key);
    if !ok {
      PresentAfter(o, mid, keys, temps, key, gone);
      bucket.budget := budget;
      ok, made, gone := CompleteMultipartUpload(bucket, key, uploadId, parts, keys, temps);
      OutcomesAgree(mid, bucket.objects, keys, temps, key);
      if parts != [] && Present(o, keys) {
        RetrySound(o, mid, bucket.objects, keys, temps, key, ok);
      }
      if !ok && parts != [] {
        StillMissing(mid, bucket.objects, keys, temps);
      }
    }
  }

  /** Every outcome of a completion changes only its own parts, intermediates and final object. */
  lemma OutcomesAgree(o: Objects, o': Objects, keys: seq<string>, temps: seq<string>, key: string)
    requires Completed(o, o', keys, temps, key) || PartsIntact(o, o', temps) || FinalWritten(o, o', keys, temps, key)
    ensures AgreeOff(o, o', keys + temps + [key])
  {
    forall x | x !in keys + temps + [key] ensures x !in keys && x !in temps && x != key {
    }
  }

  /** All parts are there after a completion exactly when they were before and it deleted none. */
  lemma PresentAfter(o: Objects, now: Objects, keys: seq<string>, temps: seq<string>, key: string, gone: nat)
    requires Layout(keys, temps, key) && PartsLeft(o, now, keys, temps, key, gone)
    ensures keys != [] ==> (Present(now, keys) <==> Present(o, keys) && gone == 0)
  {
    if gone > 0 && keys != [] {
      assert keys[0] in keys && keys[..Min(gone, |keys|)][0] == keys[0];
    }
    forall i | 0 <= i < |keys| ensures keys[i] in now ==> keys[i] in o {
      assert keys[i] in keys;
    }
    forall i | 0 <= i < |keys| && gone == 0 ensures keys[i] in now <==> keys[i] in o {
      assert keys[i] in keys;
    }
  }

  lemma StillMissing(o: Objects, now: Objects, keys: seq<string>, temps: seq<string>)
    requires PartsIntact(o, now, temps) && !Present(o, keys) && forall x :: x in keys ==> x !in temps
    ensures !Present(now, keys)
  {
    var i :| 0 <= i < |keys| && keys[i] !in o;
    assert keys[i] in keys;
  }

  /** Rerunning reads the same bytes, whatever intermediates the first run left behind; and when parts
      are already deleted the rerun leaves the final object alone. */
  lemma RetrySound(o: Objects, mid: Objects, after: Objects, keys: seq<string>, temps: seq<string>,
                   key: string, ok: bool)
    requires Layout(keys, temps, key) && keys != [] && Present(o, keys)
    requires PartsIntact(o, mid, temps) || FinalWritten(o, mid, keys, temps, key)
    requires if ok then Completed(mid, after, keys, temps, key)
             else PartsIntact(mid, after, temps) || FinalWritten(mid, after, keys, temps, key)
    requires Present(mid, keys) ==> ok
    ensures key in after && after[key] == Concat(o, keys)
  {
    forall i | 0 <= i < |keys| ensures PartsIntact(o, mid, temps) ==> keys[i] in mid {
      assert keys[i] in keys;
    }
    if Present(mid, keys) {
      forall i | 0 <= i < |keys| ensures mid[keys[i]] == o[keys[i]] {
        assert keys[i] in keys;
      }
      ConcatSame(o, mid, keys);
    }
  }

  /** The part objects of an upload hold its uploaded parts. */
  ghost predicate Holds(o: Objects, key: string, uploadId: string, uploads: map<int, Bytes>, ns: seq<int>) {
    forall i :: 0 <= i < |ns| ==>
      ns[i] in uploads && PartKey(key, uploadId, ns[i]) in o && o[PartKey(key, uploadId, ns[i])] == uploads[ns[i]]
  }

  /** Composing in PartNumber order is the plain concatenation the other providers perform. */
  lemma {:induction false} ConcatIsAssembled(o: Objects, key: string, uploadId: string, uploads: map<int,
                                             Bytes>, ns: seq<int>)
    requires Holds(o, key, uploadId, uploads, ns)
    ensures AllUploaded(uploads, ns) && Present(o, PartKeys(key, uploadId, ns))
    ensures Concat(o, PartKeys(key, uploadId, ns)) == Assembled(uploads, ns)
  {
    if ns != [] {
      forall i | 0 <= i < |ns[1..]|
        ensures var n := ns[1..][i];
                n in uploads && PartKey(key, uploadId, n) in o && o[PartKey(key, uploadId, n)] == uploads[n]
      {
        assert ns[1..][i] == ns[i + 1];
      }
      ConcatIsAssembled(o, key, uploadId, uploads, ns[1..]);
      var keys := PartKeys(key, uploadId, ns);
      PartKeyAt(key, uploadId, ns);
      assert keys[1..] == PartKeys(key, uploadId, ns[1..]);
      forall i | 0 <= i < |keys| ensures keys[i] in o {
        assert keys[i] == PartKey(key, uploadId, ns[i]);
      }
    }
  }

  /** abort_multipart_upload: deletes what a listing of the part prefix returned (`listed`, in the
      service's order). */
  method AbortMultipartUpload(bucket: Bucket, key: string, uploadId: string, listed: seq<string>) returns (ok: bool)
    requires forall x :: x in listed <==> x in bucket.objects && PartPrefix(key, uploadId) <= x
    modifies bucket
    ensures ok <==> old(bucket.budget) >= |listed|
    ensures forall x :: x in bucket.objects ==> x in old(bucket.objects) && bucket.objects[x] == old(bucket.objects)[x]
    ensures ok ==> bucket.objects == old(bucket.objects)
                                     - (set x | x in old(bucket.objects) && PartPrefix(key, uploadId) <= x)
    ensures ok ==> forall n: int :: PartKey(key, uploadId, n) !in bucket.objects
    ensures forall x :: !(PartPrefix(key, uploadId) <= x) ==>
              (x in bucket.objects <==> x in old(bucket.objects))
              && (x in bucket.objects ==> bucket.objects[x] == old(bucket.objects)[x])
  {
    ghost var gone;
    ok, gone := DeleteKeys(bucket, listed);
    forall n: int ensures PartPrefix(key, uploadId) <= PartKey(key, uploadId, n) {
    }
    if ok {
      assert (set x | x in listed) == (set x | x in old(bucket.objects) && PartPrefix(key, uploadId) <= x);
    }
    forall x | !(PartPrefix(key, uploadId) <= x) ensures x !in listed {
    }
  }
}
