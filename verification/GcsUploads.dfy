/** One multipart upload among others: what completing or aborting it leaves of itself and of them. */
module GcsUploads {
  import opened Assembly
  import opened GcsKeys
  import opened Gcs

  // ---- Other uploads and files ----

  /** The name means the same in both maps. */
  predicate SameAt(o: Objects, o': Objects, x: string) {
    (x in o <==> x in o') && (x in o && x in o' ==> o[x] == o'[x])
  }

  /** The objects of another upload, and of another file, are as they were. */
  ghost predicate OthersAsBefore(o: Objects, o': Objects, key: string, u: string, k': string, u': string) {
    && ((key, u) != (k', u') ==>
          && (forall n: int :: SameAt(o, o', PartKey(k', u', n)))
          && (forall i: nat :: SameAt(o, o', TempKey(k', u', i))))
    && (key != k' ==> SameAt(o, o', k'))
  }

  /** A completion, however it ends, touches no part, intermediate or final object of any other upload. */
  lemma CompletionLeavesOthers(o: Objects, o': Objects, key: string, u: string, ns: seq<int>, count: nat, k': string,
                               u': string)
    requires '/' !in u && '/' !in u' && Slashes(key) == Slashes(k')
    requires var keys, temps := PartKeys(key, u, ns), TempKeys(key, u, count);
             Completed(o, o', keys, temps, key) || PartsIntact(o, o', temps) || FinalWritten(o, o', keys, temps, key)
    ensures OthersAsBefore(o, o', key, u, k', u')
  {
    var keys, temps := PartKeys(key, u, ns), TempKeys(key, u, count);
    OutcomesAgree(o, o', keys, temps, key);
    if (key, u) != (k', u') {
      forall n: int ensures SameAt(o, o', PartKey(k', u', n)) {
        PartElsewhere(key, u, ns, count, k', u', n);
      }
      forall i: nat ensures SameAt(o, o', TempKey(k', u', i)) {
        TempElsewhere(key, u, ns, count, k', u', i);
      }
    }
    if key != k' {
      KeyElsewhere(key, u, ns, count, k');
    }
  }

  lemma PartElsewhere(key: string, u: string, ns: seq<int>, count: nat, k': string, u': string, n: int)
    requires '/' !in u && '/' !in u' && Slashes(key) == Slashes(k') && (key, u) != (k', u')
    ensures PartKey(k', u', n) !in PartKeys(key, u, ns) + TempKeys(key, u, count) + [key]
  {
    PartKeyAt(key, u, ns);
    TempKeyAt(key, u, count);
    forall i | 0 <= i < |ns| ensures PartKey(key, u, ns[i]) != PartKey(k', u', n) {
      if PartKey(key, u, ns[i]) == PartKey(k', u', n) {
        PartKeyInjective(key, u, ns[i], k', u', n);
      }
    }
    forall i | 0 <= i < count ensures TempKey(key, u, i) != PartKey(k', u', n) {
      PartIsNotTemp(k', u', n, key, u, i);
    }
    PartIsNotKey(k', u', n, key);
  }

  lemma TempElsewhere(key: string, u: string, ns: seq<int>, count: nat, k': string, u': string, n: nat)
    requires '/' !in u && '/' !in u' && Slashes(key) == Slashes(k') && (key, u) != (k', u')
    ensures TempKey(k', u', n) !in PartKeys(key, u, ns) + TempKeys(key, u, count) + [key]
  {
    PartKeyAt(key, u, ns);
    TempKeyAt(key, u, count);
    forall i | 0 <= i < |ns| ensures PartKey(key, u, ns[i]) != TempKey(k', u', n) {
      PartIsNotTemp(key, u, ns[i], k', u', n);
    }
    forall i | 0 <= i < count ensures TempKey(key, u, i) != TempKey(k', u', n) {
      if TempKey(key, u, i) == TempKey(k', u', n) {
        TempKeyInjective(key, u, i, k', u', n);
      }
    }
    TempIsNotKey(k', u', n, key);
  }

  lemma KeyElsewhere(key: string, u: string, ns: seq<int>, count: nat, k': string)
    requires '/' !in u && Slashes(key) == Slashes(k') && key != k'
    ensures k' !in PartKeys(key, u, ns) + TempKeys(key, u, count) + [key]
  {
    PartKeyAt(key, u, ns);
    TempKeyAt(key, u, count);
    forall i | 0 <= i < |ns| ensures PartKey(key, u, ns[i]) != k' {
      PartIsNotKey(key, u, ns[i], k');
    }
    forall i | 0 <= i < count ensures TempKey(key, u, i) != k' {
      TempIsNotKey(key, u, i, k');
    }
  }

  /** So does an abort; it touches no intermediate or final object at all. */
  lemma AbortLeavesOthers(o: Objects, o': Objects, key: string, u: string, k': string, u': string)
    requires '/' !in u && '/' !in u' && Slashes(key) == Slashes(k')
    requires forall x :: !(PartPrefix(key, u) <= x) ==> SameAt(o, o', x)
    ensures OthersAsBefore(o, o', key, u, k', u')
    ensures SameAt(o, o', k') && forall i: nat :: SameAt(o, o', TempKey(k', u', i))
  {
    forall n: int | (key, u) != (k', u') ensures SameAt(o, o', PartKey(k', u', n)) {
      PrefixSeparatesUploads(key, u, k', u', n);
    }
    forall i: nat ensures SameAt(o, o', TempKey(k', u', i)) {
      PrefixMissesTemps(key, u, k', u', i);
    }
    PrefixMissesKeys(key, u, k');
  }

  // ---- What an abort leaves of the upload ----

  /** The object belongs to the upload: a name under its part prefix, or an intermediate. */
  ghost predicate OfUpload(x: string, key: string, u: string) {
    PartPrefix(key, u) <= x || exists i: nat :: x == TempKey(key, u, i)
  }

  ghost predicate Remains(o: Objects, key: string, u: string) {
    exists x :: x in o && OfUpload(x, key, u)
  }

  /** An intermediate found by the completion, say of an earlier try, that its cleanup had not come to. */
  ghost predicate EarlierLeft(o: Objects, key: string, u: string, n: nat, gone: nat) {
    exists i: nat :: TempKey(key, u, i) in o && (i < TempCount(n) ==> n + i >= gone)
  }

  /** After a completion that failed and an abort that succeeded, an object of the upload remains exactly when
      more than 32 parts were listed, an intermediate compose took effect, and the cleanup had not come to the
      last intermediate; or when an earlier intermediate was there and not cleaned up. */
  lemma AbortLeavesExactly(o: Objects, failed: Objects, after: Objects, key: string, u: string, ns: seq<int>,
                           made: nat, gone: nat)
    requires '/' !in u
    requires var keys, temps := PartKeys(key, u, ns), TempKeys(key, u, TempCount(|ns|));
             (PartsIntact(o, failed, temps) || FinalWritten(o, failed, keys, temps, key))
             && Leftover(o, failed, keys, temps, made, gone)
    requires after == failed - set x | x in failed && PartPrefix(key, u) <= x
    ensures Remains(after, key, u)
            <==> (|ns| > 32 && made > 0 && gone < |ns| + TempCount(|ns|)) || EarlierLeft(o, key, u, |ns|, gone)
  {
    forall i: nat ensures TempKey(key, u, i) in after
            <==> if i < TempCount(|ns|) then (TempKey(key, u, i) in o || i < made) && |ns| + i >= gone
                 else TempKey(key, u, i) in o
    {
      TempAfter(o, failed, after, key, u, ns, made, gone, i);
    }
    if |ns| > 32 && made > 0 && gone < |ns| + TempCount(|ns|) {
      var i: nat := if gone > 0 then TempCount(|ns|) - 1 else 0;
      assert TempKey(key, u, i) in after && OfUpload(TempKey(key, u, i), key, u);
    }
    if EarlierLeft(o, key, u, |ns|, gone) {
      var i: nat :| TempKey(key, u, i) in o && (i < TempCount(|ns|) ==> |ns| + i >= gone);
      assert TempKey(key, u, i) in after && OfUpload(TempKey(key, u, i), key, u);
    }
    if x :| x in after && OfUpload(x, key, u) {
      var i: nat :| x == TempKey(key, u, i);
      assert TempKey(key, u, i) in after;
    }
  }

  lemma TempAfter(o: Objects, failed: Objects, after: Objects, key: string, u: string, ns: seq<int>,
                  made: nat, gone: nat, i: nat)
    requires '/' !in u
    requires var keys, temps := PartKeys(key, u, ns), TempKeys(key, u, TempCount(|ns|));
             (PartsIntact(o, failed, temps) || FinalWritten(o, failed, keys, temps, key))
             && Leftover(o, failed, keys, temps, made, gone)
    requires after == failed - set x | x in failed && PartPrefix(key, u) <= x
    ensures TempKey(key, u, i) in after
            <==> if i < TempCount(|ns|) then (TempKey(key, u, i) in o || i < made) && |ns| + i >= gone
                 else TempKey(key, u, i) in o
  {
    var keys, temps := PartKeys(key, u, ns), TempKeys(key, u, TempCount(|ns|));
    PrefixMissesTemps(key, u, key, u, i);
    TempKeyAt(key, u, |temps|);
    if i < |temps| {
      assert temps[i] == TempKey(key, u, i);
    } else {
      OutcomesAgree(o, failed, keys, temps, key);
      OwnTempBeyond(key, u, ns, i);
    }
  }

  lemma OwnTempBeyond(key: string, u: string, ns: seq<int>, n: nat)
    requires '/' !in u && n >= TempCount(|ns|)
    ensures TempKey(key, u, n) !in PartKeys(key, u, ns) + TempKeys(key, u, TempCount(|ns|)) + [key]
  {
    PartKeyAt(key, u, ns);
    TempKeyAt(key, u, TempCount(|ns|));
    forall i | 0 <= i < |ns| ensures PartKey(key, u, ns[i]) != TempKey(key, u, n) {
      PartIsNotTemp(key, u, ns[i], key, u, n);
    }
    forall i | 0 <= i < TempCount(|ns|) ensures TempKey(key, u, i) != TempKey(key, u, n) {
      if TempKey(key, u, i) == TempKey(key, u, n) {
        TempKeyInjective(key, u, i, key, u, n);
      }
    }
    TempIsNotKey(key, u, n, key);
  }

  /** list_blobs with a prefix, in some order. */
  method ListBlobs(o: Objects, prefix: string) returns (listed: seq<string>)
    ensures forall x :: x in listed <==> x in o && prefix <= x
  {
    var left := set x | x in o && prefix <= x;
    ghost var all := left;
    listed := [];
    while left != {}
      invariant left <= all && forall x :: x in listed <==> x in all - left
      decreases |left|
    {
      var x :| x in left;
      left, listed := left - {x}, listed + [x];
    }
  }

  /** The completion leaves an intermediate of its own behind: the first one was composed, and the cleanup did not
      come to the last. */
  ghost predicate LeavesOwn(o: Objects, keys: seq<string>, budget: nat, applied: bool) {
    && FirstTakesEffect(o, keys, budget, applied)
    && (Present(o, keys) ==> Effects(budget, applied) <= |keys| + 2 * TempCount(|keys|))
  }

  lemma LeavesOwnExactly(o: Objects, keys: seq<string>, budget: nat, applied: bool, made: nat, gone: nat)
    requires (made > 0) == FirstTakesEffect(o, keys, budget, applied)
    requires gone == GoneFrom(o, keys, Effects(budget, applied), TempCount(|keys|))
    ensures |keys| > 32 && made > 0 && gone < |keys| + TempCount(|keys|) <==> LeavesOwn(o, keys, budget, applied)
  {
  }

  /** A client whose completion fails, and who aborts once the bucket answers. Something of the upload remains
      exactly when more than 32 parts were listed, the first 31 of them were there, a request took effect and, if
      all parts were there, the last one did not; or when an intermediate of an earlier try was there that the
      cleanup did not come to. */
  method CompleteThenAbort(bucket: Bucket, key: string, u: string, parts: seq<Part>)
    returns (completed: bool, aborted: bool)
    requires '/' !in u
    modifies bucket
    ensures completed <==> parts != [] && Present(old(bucket.objects), PartKeys(key, u, SortedNumbers(parts)))
                           && old(bucket.budget) > |parts| + 2 * TempCount(|parts|)
    ensures !completed ==> aborted
    ensures !completed ==>
              var o, keys := old(bucket.objects), PartKeys(key, u, SortedNumbers(parts));
              var effects := Effects(old(bucket.budget), old(bucket.applied));
              Remains(bucket.objects, key, u)
              <==> LeavesOwn(o, keys, old(bucket.budget), old(bucket.applied))
                   || EarlierLeft(o, key, u, |parts|, GoneFrom(o, keys, effects, TempCount(|parts|)))
  {
    ghost var o, ns := bucket.objects, SortedNumbers(parts);
    ghost var keys := PartKeys(key, u, ns);
    ghost var made, gone;
    completed, made, gone := CompleteMultipartUpload(bucket, key, u, parts, keys, TempKeys(key, u, TempCount(|parts|)));
    aborted := false;
    if !completed {
      ghost var failed := bucket.objects;
      var listed := ListBlobs(bucket.objects, PartPrefix(key, u));
      bucket.budget := |listed|;
      aborted := AbortMultipartUpload(bucket, key, u, listed);
      AbortLeavesExactly(o, failed, bucket.objects, key, u, ns, made, gone);
      LeavesOwnExactly(o, keys, old(bucket.budget), old(bucket.applied), made, gone);
    }
  }

  /** For one: 33 parts, and a bucket that answers one request. */
  method LeakOfOneRequest(bucket: Bucket, key: string, u: string, parts: seq<Part>)
    requires '/' !in u && |parts| == 33
    requires Present(bucket.objects, PartKeys(key, u, SortedNumbers(parts)))
    requires bucket.budget == 1 && !bucket.applied
    modifies bucket
    ensures Remains(bucket.objects, key, u)
  {
    var completed, aborted := CompleteThenAbort(bucket, key, u, parts);
  }

  /** Another: the last of 33 listed parts was never uploaded, and the bucket answers every request. */
  method LeakOfMissingPart(bucket: Bucket, key: string, u: string, parts: seq<Part>)
    requires '/' !in u && |parts| == 33 && bucket.budget > 33 + 2 * TempCount(33)
    requires var keys := PartKeys(key, u, SortedNumbers(parts));
             Present(bucket.objects, keys[..32]) && keys[32] !in bucket.objects
    modifies bucket
    ensures Remains(bucket.objects, key, u)
  {
    ghost var keys := PartKeys(key, u, SortedNumbers(parts));
    assert keys[..32][..31] == keys[..31];
    var completed, aborted := CompleteThenAbort(bucket, key, u, parts);
  }
}
