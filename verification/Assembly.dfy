/** The reference meaning of completing a multipart upload: the bytes of the
    listed parts, in PartNumber order. */
module Assembly {

  type Bytes = seq<bv8>

  /** One entry of the part list the client sends to complete an upload. */
  datatype Part = Part(number: int, etag: string)

  /** sorted(parts, key=PartNumber): ascending and stable. */
  function SortParts(parts: seq<Part>): (sorted: seq<Part>)
    ensures |sorted| == |parts|
  {
    if parts == [] then [] else InsertPart(parts[0], SortParts(parts[1..]))
  }

  function InsertPart(p: Part, sorted: seq<Part>): (r: seq<Part>)
    ensures |r| == |sorted| + 1
  {
    if sorted == [] || p.number <= sorted[0].number then [p] + sorted
    else [sorted[0]] + InsertPart(p, sorted[1..])
  }

  function Numbers(parts: seq<Part>): (ns: seq<int>)
    ensures |ns| == |parts|
    ensures forall i :: 0 <= i < |ns| ==> ns[i] == parts[i].number
  {
    if parts == [] then [] else [parts[0].number] + Numbers(parts[1..])
  }

  /** The part numbers in the order the provider receives them. */
  function SortedNumbers(parts: seq<Part>): (ns: seq<int>)
    ensures |ns| == |parts|
  {
    Numbers(SortParts(parts))
  }

  ghost predicate Ascending(ns: seq<int>) {
    |ns| <= 1 || (ns[0] <= ns[1] && Ascending(ns[1..]))
  }

  lemma ElementsOfCons<T>(x: T, s: seq<T>)
    ensures multiset([x] + s) == multiset{x} + multiset(s)
  {
  }

  lemma {:induction false} InsertPartPermutes(p: Part, sorted: seq<Part>)
    ensures multiset(InsertPart(p, sorted)) == multiset{p} + multiset(sorted)
  {
    if sorted == [] || p.number <= sorted[0].number {
      ElementsOfCons(p, sorted);
    } else {
      InsertPartPermutes(p, sorted[1..]);
      ElementsOfCons(sorted[0], InsertPart(p, sorted[1..]));
      ElementsOfCons(sorted[0], sorted[1..]);
      assert sorted == [sorted[0]] + sorted[1..];
    }
  }

  lemma {:induction false} InsertPartNumbers(p: Part, sorted: seq<Part>)
    ensures multiset(Numbers(InsertPart(p, sorted))) == multiset{p.number} + multiset(Numbers(sorted))
  {
    if sorted == [] || p.number <= sorted[0].number {
      ElementsOfCons(p.number, Numbers(sorted));
    } else {
      InsertPartNumbers(p, sorted[1..]);
      ElementsOfCons(sorted[0].number, Numbers(InsertPart(p, sorted[1..])));
      ElementsOfCons(sorted[0].number, Numbers(sorted[1..]));
    }
  }

  lemma {:induction false} InsertPartSorts(p: Part, sorted: seq<Part>)
    requires Ascending(Numbers(sorted))
    ensures Ascending(Numbers(InsertPart(p, sorted)))
  {
    var ns, r := Numbers(sorted), InsertPart(p, sorted);
    if sorted == [] || p.number <= sorted[0].number {
      assert Numbers(r)[1..] == ns;
    } else {
      assert Numbers(sorted[1..]) == ns[1..];
      InsertPartSorts(p, sorted[1..]);
      assert Numbers(r)[1..] == Numbers(InsertPart(p, sorted[1..]));
    }
  }

  /** Sorting orders the part numbers. */
  lemma {:induction false} SortPartsSorts(parts: seq<Part>)
    ensures Ascending(SortedNumbers(parts))
  {
    if parts != [] {
      SortPartsSorts(parts[1..]);
      InsertPartSorts(parts[0], SortParts(parts[1..]));
    }
  }

  lemma {:induction false} SortNumbersPermutes(parts: seq<Part>)
    ensures multiset(SortedNumbers(parts)) == multiset(Numbers(parts))
  {
    if parts != [] {
      var t := SortParts(parts[1..]);
      SortNumbersPermutes(parts[1..]);
      InsertPartNumbers(parts[0], t);
      ElementsOfCons(parts[0].number, Numbers(parts[1..]));
    }
  }

  /** Sorting neither drops nor repeats a part. */
  lemma {:induction false} SortPartsPermutes(parts: seq<Part>)
    ensures multiset(SortParts(parts)) == multiset(parts)
    ensures multiset(SortedNumbers(parts)) == multiset(Numbers(parts))
  {
    SortNumbersPermutes(parts);
    if parts != [] {
      SortPartsPermutes(parts[1..]);
      InsertPartPermutes(parts[0], SortParts(parts[1..]));
      ElementsOfCons(parts[0], parts[1..]);
      assert parts == [parts[0]] + parts[1..];
    }
  }

  lemma {:induction false} AscendingHead(ns: seq<int>, m: int)
    requires Ascending(ns) && m in ns
    ensures ns[0] <= m
  {
    if m != ns[0] {
      AscendingHead(ns[1..], m);
    }
  }

  lemma SameHead(a: seq<int>, b: seq<int>)
    requires a != [] && Ascending(a) && Ascending(b) && multiset(a) == multiset(b)
    ensures b != [] && a[0] == b[0]
  {
    assert a[0] in multiset(b);
    assert b[0] in multiset(a);
    AscendingHead(a, b[0]);
    AscendingHead(b, a[0]);
  }

  lemma SameTail(a: seq<int>, b: seq<int>)
    requires a != [] && b != [] && a[0] == b[0] && multiset(a) == multiset(b)
    ensures multiset(a[1..]) == multiset(b[1..])
  {
    TailElements(a);
    TailElements(b);
  }

  lemma TailElements(ns: seq<int>)
    requires ns != []
    ensures multiset(ns[1..]) == multiset(ns) - multiset{ns[0]}
  {
    assert ns == [ns[0]] + ns[1..];
  }

  /** Only one ascending sequence has given elements. */
  lemma {:induction false} AscendingUnique(a: seq<int>, b: seq<int>)
    requires Ascending(a) && Ascending(b) && multiset(a) == multiset(b)
    ensures a == b
  {
    if a == [] {
      assert |b| == |multiset(b)|;
    } else {
      SameHead(a, b);
      SameTail(a, b);
      AscendingUnique(a[1..], b[1..]);
      assert a == [a[0]] + a[1..] && b == [b[0]] + b[1..];
    }
  }

  /** The order the client lists the parts in has no influence on what any
      provider assembles. */
  lemma ClientOrderIrrelevant(p: seq<Part>, q: seq<Part>)
    requires multiset(Numbers(p)) == multiset(Numbers(q))
    ensures SortedNumbers(p) == SortedNumbers(q)
  {
    SortPartsSorts(p);
    SortPartsSorts(q);
    SortPartsPermutes(p);
    SortPartsPermutes(q);
    AscendingUnique(SortedNumbers(p), SortedNumbers(q));
  }

  ghost predicate Different(ns: seq<int>) {
    forall i, j :: 0 <= i < j < |ns| ==> ns[i] != ns[j]
  }

  lemma {:induction false} DifferentIsSingle(ns: seq<int>)
    ensures Different(ns) <==> forall n :: multiset(ns)[n] <= 1
  {
    if ns != [] {
      var rest := ns[1..];
      DifferentIsSingle(rest);
      assert ns == [ns[0]] + rest;
      assert Different(ns) <==> Different(rest) && ns[0] !in rest;
      forall n ensures multiset(ns)[n] == multiset(rest)[n] + (if n == ns[0] then 1 else 0) {
      }
      if Different(ns) {
        assert multiset(rest)[ns[0]] == 0;
      } else if ns[0] in rest {
        assert multiset(ns)[ns[0]] >= 2;
      } else {
        var n :| multiset(rest)[n] > 1;
        assert multiset(ns)[n] > 1;
      }
    }
  }

  lemma {:induction false} AscendingOrders(ns: seq<int>, i: nat, j: nat)
    requires Ascending(ns) && i < j < |ns|
    ensures ns[i] <= ns[j]
    decreases |ns|
  {
    if i == 0 {
      assert ns[j] in ns;
      AscendingHead(ns, ns[j]);
    } else {
      AscendingOrders(ns[1..], i - 1, j - 1);
    }
  }

  ghost predicate Strict(ns: seq<int>) {
    forall i, j :: 0 <= i < j < |ns| ==> ns[i] < ns[j]
  }

  lemma StrictIfDifferent(ns: seq<int>)
    requires Ascending(ns)
    ensures Strict(ns) == Different(ns)
  {
    forall i, j | 0 <= i < j < |ns| ensures ns[i] <= ns[j] {
      AscendingOrders(ns, i, j);
    }
  }

  lemma DifferentIsUnordered(ms: seq<int>, ns: seq<int>)
    requires multiset(ms) == multiset(ns)
    ensures Different(ms) == Different(ns)
  {
    DifferentIsSingle(ms);
    DifferentIsSingle(ns);
  }

  /** The sorted numbers strictly ascend exactly when the client listed no number twice. */
  lemma StrictExactly(parts: seq<Part>)
    ensures Strict(SortedNumbers(parts)) == Different(Numbers(parts))
  {
    SortPartsSorts(parts);
    SortPartsPermutes(parts);
    StrictIfDifferent(SortedNumbers(parts));
    DifferentIsUnordered(SortedNumbers(parts), Numbers(parts));
  }

  /** Every number of the list has been uploaded. */
  predicate AllUploaded(uploads: map<int, Bytes>, ns: seq<int>) {
    forall i :: 0 <= i < |ns| ==> ns[i] in uploads
  }

  /** Plain concatenation of the uploaded parts, in the order of ns. */
  function Assembled(uploads: map<int, Bytes>, ns: seq<int>): Bytes
    requires AllUploaded(uploads, ns)
  {
    if ns == [] then [] else uploads[ns[0]] + Assembled(uploads, ns[1..])
  }

  /** The parts' bytes stand in list order, one part after the other. */
  lemma {:induction false} AssembledInOrder(uploads: map<int, Bytes>, before: seq<int>, n: int, after: seq<int>)
    requires AllUploaded(uploads, before) && n in uploads && AllUploaded(uploads, after)
    ensures AllUploaded(uploads, before + [n] + after)
    ensures Assembled(uploads, before + [n] + after)
            == Assembled(uploads, before) + uploads[n] + Assembled(uploads, after)
  {
    var all := before + [n] + after;
    if before == [] {
      assert all[1..] == after;
    } else {
      assert all[1..] == before[1..] + [n] + after;
      AssembledInOrder(uploads, before[1..], n, after);
    }
  }
}

/** backend/app/storage/s3.py: the provider that assembles parts itself. */
module S3 {
  import opened Assembly

  datatype StoredPart = StoredPart(etag: string, bytes: Bytes)

  predicate Rising(list: seq<Part>) {
    forall i, j :: 0 <= i < j < |list| ==> list[i].number < list[j].number
  }

  predicate Matched(parts: map<int, StoredPart>, list: seq<Part>) {
    forall i :: 0 <= i < |list| ==> list[i].number in parts && parts[list[i].number].etag == list[i].etag
  }

  lemma RisingExactly(list: seq<Part>)
    ensures Rising(SortParts(list)) == forall i, j :: 0 <= i < j < |list| ==> list[i].number != list[j].number
  {
    StrictExactly(list);
    RisingNumbers(SortParts(list));
    assert Different(Numbers(list)) == forall i, j :: 0 <= i < j < |list| ==> list[i].number != list[j].number;
  }

  lemma RisingNumbers(list: seq<Part>)
    ensures Rising(list) == Strict(Numbers(list))
  {
  }

  /** Sorting keeps the parts themselves. */
  lemma SortedMember(list: seq<Part>, p: Part)
    ensures p in SortParts(list) <==> p in list
  {
    var sorted := SortParts(list);
    SortPartsPermutes(list);
    assert p in list <==> p in multiset(list);
    assert p in sorted <==> p in multiset(sorted);
  }

  lemma MatchedMembers(parts: map<int, StoredPart>, list: seq<Part>)
    ensures Matched(parts, list) == forall p :: p in list ==> p.number in parts && parts[p.number].etag == p.etag
  {
  }

  lemma MatchedExactly(parts: map<int, StoredPart>, list: seq<Part>)
    ensures Matched(parts, SortParts(list))
            == forall p :: p in list ==> p.number in parts && parts[p.number].etag == p.etag
  {
    MatchedMembers(parts, SortParts(list));
    forall p ensures p in SortParts(list) <==> p in list {
      SortedMember(list, p);
    }
  }

  class Upload {
    const key: string       // the destination
    const uploadId: string
    var open: bool          // until it is completed or aborted
    var parts: map<int, StoredPart>
    var final: seq<Bytes>  // the object under the destination key: empty, or its one content

    constructor (key: string, uploadId: string)
      ensures this.key == key && this.uploadId == uploadId && open && parts == map[] && final == []
    {
      this.key, this.uploadId := key, uploadId;
      open, parts, final := true, map[], [];
    }

    /** The bytes last uploaded for each part number. */
    ghost function Uploads(): map<int, Bytes>
      reads this
    {
      map n | n in parts :: parts[n].bytes
    }

    /** The service's CompleteMultipartUpload: part numbers strictly ascending, every part stored with the
        ETag given; the object is the parts' bytes in list order. */
    method Assemble(list: seq<Part>) returns (ok: bool)
      modifies this
      ensures ok <==> old(Accepts(list))
      ensures !ok ==> open == old(open) && parts == old(parts) && final == old(final)
      ensures ok ==> !open && parts == map[] && AllUploaded(old(Uploads()), Numbers(list))
                     && final == [Assembled(old(Uploads()), Numbers(list))]
    {
      ok := Accepts(list);
      if ok {
        var bytes: Bytes := [];
        ghost var ns, uploads := Numbers(list), Uploads();
        assert ns[0..] == ns;
        for i := 0 to |list|
          invariant parts == old(parts) && final == old(final) && uploads == old(Uploads())
          invariant AllUploaded(uploads, ns)
          invariant bytes + Assembled(uploads, ns[i..]) == Assembled(uploads, ns)
        {
          bytes := bytes + parts[list[i].number].bytes;
          assert ns[i..][1..] == ns[i + 1..];
        }
        assert ns[|list|..] == [] && bytes == Assembled(uploads, ns);
        final := [bytes];
        open, parts := false, map[];
      }
    }

    predicate Accepts(list: seq<Part>)
      reads this
    {
      open && list != [] && Rising(list) && Matched(parts, list)
    }

    /** Every listed part was uploaded, with the ETag given, and none is listed twice. */
    ghost predicate Lists(list: seq<Part>)
      reads this
    {
      && list != [] && (forall i, j :: 0 <= i < j < |list| ==> list[i].number != list[j].number)
      && (forall p :: p in list ==> p.number in parts && parts[p.number].etag == p.etag)
    }

    lemma SortedAccepted(list: seq<Part>)
      ensures Accepts(SortParts(list)) == (open && Lists(list))
    {
      RisingExactly(list);
      MatchedExactly(parts, list);
    }

    /** complete_multipart_upload: sorts the client's list before the request, which is accepted, in whatever order the
        client listed them, exactly when the upload is open and the listed parts are right. */
    method CompleteMultipartUpload(list: seq<Part>) returns (ok: bool)
      modifies this
      ensures ok <==> old(open && Lists(list))
      ensures !ok ==> open == old(open) && parts == old(parts) && final == old(final)
      ensures ok ==> !open && parts == map[] && AllUploaded(old(Uploads()), SortedNumbers(list))
                     && final == [Assembled(old(Uploads()), SortedNumbers(list))]
    {
      SortedAccepted(list);
      ok := Assemble(SortParts(list));
    }

    /** abort_multipart_upload: the service knows an upload id until it is completed or aborted, and refuses it
        afterwards. */
    method AbortMultipartUpload() returns (ok: bool)
      modifies this
      ensures ok == old(open) && !open && final == old(final)
      ensures parts == if ok then map[] else old(parts)
    {
      ok := open;
      if ok {
        open, parts := false, map[];
      }
    }
  }
}
