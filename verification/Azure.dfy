/** Base64 with padding, as section 4 of RFC 4648 defines it. */
module Base64 {

  predicate IsByte(b: int) { 0 <= b < 256 }

  function Digit(v: int): (c: char)
    requires 0 <= v < 64
    ensures c != '='
  {
    if v < 26 then 'A' + v as char
    else if v < 52 then 'a' + (v - 26) as char
    else if v < 62 then '0' + (v - 52) as char
    else if v == 62 then '+' else '/'
  }

  /** The value of a digit, by Table 1. */
  function DigitValue(c: char): int {
    if 'A' <= c <= 'Z' then c as int - 'A' as int
    else if 'a' <= c <= 'z' then c as int - 'a' as int + 26
    else if '0' <= c <= '9' then c as int - '0' as int + 52
    else if c == '+' then 62 else 63
  }

  lemma DigitMeans(v: int)
    requires 0 <= v < 64
    ensures DigitValue(Digit(v)) == v
  {
  }

  lemma DigitInjective(v: int, w: int)
    requires 0 <= v < 64 && 0 <= w < 64 && Digit(v) == Digit(w)
    ensures v == w
  {
  }

  function Encode(bytes: seq<int>): string
    requires forall b :: b in bytes ==> IsByte(b)
  {
    if |bytes| == 0 then ""
    else
      assert IsByte(bytes[0]);
      var a := bytes[0];
      if |bytes| == 1 then [Digit(a / 4), Digit(a % 4 * 16), '=', '=']
      else
        assert IsByte(bytes[1]);
        var b := bytes[1];
        if |bytes| == 2 then [Digit(a / 4), Digit(a % 4 * 16 + b / 16), Digit(b % 16 * 4), '=']
        else
          assert IsByte(bytes[2]);
          var c := bytes[2];
          [Digit(a / 4), Digit(a % 4 * 16 + b / 16), Digit(b % 16 * 4 + c / 64), Digit(c % 64)] + Encode(bytes[3..])
  }

  lemma {:induction false} EncodedLength(bytes: seq<int>)
    requires forall b :: b in bytes ==> IsByte(b)
    ensures |Encode(bytes)| == (|bytes| + 2) / 3 * 4
  {
    if |bytes| > 2 {
      EncodedLength(bytes[3..]);
    }
  }

  /** The number that digits in base 64 denote, most significant first. */
  function Number64(digits: string): int {
    if digits == "" then 0 else Number64(digits[..|digits| - 1]) * 64 + DigitValue(digits[|digits| - 1])
  }

  /** Four digits denote the same number as three bytes, most significant first. */
  lemma GroupMeans(a: int, b: int, c: int, rest: seq<int>)
    requires IsByte(a) && IsByte(b) && IsByte(c) && forall x :: x in rest ==> IsByte(x)
    ensures forall x :: x in [a, b, c] + rest ==> IsByte(x)
    ensures var e := Encode([a, b, c] + rest);
      |e| >= 4 && Number64(e[..4]) == (a * 256 + b) * 256 + c && e[4..] == Encode(rest)
  {
    var bytes := [a, b, c] + rest;
    forall x | x in bytes ensures IsByte(x) {
    }
    assert bytes[3..] == rest;
    var e := Encode(bytes);
    FourDigits(a / 4, a % 4 * 16 + b / 16, b % 16 * 4 + c / 64, c % 64);
    assert e[..4] == [Digit(a / 4), Digit(a % 4 * 16 + b / 16), Digit(b % 16 * 4 + c / 64), Digit(c % 64)];
  }

  lemma ThreeDigits(u: int, v: int, w: int)
    requires 0 <= u < 64 && 0 <= v < 64 && 0 <= w < 64
    ensures Number64([Digit(u), Digit(v)]) == u * 64 + v
    ensures Number64([Digit(u), Digit(v), Digit(w)]) == (u * 64 + v) * 64 + w
  {
    DigitMeans(u);
    DigitMeans(v);
    DigitMeans(w);
    var d := [Digit(u), Digit(v), Digit(w)];
    assert d[..2] == [Digit(u), Digit(v)] && d[..2][..1] == [Digit(u)] && [Digit(u)][..0] == "";
    assert Number64([Digit(u)]) == u;
    assert [Digit(u), Digit(v)][..1] == [Digit(u)];
  }

  lemma FourDigits(u: int, v: int, w: int, x: int)
    requires 0 <= u < 64 && 0 <= v < 64 && 0 <= w < 64 && 0 <= x < 64
    ensures Number64([Digit(u), Digit(v), Digit(w), Digit(x)]) == ((u * 64 + v) * 64 + w) * 64 + x
  {
    ThreeDigits(u, v, w);
    DigitMeans(x);
    assert [Digit(u), Digit(v), Digit(w), Digit(x)][..3] == [Digit(u), Digit(v), Digit(w)];
  }

  /** A last group of two bytes or one is filled up with zero bits and padded to four characters. */
  lemma TailMeans(a: int, b: int)
    requires IsByte(a) && IsByte(b)
    ensures var e := Encode([a, b]); |e| == 4 && Number64(e[..3]) == (a * 256 + b) * 4 && e[3] == '='
    ensures var e := Encode([a]); |e| == 4 && Number64(e[..2]) == a * 16 && e[2..] == "=="
  {
    ThreeDigits(a / 4, a % 4 * 16 + b / 16, b % 16 * 4);
    ThreeDigits(a / 4, a % 4 * 16, 0);
    assert Encode([a, b])[..3] == [Digit(a / 4), Digit(a % 4 * 16 + b / 16), Digit(b % 16 * 4)];
    assert Encode([a])[..2] == [Digit(a / 4), Digit(a % 4 * 16)];
  }

  /** One whole group determines its three bytes. */
  lemma GroupInjective(a: int, b: int, c: int, x: int, y: int, z: int)
    requires IsByte(a) && IsByte(b) && IsByte(c) && IsByte(x) && IsByte(y) && IsByte(z)
    requires a / 4 == x / 4 && a % 4 * 16 + b / 16 == x % 4 * 16 + y / 16
    requires b % 16 * 4 + c / 64 == y % 16 * 4 + z / 64 && c % 64 == z % 64
    ensures a == x && b == y && c == z
  {
  }

  lemma {:induction false} EncodeInjective(s: seq<int>, t: seq<int>)
    requires forall b :: b in s ==> IsByte(b)
    requires forall b :: b in t ==> IsByte(b)
    requires Encode(s) == Encode(t)
    ensures s == t
  {
    EncodedLength(s);
    EncodedLength(t);
    if s != [] {
      var es, et := Encode(s), Encode(t);
      assert es[0] == et[0] && es[1] == et[1] && es[2] == et[2] && es[3] == et[3];
      assert |s| >= 3 ==> es[2] != '=' && es[3] != '=';
      assert |t| >= 3 ==> et[2] != '=' && et[3] != '=';
      assert |s| == 2 ==> es[2] != '=' && es[3] == '=';
      assert |t| == 2 ==> et[2] != '=' && et[3] == '=';
      if |s| >= 3 {
        FirstGroup(s, t);
        assert es[4..] == Encode(s[3..]) && et[4..] == Encode(t[3..]);
        EncodeInjective(s[3..], t[3..]);
        assert s == [s[0], s[1], s[2]] + s[3..] && t == [t[0], t[1], t[2]] + t[3..];
      } else {
        ShortGroup(s, t);
      }
    }
  }

  lemma FirstGroup(s: seq<int>, t: seq<int>)
    requires forall b :: b in s ==> IsByte(b)
    requires forall b :: b in t ==> IsByte(b)
    requires |s| >= 3 && |t| >= 3 && Encode(s)[..4] == Encode(t)[..4]
    ensures s[0] == t[0] && s[1] == t[1] && s[2] == t[2]
  {
    var es, et := Encode(s)[..4], Encode(t)[..4];
    assert IsByte(s[0]) && IsByte(s[1]) && IsByte(s[2]) && IsByte(t[0]) && IsByte(t[1]) && IsByte(t[2]);
    assert es[0] == et[0] && es[1] == et[1] && es[2] == et[2] && es[3] == et[3];
    DigitInjective(s[0] / 4, t[0] / 4);
    DigitInjective(s[0] % 4 * 16 + s[1] / 16, t[0] % 4 * 16 + t[1] / 16);
    DigitInjective(s[1] % 16 * 4 + s[2] / 64, t[1] % 16 * 4 + t[2] / 64);
    DigitInjective(s[2] % 64, t[2] % 64);
    GroupInjective(s[0], s[1], s[2], t[0], t[1], t[2]);
  }

  lemma ShortGroup(s: seq<int>, t: seq<int>)
    requires forall b :: b in s ==> IsByte(b)
    requires forall b :: b in t ==> IsByte(b)
    requires 1 <= |s| <= 2 && |s| == |t| && Encode(s) == Encode(t)
    ensures s == t
  {
    var es, et := Encode(s), Encode(t);
    assert es[0] == et[0] && es[1] == et[1] && es[2] == et[2];
    assert IsByte(s[0]) && IsByte(t[0]);
    DigitInjective(s[0] / 4, t[0] / 4);
    if |s| == 1 {
      DigitInjective(s[0] % 4 * 16, t[0] % 4 * 16);
    } else {
      assert IsByte(s[1]) && IsByte(t[1]);
      DigitInjective(s[0] % 4 * 16 + s[1] / 16, t[0] % 4 * 16 + t[1] / 16);
      DigitInjective(s[1] % 16 * 4, t[1] % 16 * 4);
    }
  }
}

/** backend/app/storage/azure.py: parts are staged as blocks whose ids encode the part number. */
module Azure {
  import opened Assembly
  import Text
  import Base64

  /** The ASCII bytes of a padded number. */
  function Ascii(s: string): (bytes: seq<int>)
    requires forall c :: c in s ==> Text.IsDigit(c) || c == '-'
    ensures |bytes| == |s|
    ensures forall i :: 0 <= i < |s| ==> bytes[i] == s[i] as int
    ensures forall b :: b in bytes ==> Base64.IsByte(b)
  {
    if s == "" then [] else
      assert s[0] in s;
      assert Text.IsDigit(s[0]) || s[0] == '-';
      assert s[0] as int <= 57;
      [s[0] as int] + Ascii(s[1..])
  }

  /** _block_id: base64 of the part number padded to eight characters. */
  function BlockId(n: int): string {
    Base64.Encode(Ascii(Text.Padded(n, 8)))
  }

  /** Distinct part numbers never share a block id, however large they are. */
  lemma BlockIdInjective(m: int, n: int)
    requires BlockId(m) == BlockId(n)
    ensures m == n
  {
    var s, t := Text.Padded(m, 8), Text.Padded(n, 8);
    Base64.EncodeInjective(Ascii(s), Ascii(t));
    assert |s| == |t|;
    forall i | 0 <= i < |s| ensures s[i] == t[i] {
      assert s[i] as int == Ascii(s)[i] == Ascii(t)[i] == t[i] as int;
    }
    assert s == t;
    Text.PaddedInjective(m, n, 8);
  }

  function Pow10(k: nat): (p: nat)
    ensures p >= 1
  {
    if k == 0 then 1 else 10 * Pow10(k - 1)
  }

  lemma {:induction false} DecimalLength(n: nat, k: nat)
    requires k >= 1
    ensures |Text.Decimal(n)| <= k <==> n < Pow10(k)
    decreases k
  {
    if n >= 10 && k > 1 {
      DecimalLength(n / 10, k - 1);
    }
  }

  lemma PowersOfTen()
    ensures Pow10(8) == 100_000_000 && Pow10(9) == 1_000_000_000
  {
  }

  lemma PaddedWidth(n: int)
    ensures 8 <= |Text.Padded(n, 8)|
    ensures |Text.Padded(n, 8)| <= 9 <==> -100_000_000 < n < 1_000_000_000
  {
    PowersOfTen();
    if n >= 0 {
      DecimalLength(n, 9);
    } else {
      DecimalLength(-n, 8);
    }
  }

  lemma GroupsOf(k: nat)
    requires k >= 8
    ensures (k + 2) / 3 * 4 == 12 <==> k <= 9
  {
  }

  /** All ids have the common length Azure requires exactly while the padded number fills at most
      the three base64 groups that eight characters already need. */
  lemma BlockIdLength(n: int)
    ensures |BlockId(n)| == 12 <==> -100_000_000 < n < 1_000_000_000
  {
    var bytes := Ascii(Text.Padded(n, 8));
    Base64.EncodedLength(bytes);
    PaddedWidth(n);
    GroupsOf(|bytes|);
  }

  /** The service's side of a block list: the blocks' bytes in list order. */
  method Commit(blocks: map<string, Bytes>, ns: seq<int>, ghost uploads: map<int, Bytes>) returns (bytes: Bytes)
    requires AllUploaded(uploads, ns)
    requires forall n :: n in uploads ==> BlockId(n) in blocks && blocks[BlockId(n)] == uploads[n]
    ensures bytes == Assembled(uploads, ns)
  {
    bytes := [];
    assert ns[0..] == ns;
    for i := 0 to |ns|
      invariant bytes + Assembled(uploads, ns[i..]) == Assembled(uploads, ns)
    {
      bytes := bytes + blocks[BlockId(ns[i])];
      assert ns[i..][1..] == ns[i + 1..];
    }
    assert ns[|ns|..] == [];
  }

  /** The blocks are exactly the uploaded parts, under their ids. */
  ghost predicate Staged(blocks: map<string, Bytes>, uploads: map<int, Bytes>) {
    && (forall n :: n in uploads ==> BlockId(n) in blocks && blocks[BlockId(n)] == uploads[n])
    && (forall id :: id in blocks ==> exists n :: n in uploads && BlockId(n) == id)
  }

  lemma StageKeeps(blocks: map<string, Bytes>, uploads: map<int, Bytes>, n: int, bytes: Bytes)
    requires Staged(blocks, uploads)
    ensures Staged(blocks[BlockId(n) := bytes], uploads[n := bytes])
  {
    forall m | m in uploads && m != n ensures BlockId(m) != BlockId(n) {
      if BlockId(m) == BlockId(n) {
        BlockIdInjective(m, n);
      }
    }
    var blocks', uploads' := blocks[BlockId(n) := bytes], uploads[n := bytes];
    forall id | id in blocks' ensures exists m :: m in uploads' && BlockId(m) == id {
      if id == BlockId(n) {
        assert n in uploads';
      } else {
        var m :| m in uploads && BlockId(m) == id;
        assert m in uploads';
      }
    }
  }

  class Blob {
    const key: string
    var blocks: map<string, Bytes>  // uncommitted blocks, by id
    var final: seq<Bytes>           // the committed content: empty, or its one value
    ghost var uploads: map<int, Bytes>  // what the client last staged for each part number

    ghost predicate Valid()
      reads this
    {
      Staged(blocks, uploads)
    }

    constructor (key: string)
      ensures Valid() && this.key == key && uploads == map[] && final == []
    {
      this.key := key;
      blocks, final, uploads := map[], [], map[];
    }

    /** The client's PUT to the URL of generate_presigned_part_url. The service refuses an id whose
        length differs from that of the blocks already staged. */
    method StageBlock(n: int, bytes: Bytes) returns (ok: bool)
      requires Valid()
      modifies this
      ensures Valid() && final == old(final)
      ensures ok <==> forall m :: m in old(uploads) ==> |BlockId(m)| == |BlockId(n)|
      ensures uploads == if ok then old(uploads)[n := bytes] else old(uploads)
    {
      ok := forall id :: id in blocks ==> |id| == |BlockId(n)|;
      forall m | m in uploads ensures ok ==> |BlockId(m)| == |BlockId(n)| {
        assert BlockId(m) in blocks;
      }
      if ok {
        StageKeeps(blocks, uploads, n, bytes);
        blocks := blocks[BlockId(n) := bytes];
        uploads := uploads[n := bytes];
      }
    }

    /** complete_multipart_upload: commits the block ids of the sorted list. The service refuses an
        unknown id; committing discards every block not listed. */
    method CompleteMultipartUpload(list: seq<Part>) returns (ok: bool)
      requires Valid()
      modifies this
      ensures Valid()
      ensures ok <==> AllUploaded(old(uploads), SortedNumbers(list))
      ensures !ok ==> uploads == old(uploads) && final == old(final)
      ensures ok ==> uploads == map[] && final == [Assembled(old(uploads), SortedNumbers(list))]
    {
      var ns := SortedNumbers(list);
      ok := forall i :: 0 <= i < |ns| ==> BlockId(ns[i]) in blocks;
      if ok {
        forall i | 0 <= i < |ns| ensures ns[i] in uploads {
          var m :| m in uploads && BlockId(m) == BlockId(ns[i]);
          BlockIdInjective(m, ns[i]);
        }
        var bytes := Commit(blocks, ns, uploads);
        final := [bytes];
        blocks, uploads := map[], map[];
      }
    }

    /** abort_multipart_upload: deletes the blob. The service finds one only if it is committed; that none is
        found passes as success. Whether it drops uncommitted blocks (`drops`) is left open. */
    method AbortMultipartUpload(drops: bool)
      requires Valid()
      modifies this
      ensures Valid() && final == []
      ensures uploads == if drops then map[] else old(uploads)
    {
      final := [];
      if drops {
        blocks, uploads := map[], map[];
      }
    }
  }
}
