/** String operations the backend relies on: Python's split, join, strip and
    decimal formatting, with the facts the codecs and key schemes need. */
module Text {

  /** str.split(sep) for a one-character separator: never empty, and its pieces are separator-free. */
  function Split(s: string, sep: char): (parts: seq<string>)
    ensures |parts| >= 1
    ensures forall p :: p in parts ==> sep !in p
  {
    if s == "" then [""]
    else
      var rest := Split(s[1..], sep);
      if s[0] == sep then [""] + rest else [[s[0]] + rest[0]] + rest[1..]
  }

  /** sep.join(parts). */
  function Join(parts: seq<string>, sep: char): string {
    if |parts| == 0 then ""
    else if |parts| == 1 then parts[0]
    else parts[0] + [sep] + Join(parts[1..], sep)
  }

  /** Joining what split returned gives the text back. */
  lemma {:induction false} JoinOfSplit(s: string, sep: char)
    ensures Join(Split(s, sep), sep) == s
  {
    if s != "" {
      JoinOfSplit(s[1..], sep);
      var rest := Split(s[1..], sep);
      if s[0] == sep {
        assert ([""] + rest)[1..] == rest;
      } else {
        var parts := [[s[0]] + rest[0]] + rest[1..];
        if |rest| > 1 {
          assert parts[1..] == rest[1..];
        }
      }
    }
  }

  lemma {:induction false} SplitSeparatorFree(s: string, sep: char)
    requires sep !in s
    ensures Split(s, sep) == [s]
  {
    if s != "" {
      SplitSeparatorFree(s[1..], sep);
      assert s == [s[0]] + s[1..];
    }
  }

  lemma {:induction false} SplitAtSeparator(a: string, b: string, sep: char)
    requires sep !in a
    ensures Split(a + [sep] + b, sep) == [a] + Split(b, sep)
  {
    var s := a + [sep] + b;
    if a == "" {
      assert s[1..] == b;
    } else {
      assert s[1..] == a[1..] + [sep] + b;
      SplitAtSeparator(a[1..], b, sep);
      assert a == [a[0]] + a[1..];
      assert Split(s[1..], sep)[1..] == Split(b, sep);
    }
  }

  lemma FirstPieceIsFree(s: string, sep: char)
    ensures sep !in Split(s, sep)[0]
  {
    assert Split(s, sep)[0] in Split(s, sep);
  }

  /** Splitting a joined list of separator-free pieces gives the pieces back. */
  lemma {:induction false} SplitOfJoin(parts: seq<string>, sep: char)
    requires |parts| >= 1
    requires forall p :: p in parts ==> sep !in p
    ensures Split(Join(parts, sep), sep) == parts
  {
    if |parts| == 1 {
      SplitSeparatorFree(parts[0], sep);
    } else {
      SplitOfJoin(parts[1..], sep);
      SplitAtSeparator(parts[0], Join(parts[1..], sep), sep);
    }
  }

  lemma CutsDiffer(a: string, b: string, c: string, d: string, sep: char)
    requires |a| < |c| && (sep !in b || sep !in c)
    ensures a + [sep] + b != c + [sep] + d
  {
    var s, t := a + [sep] + b, c + [sep] + d;
    assert t[|c|] == sep && s[|a|] == sep && t[|a|] == c[|a|];
    if |c| < |s| {
      assert s[|c|] == b[|c| - |a| - 1];
    }
  }

  /** A text is cut by its last separator in only one way. */
  lemma LastSeparatorUnique(a: string, b: string, c: string, d: string, sep: char)
    requires a + [sep] + b == c + [sep] + d
    requires sep !in b && sep !in d
    ensures a == c && b == d
  {
    var s, t := a + [sep] + b, c + [sep] + d;
    if |a| < |c| {
      CutsDiffer(a, b, c, d, sep);
    } else if |c| < |a| {
      CutsDiffer(c, d, a, b, sep);
    }
    assert a == s[..|a|] && c == t[..|c|] && b == s[|a| + 1..] && d == t[|c| + 1..];
  }

  /** A text is cut by its first separator in only one way. */
  lemma FirstSeparatorUnique(a: string, b: string, c: string, d: string, sep: char)
    requires a + [sep] + b == c + [sep] + d
    requires sep !in a && sep !in c
    ensures a == c && b == d
  {
    var s, t := a + [sep] + b, c + [sep] + d;
    if |a| < |c| {
      CutsDiffer(a, b, c, d, sep);
    } else if |c| < |a| {
      CutsDiffer(c, d, a, b, sep);
    }
    assert a == s[..|a|] && c == t[..|c|] && b == s[|a| + 1..] && d == t[|c| + 1..];
  }

  /** The whitespace str.strip() removes, within Latin-1. */
  predicate IsSpace(c: char) {
    '\t' <= c <= '\r' || 28 as char <= c <= ' ' || c == 133 as char || c == 160 as char
  }

  function StripLeft(s: string): (r: string)
    ensures r == "" || !IsSpace(r[0])
  {
    if s == "" then "" else if IsSpace(s[0]) then StripLeft(s[1..]) else s
  }

  function StripRight(s: string): (r: string)
    ensures r == "" || !IsSpace(r[|r| - 1])
    ensures r <= s
  {
    if s == "" then "" else if IsSpace(s[|s| - 1]) then StripRight(s[..|s| - 1]) else s
  }

  /** str.strip(). */
  function Strip(s: string): string {
    StripRight(StripLeft(s))
  }

  predicate Stripped(s: string) {
    s == "" || (!IsSpace(s[0]) && !IsSpace(s[|s| - 1]))
  }

  /** strip removes characters at the ends only, and is the identity on what it returns. */
  lemma StripFacts(s: string)
    ensures Stripped(Strip(s))
    ensures Strip(Strip(s)) == Strip(s)
    ensures forall c :: c in Strip(s) ==> c in s
  {
    StripLeftSubset(s);
    var l := StripLeft(s);
    var r := StripRight(l);
    if r != "" {
      assert r[0] == l[0];
    }
    assert StripLeft(r) == r && StripRight(r) == r;
  }

  lemma {:induction false} StripLeftSubset(s: string)
    ensures forall c :: c in StripLeft(s) ==> c in s
  {
    if s != "" && IsSpace(s[0]) {
      StripLeftSubset(s[1..]);
    }
  }

  /** The characters in question, by code. */
  lemma SpaceCodes(c: char)
    ensures IsSpace(c) <==> c as int in {9, 10, 11, 12, 13, 28, 29, 30, 31, 32, 133, 160}
  {
  }

  /** What is left between the outer blanks. */
  ghost predicate Core(s: string, r: string) {
    exists i, j :: IsCore(s, r, i, j)
  }

  ghost predicate IsCore(s: string, r: string, i: int, j: int) {
    && 0 <= i <= j <= |s| && r == s[i..j] && Stripped(r)
    && (forall k :: 0 <= k < i || j <= k < |s| ==> IsSpace(s[k]))
  }

  lemma {:induction false} StripLeftCuts(s: string) returns (i: nat)
    ensures i <= |s| && StripLeft(s) == s[i..] && forall k :: 0 <= k < i ==> IsSpace(s[k])
  {
    if s != "" && IsSpace(s[0]) {
      var j := StripLeftCuts(s[1..]);
      i := j + 1;
      assert s[i..] == s[1..][j..];
      forall k | 0 <= k < i ensures IsSpace(s[k]) {
        assert k > 0 ==> s[k] == s[1..][k - 1];
      }
    } else {
      i := 0;
    }
  }

  lemma {:induction false} StripRightCuts(s: string) returns (j: nat)
    ensures j <= |s| && StripRight(s) == s[..j] && forall k :: j <= k < |s| ==> IsSpace(s[k])
  {
    if s != "" && IsSpace(s[|s| - 1]) {
      j := StripRightCuts(s[..|s| - 1]);
    } else {
      j := |s|;
    }
  }

  /** strip returns the text between the outer blanks, which is determined by that alone. */
  lemma StripExactly(s: string, r: string)
    ensures Strip(s) == r <==> Core(s, r)
  {
    var i := StripLeftCuts(s);
    var n := StripRightCuts(s[i..]);
    StripFacts(s);
    assert Strip(s) == s[i..i + n];
    assert IsCore(s, Strip(s), i, i + n) by {
      forall k | i + n <= k < |s| ensures IsSpace(s[k]) {
        assert s[k] == s[i..][k - i];
      }
    }
    if Core(s, r) {
      OneCore(s, r, Strip(s));
    }
  }

  lemma OneCore(s: string, q: string, r: string)
    requires Core(s, q) && Core(s, r)
    ensures q == r
  {
    var i, j :| IsCore(s, q, i, j);
    var k, l :| IsCore(s, r, k, l);
    if q != "" {
      assert q[0] == s[i] && q[|q| - 1] == s[j - 1];
    }
    if r != "" {
      assert r[0] == s[k] && r[|r| - 1] == s[l - 1];
    }
  }

  /** str.strip(c) for one character. */
  function Trim(s: string, c: char): string {
    TrimRight(TrimLeft(s, c), c)
  }

  function TrimLeft(s: string, c: char): string {
    if s != "" && s[0] == c then TrimLeft(s[1..], c) else s
  }

  function TrimRight(s: string, c: char): string {
    if s != "" && s[|s| - 1] == c then TrimRight(s[..|s| - 1], c) else s
  }

  /** The text with the outer characters c gone. */
  ghost predicate Trimmed(s: string, c: char, r: string) {
    exists i, j :: IsTrimmed(s, c, r, i, j)
  }

  ghost predicate IsTrimmed(s: string, c: char, r: string, i: int, j: int) {
    && 0 <= i <= j <= |s| && r == s[i..j] && (r != "" ==> r[0] != c && r[|r| - 1] != c)
    && (forall k :: 0 <= k < i || j <= k < |s| ==> s[k] == c)
  }

  lemma {:induction false} TrimLeftCuts(s: string, c: char) returns (i: nat)
    ensures i <= |s| && TrimLeft(s, c) == s[i..] && (i < |s| ==> s[i] != c) && forall k :: 0 <= k < i ==> s[k] == c
  {
    if s != "" && s[0] == c {
      var j := TrimLeftCuts(s[1..], c);
      i := j + 1;
      assert s[i..] == s[1..][j..];
      forall k | 0 <= k < i ensures s[k] == c {
        assert k > 0 ==> s[k] == s[1..][k - 1];
      }
    } else {
      i := 0;
    }
  }

  lemma {:induction false} TrimRightCuts(s: string, c: char) returns (j: nat)
    ensures j <= |s| && TrimRight(s, c) == s[..j] && (j > 0 ==> s[j - 1] != c) && forall k :: j <= k < |s| ==> s[k] == c
  {
    if s != "" && s[|s| - 1] == c {
      j := TrimRightCuts(s[..|s| - 1], c);
    } else {
      j := |s|;
    }
  }

  /** strip(c) takes every c off both ends and nothing else. */
  lemma TrimExactly(s: string, c: char)
    ensures Trimmed(s, c, Trim(s, c))
  {
    var i := TrimLeftCuts(s, c);
    var n := TrimRightCuts(s[i..], c);
    assert IsTrimmed(s, c, Trim(s, c), i, i + n) by {
      forall k | i + n <= k < |s| ensures s[k] == c {
        assert s[k] == s[i..][k - i];
      }
    }
  }

  /** str.lower() on ASCII letters. */
  function LowerChar(c: char): char {
    if 'A' <= c <= 'Z' then c + 32 as char else c
  }

  function Lower(s: string): (r: string)
    ensures |r| == |s|
    ensures forall i :: 0 <= i < |s| ==> r[i] == LowerChar(s[i])
  {
    seq(|s|, i requires 0 <= i < |s| => LowerChar(s[i]))
  }

  lemma LowerIdempotent(s: string)
    ensures Lower(Lower(s)) == Lower(s)
  {
  }

  /** Equal, or the capital and the small form of one ASCII letter. */
  predicate SameLetter(c: char, d: char) {
    || c == d
    || ('A' <= c <= 'Z' && d as int == c as int + 32)
    || ('A' <= d <= 'Z' && c as int == d as int + 32)
  }

  ghost predicate SameLetters(s: string, t: string) {
    |s| == |t| && forall i :: 0 <= i < |s| ==> SameLetter(s[i], t[i])
  }

  /** lower identifies exactly the texts that differ in letter case only, and keeps what is no capital. */
  lemma LowerExactly(s: string, t: string)
    ensures Lower(s) == Lower(t) <==> SameLetters(s, t)
    ensures forall i :: 0 <= i < |s| && !('A' <= s[i] <= 'Z') ==> Lower(s)[i] == s[i]
  {
    if Lower(s) == Lower(t) {
      assert |s| == |Lower(s)| == |Lower(t)| == |t|;
      forall i | 0 <= i < |s| ensures SameLetter(s[i], t[i]) {
        assert LowerChar(s[i]) == Lower(s)[i] == Lower(t)[i] == LowerChar(t[i]);
      }
    }
  }

  lemma LowerSlices(s: string, n: nat)
    requires n <= |s|
    ensures Lower(s)[..n] == Lower(s[..n]) && Lower(s)[n..] == Lower(s[n..])
  {
  }

  lemma LowerKeepsSpace(c: char)
    ensures IsSpace(LowerChar(c)) <==> IsSpace(c)
  {
  }

  lemma {:induction false} LowerOfStripLeft(s: string)
    ensures Lower(StripLeft(s)) == StripLeft(Lower(s))
  {
    if s != "" {
      LowerKeepsSpace(s[0]);
      LowerSlices(s, 1);
      LowerOfStripLeft(s[1..]);
    }
  }

  lemma {:induction false} LowerOfStripRight(s: string)
    ensures Lower(StripRight(s)) == StripRight(Lower(s))
  {
    if s != "" {
      LowerKeepsSpace(s[|s| - 1]);
      LowerSlices(s, |s| - 1);
      LowerOfStripRight(s[..|s| - 1]);
    }
  }

  lemma LowerOfStrip(s: string)
    ensures Lower(Strip(s)) == Strip(Lower(s))
  {
    LowerOfStripLeft(s);
    LowerOfStripRight(StripLeft(s));
  }

  predicate IsDigit(c: char) { '0' <= c <= '9' }

  function DigitValue(c: char): nat
    requires IsDigit(c)
  {
    c as int - '0' as int
  }

  /** str(n) for a natural number. */
  function Decimal(n: nat): (s: string)
    ensures |s| >= 1
    ensures forall c :: c in s ==> IsDigit(c)
  {
    if n < 10 then ['0' + n as char] else Decimal(n / 10) + ['0' + (n % 10) as char]
  }

  /** The number a digit string denotes. */
  function Value(s: string): nat
    requires forall c :: c in s ==> IsDigit(c)
  {
    if s == "" then 0
    else
      assert s[|s| - 1] in s;
      10 * Value(s[..|s| - 1]) + DigitValue(s[|s| - 1])
  }

  lemma {:induction false} ValueOfDecimal(n: nat)
    ensures Value(Decimal(n)) == n
  {
    if n >= 10 {
      ValueOfDecimal(n / 10);
      assert Decimal(n)[..|Decimal(n)| - 1] == Decimal(n / 10);
    }
  }

  function Zeros(k: nat): (s: string)
    ensures |s| == k
    ensures forall c :: c in s ==> c == '0'
  {
    seq(k, i => '0')
  }

  /** Zero padding on the left to at least w characters. */
  function ZeroPad(s: string, w: nat): (r: string)
    ensures |r| == if |s| >= w then |s| else w
    ensures forall c :: c in r ==> c in s || c == '0'
  {
    if |s| >= w then s else Zeros(w - |s|) + s
  }

  lemma {:induction false} ValueOfPadded(k: nat, s: string)
    requires forall c :: c in s ==> IsDigit(c)
    ensures Value(Zeros(k) + s) == Value(s)
    decreases |s| + k
  {
    var t := Zeros(k) + s;
    if s != "" {
      assert t[..|t| - 1] == Zeros(k) + s[..|s| - 1];
      ValueOfPadded(k, s[..|s| - 1]);
    } else if k > 0 {
      assert t[..|t| - 1] == Zeros(k - 1) + s;
      ValueOfPadded(k - 1, s);
    }
  }

  /** f"{n:0wd}": the sign, when there is one, counts towards the width. str.zfill pads the same way. */
  function Padded(n: int, w: nat): (s: string)
    ensures forall c :: c in s ==> IsDigit(c) || c == '-'
  {
    if n >= 0 then ZeroPad(Decimal(n), w)
    else ['-'] + ZeroPad(Decimal(-n), if w > 0 then w - 1 else 0)
  }

  lemma ValueOfZeroPad(n: nat, w: nat)
    ensures Value(ZeroPad(Decimal(n), w)) == n
  {
    ValueOfDecimal(n);
    if |Decimal(n)| < w {
      ValueOfPadded(w - |Decimal(n)|, Decimal(n));
    }
  }

  /** Zero-padded numbers are distinct for distinct numbers, whatever the width. */
  lemma PaddedInjective(m: int, n: int, w: nat)
    requires Padded(m, w) == Padded(n, w)
    ensures m == n
  {
    UnpadPadded(m, w);
    UnpadPadded(n, w);
  }

  /** The number a padded text denotes, reading a leading minus sign. */
  function Unpad(s: string): int
    requires forall i :: 0 <= i < |s| ==> IsDigit(s[i]) || (i == 0 && s[i] == '-')
  {
    if s != "" && s[0] == '-' then 0 - Value(Tail(s)) else Value(Digits(s))
  }

  function Tail(s: string): (t: string)
    requires s != "" && forall i :: 0 < i < |s| ==> IsDigit(s[i])
    ensures forall c :: c in t ==> IsDigit(c)
  {
    s[1..]
  }

  function Digits(s: string): (t: string)
    requires forall i :: 0 <= i < |s| ==> IsDigit(s[i])
    ensures t == s && forall c :: c in t ==> IsDigit(c)
  {
    s
  }

  lemma PaddedDigits(n: nat, w: nat)
    ensures forall i :: 0 <= i < |Padded(n, w)| ==> IsDigit(Padded(n, w)[i])
    ensures |Padded(n, w)| > 0 && Padded(n, w)[0] != '-'
  {
    forall i | 0 <= i < |Padded(n, w)| ensures IsDigit(Padded(n, w)[i]) {
      assert Padded(n, w)[i] in ZeroPad(Decimal(n), w);
    }
  }

  lemma UnpadPadded(n: int, w: nat)
    ensures forall i :: 0 <= i < |Padded(n, w)| ==> IsDigit(Padded(n, w)[i]) || (i == 0 && Padded(n, w)[i] == '-')
    ensures Unpad(Padded(n, w)) == n
  {
    if n >= 0 {
      ValueOfZeroPad(n, w);
      PaddedDigits(n, w);
    } else {
      var v := if w > 0 then w - 1 else 0;
      ValueOfZeroPad(-n, v);
      assert Tail(Padded(n, w)) == ZeroPad(Decimal(-n), v);
    }
  }
}
