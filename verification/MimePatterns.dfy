/** MIME pattern lists: the matching of backend/app/services/file.py and the coverage test of
    backend/app/services/upload_token.py. */
module MimePatterns {
  import opened Text
  import opened Options
  import Csv

  /** pattern.strip().lower(). */
  function Normalise(pattern: string): string {
    Lower(Strip(pattern))
  }

  // p.endswith("/*")
  predicate IsWildcard(p: string) {
    |p| >= 2 && p[|p| - 2] == '/' && p[|p| - 1] == '*'
  }

  /** The text a content type must start with to match a wildcard: p[:-1]. */
  function Stem(p: string): string
    requires IsWildcard(p)
  {
    p[..|p| - 1]
  }

  /** One turn of the loop of _mime_allowed, on lower-cased content type and normalised pattern. */
  predicate Accepts(p: string, ct: string) {
    p == "*/*" || p == ct || (IsWildcard(p) && Stem(p) <= ct)
  }

  /** _mime_allowed. */
  predicate MimeAllowed(contentType: string, allowed: seq<string>) {
    if allowed == [] then false
    else Accepts(Normalise(allowed[0]), Lower(contentType)) || MimeAllowed(contentType, allowed[1..])
  }

  lemma {:induction false} MimeAllowedIff(contentType: string, allowed: seq<string>)
    ensures MimeAllowed(contentType, allowed)
            <==> exists p :: p in allowed && Accepts(Normalise(p), Lower(contentType))
  {
    if allowed != [] {
      MimeAllowedIff(contentType, allowed[1..]);
      assert forall p :: p in allowed <==> p == allowed[0] || p in allowed[1..];
    }
  }

  // ---- In terms of the texts themselves ----

  /** A pattern without its outer blanks admits a content type: the universal one, the same text up to letter case,
      or a wildcard that ends in a slash and a star and the rest of which the content type starts with, up to case. */
  ghost predicate Admits(q: string, ct: string) {
    || q == "*/*"
    || SameLetters(q, ct)
    || (|q| >= 2 && q[|q| - 2] == '/' && q[|q| - 1] == '*' && |q| - 1 <= |ct|
        && SameLetters(q[..|q| - 1], ct[..|q| - 1]))
  }

  lemma UniversalInLower(q: string)
    ensures Lower(q) == "*/*" <==> q == "*/*"
  {
    if Lower(q) == "*/*" {
      assert |q| == 3 && LowerChar(q[0]) == '*' && LowerChar(q[1]) == '/' && LowerChar(q[2]) == '*';
    }
  }

  lemma WildcardInLower(q: string)
    ensures IsWildcard(Lower(q)) <==> IsWildcard(q)
  {
    if |q| >= 2 {
      var c, d := q[|q| - 2], q[|q| - 1];
      assert Lower(q)[|q| - 2] == LowerChar(c) && Lower(q)[|q| - 1] == LowerChar(d);
      assert (LowerChar(c) == '/' <==> c == '/') && (LowerChar(d) == '*' <==> d == '*');
    }
  }

  /** A beginning in lower case is the lower-case form of a beginning. */
  lemma PrefixInLower(l: string, ct: string)
    ensures l <= Lower(ct) <==> |l| <= |ct| && l == Lower(ct[..|l|])
  {
    if |l| <= |ct| {
      LowerSlices(ct, |l|);
    }
  }

  lemma StemInLower(q: string, l: string)
    requires IsWildcard(q) && l == Lower(q) && IsWildcard(l)
    ensures Stem(l) == Lower(Stem(q))
  {
    LowerSlices(q, |q| - 1);
  }

  lemma WildcardAccepts(q: string, ct: string)
    requires IsWildcard(q) && IsWildcard(Lower(q))
    ensures (Stem(Lower(q)) <= Lower(ct)) == (|q| - 1 <= |ct| && SameLetters(Stem(q), ct[..|q| - 1]))
  {
    StemInLower(q, Lower(q));
    PrefixInLower(Lower(Stem(q)), ct);
    if |q| - 1 <= |ct| {
      LowerExactly(Stem(q), ct[..|q| - 1]);
    }
  }

  lemma AcceptsExactly(pattern: string, ct: string)
    ensures Accepts(Normalise(pattern), Lower(ct)) == Admits(Strip(pattern), ct)
  {
    var q := Strip(pattern);
    UniversalInLower(q);
    WildcardInLower(q);
    LowerExactly(q, ct);
    if IsWildcard(q) {
      WildcardAccepts(q, ct);
    }
  }

  /** A content type is allowed exactly when some listed pattern admits it. */
  lemma AllowedExactly(ct: string, allowed: seq<string>)
    ensures MimeAllowed(ct, allowed) <==> exists p, q :: p in allowed && Core(p, q) && Admits(q, ct)
  {
    MimeAllowedIff(ct, allowed);
    forall p, q ensures Core(p, q) <==> Strip(p) == q {
      StripExactly(p, q);
    }
    forall p ensures Accepts(Normalise(p), Lower(ct)) <==> Admits(Strip(p), ct) {
      AcceptsExactly(p, ct);
    }
    if MimeAllowed(ct, allowed) {
      var p :| p in allowed && Accepts(Normalise(p), Lower(ct));
      assert Core(p, Strip(p));
    }
  }

  /** A pattern that is no wildcard allows exactly one text, up to letter case and the pattern's outer blanks. */
  lemma ExactPattern(ct: string, pattern: string, q: string)
    requires Core(pattern, q) && !IsWildcard(q)
    ensures MimeAllowed(ct, [pattern]) <==> SameLetters(q, ct)
  {
    StripExactly(pattern, q);
    MimeAllowedIff(ct, [pattern]);
    AcceptsExactly(pattern, ct);
  }

  /** Letter case never matters. */
  lemma CaseIrrelevant(ct: string, ct': string, ps: seq<string>, ps': seq<string>, config: set<string>)
    requires SameLetters(ct, ct') && |ps| == |ps'| && forall i :: 0 <= i < |ps| ==> SameLetters(ps[i], ps'[i])
    ensures MimeAllowed(ct, ps) <==> MimeAllowed(ct', ps')
    ensures forall i :: 0 <= i < |ps| ==> (Covered(ps[i], config) <==> Covered(ps'[i], config))
  {
    LowerExactly(ct, ct');
    forall i | 0 <= i < |ps| ensures Normalise(ps[i]) == Normalise(ps'[i]) {
      NormaliseSame(ps[i], ps'[i]);
    }
    SameVerdicts(Lower(ct), ct, ct', ps, ps');
  }

  lemma NormaliseSame(p: string, p': string)
    requires SameLetters(p, p')
    ensures Normalise(p) == Normalise(p')
  {
    LowerExactly(p, p');
    LowerOfStrip(p);
    LowerOfStrip(p');
  }

  lemma {:induction false} SameVerdicts(lower: string, ct: string, ct': string, ps: seq<string>, ps': seq<string>)
    requires Lower(ct) == Lower(ct') == lower && |ps| == |ps'|
    requires forall i :: 0 <= i < |ps| ==> Normalise(ps[i]) == Normalise(ps'[i])
    ensures MimeAllowed(ct, ps) <==> MimeAllowed(ct', ps')
  {
    if ps != [] {
      SameVerdicts(lower, ct, ct', ps[1..], ps'[1..]);
    }
  }

  /** The config column as a pattern list: pieces of the comma-separated text, blanks dropped. */
  function ConfigItems(csv: string): seq<string> {
    NonBlank(Split(csv, ','))
  }

  function NonBlank(pieces: seq<string>): (kept: seq<string>)
    ensures forall p :: p in kept <==> p in pieces && Strip(p) != ""
  {
    if pieces == [] then []
    else (if Strip(pieces[0]) != "" then [pieces[0]] else []) + NonBlank(pieces[1..])
  }

  /** _parse_config_mime_types. */
  function ConfigSet(csv: string): (c: set<string>) {
    set p | p in ConfigItems(csv) :: Normalise(p)
  }

  /** For a column the config service wrote, these are the patterns it was given, in lower case and without outer
      blanks, blank ones dropped. */
  lemma StoredPatterns(values: seq<string>, q: string)
    requires Csv.CommaFree(values) && Csv.JoinField(Some(values)).Some?
    ensures q in ConfigSet(Csv.JoinField(Some(values)).value)
            <==> exists v :: v in values && Strip(v) != "" && Normalise(v) == q
  {
    var kept := Csv.Kept(values);
    Csv.KeptIsClean(values);
    Csv.JoinEmpty(kept);
    SplitOfJoin(kept, ',');
    var items := ConfigItems(Join(kept, ','));
    forall v ensures v in items <==> v in kept {
    }
    if v :| v in values && Strip(v) != "" && Normalise(v) == q {
      StripExactly(v, Strip(v));
      Csv.KeptExactly(values, Strip(v));
      StripFacts(v);
      assert Strip(v) in items && Normalise(Strip(v)) == q;
    }
    if k :| k in items && Normalise(k) == q {
      Csv.KeptExactly(values, k);
      var v :| v in values && Core(v, k);
      StripExactly(v, k);
    }
  }

  // p.split("/")[0] + "/*"
  function MajorWildcard(p: string): string {
    Split(p, '/')[0] + "/*"
  }

  /** _token_mime_covered_by_config. */
  predicate Covered(pattern: string, config: set<string>) {
    var p := Normalise(pattern);
    if "*/*" in config then true
    else if p == "*/*" then false
    else if IsWildcard(p) then p in config
    else p in config || MajorWildcard(p) in config
  }

  /** _reject_token_mime_types. */
  function Rejected(tokens: seq<string>, csv: string): (r: seq<string>)
    ensures forall t :: t in r <==> t in tokens && !Covered(t, ConfigSet(csv))
  {
    if tokens == [] then []
    else (if Covered(tokens[0], ConfigSet(csv)) then [] else [tokens[0]]) + Rejected(tokens[1..], csv)
  }

  /** The rejected patterns come in the order they were given, repetitions included. */
  lemma {:induction false} RejectedInOrder(a: seq<string>, b: seq<string>, csv: string)
    ensures Rejected(a + b, csv) == Rejected(a, csv) + Rejected(b, csv)
  {
    if a == [] {
      assert a + b == b;
    } else {
      assert (a + b)[1..] == a[1..] + b;
      RejectedInOrder(a[1..], b, csv);
    }
  }

  /** Some pattern of the set accepts the (lower-cased) content type. */
  ghost predicate AcceptedBy(config: set<string>, ct: string) {
    exists q :: q in config && Accepts(q, ct)
  }

  /** Every content type the pattern accepts is accepted by the set: inclusion of two infinite languages. */
  ghost predicate Included(p: string, config: set<string>) {
    forall ct :: Accepts(p, ct) && Lower(ct) == ct ==> AcceptedBy(config, ct)
  }

  /** A finite test for it. */
  ghost predicate Subsumed(p: string, config: set<string>) {
    "*/*" in config || p in config || exists q :: q in config && IsWildcard(q) && Stem(q) <= p
  }

  function Repeat(n: nat): (s: string)
    ensures |s| == n && forall i :: 0 <= i < n ==> s[i] == 'x'
  {
    seq(n, i => 'x')
  }

  lemma LongerThanAll(config: set<string>) returns (n: nat)
    ensures n > 0 && forall q :: q in config ==> |q| < n
  {
    if config == {} {
      n := 1;
    } else {
      var q :| q in config;
      var m := LongerThanAll(config - {q});
      n := if m > |q| then m else |q| + 1;
      forall r | r in config ensures |r| < n {
        if r != q {
          assert r in config - {q};
        }
      }
    }
  }

  /** A content type the pattern accepts, longer than every pattern of the set when the pattern is a
      wildcard. */
  function Witness(p: string, n: nat): string {
    if p == "*/*" then Repeat(n) + "/x"
    else if IsWildcard(p) then Stem(p) + Repeat(n)
    else p
  }

  lemma WitnessAccepted(p: string, n: nat)
    requires Lower(p) == p
    ensures Accepts(p, Witness(p, n)) && Lower(Witness(p, n)) == Witness(p, n)
  {
  }

  /** Only a subsuming pattern accepts the witness. */
  lemma WitnessSeparates(p: string, n: nat, q: string)
    requires |q| < n && Accepts(q, Witness(p, n))
    ensures q == "*/*" || q == p || (IsWildcard(q) && Stem(q) <= p)
  {
  }

  /** The finite test decides inclusion, for every pattern and every set. */
  lemma InclusionDecided(p: string, config: set<string>)
    requires Lower(p) == p
    ensures Included(p, config) <==> Subsumed(p, config)
  {
    if Subsumed(p, config) {
      forall ct | Accepts(p, ct) ensures AcceptedBy(config, ct) {
        SubsumedIncludes(p, config, ct);
      }
    }
    if Included(p, config) {
      var n := LongerThanAll(config);
      WitnessAccepted(p, n);
      assert AcceptedBy(config, Witness(p, n));
      var q :| q in config && Accepts(q, Witness(p, n));
      WitnessSeparates(p, n, q);
    }
  }

  lemma SubsumedIncludes(p: string, config: set<string>, ct: string)
    requires Subsumed(p, config) && Accepts(p, ct)
    ensures AcceptedBy(config, ct)
  {
  }

  /** Exactly one slash, as every well-formed content type and pattern has. */
  predicate OneSlash(p: string) {
    |Split(p, '/')| == 2
  }

  lemma OneSlashParts(p: string)
    requires OneSlash(p)
    ensures var s := Split(p, '/'); p == s[0] + "/" + s[1] && '/' !in s[0] && '/' !in s[1]
  {
    JoinOfSplit(p, '/');
    var s := Split(p, '/');
    assert s[1..] == [s[1]];
    assert Join(s, '/') == s[0] + ['/'] + s[1];
    assert s[0] in s && s[1] in s;
  }

  /** A wildcard whose stem begins a one-slash pattern is that pattern's major-type wildcard. */
  lemma OnlyMajorWildcard(p: string, q: string)
    requires OneSlash(p) && IsWildcard(q)
    ensures Stem(q) <= p <==> q == MajorWildcard(p)
  {
    OneSlashParts(p);
    var s := Split(p, '/');
    var b := q[..|q| - 2];
    assert q == b + "/*" && Stem(q) == b + "/";
    if Stem(q) <= p {
      var rest := p[|Stem(q)|..];
      assert p == b + "/" + rest;
      if '/' in b {
        var k :| 0 <= k < |b| && b[k] == '/';
        TwoSlashes(p, s[0], s[1], k, |b|);
      }
      FirstSeparatorUnique(b, rest, s[0], s[1], '/');
    }
    if q == MajorWildcard(p) {
      assert q[..|q| - 2] == s[0];
      assert Stem(q) == s[0] + "/" && p == Stem(q) + s[1];
    }
  }

  lemma TwoSlashes(p: string, a: string, b: string, i: nat, j: nat)
    requires p == a + "/" + b && '/' !in a && '/' !in b
    requires i < |p| && j < |p| && p[i] == '/' && p[j] == '/'
    ensures i == j
  {
  }

  /** The syntactic test is right about every pattern with one slash. */
  lemma CoverageExact(pattern: string, config: set<string>)
    requires OneSlash(Normalise(pattern))
    ensures Covered(pattern, config) <==> Included(Normalise(pattern), config)
  {
    var p := Normalise(pattern);
    LowerIdempotent(Strip(pattern));
    InclusionDecided(p, config);
    forall q | q in config && IsWildcard(q) ensures Stem(q) <= p <==> q == MajorWildcard(p) {
      OnlyMajorWildcard(p, q);
    }
    MajorIsWildcard(p);
    if IsWildcard(p) {
      OnlyMajorWildcard(p, p);
    }
    OnlyMajorWildcard(p, MajorWildcard(p));
  }

  lemma MajorIsWildcard(p: string)
    ensures IsWildcard(MajorWildcard(p))
  {
  }

  // With no slash condition at all, the test errs on the permissive side in one case only: a pattern
  // without a slash that is let through because of "<pattern>/*".
  lemma UnsoundExactly(pattern: string, config: set<string>)
    requires Covered(pattern, config)
    ensures Included(Normalise(pattern), config)
            <==> '/' in Normalise(pattern) || Normalise(pattern) in config || "*/*" in config
  {
    var p := Normalise(pattern);
    LowerIdempotent(Strip(pattern));
    InclusionDecided(p, config);
    var m := MajorWildcard(p);
    MajorIsWildcard(p);
    if '/' in p {
      MajorStemBegins(p);
    } else {
      forall q | q in config && IsWildcard(q) ensures !(Stem(q) <= p) {
        assert Stem(q)[|q| - 2] == '/';
      }
    }
  }

  lemma MajorStemBegins(p: string)
    requires '/' in p
    ensures IsWildcard(MajorWildcard(p)) && Stem(MajorWildcard(p)) <= p
  {
    MajorIsWildcard(p);
    JoinOfSplit(p, '/');
    var s := Split(p, '/');
    if |s| == 1 {
      FirstPieceIsFree(p, '/');
    } else {
      assert p == s[0] + ['/'] + Join(s[1..], '/');
      assert Stem(MajorWildcard(p)) == s[0] + "/";
    }
  }

  /** A wildcard of the set whose stem begins the pattern. */
  ghost predicate Begun(p: string, config: set<string>) {
    exists q :: q in config && IsWildcard(q) && Stem(q) <= p
  }

  /** Over all patterns and sets, the test is right exactly in these cases: everything is allowed or the pattern
      is listed itself; the pattern is the universal one; it has a slash, and no wildcard of the set begins it or
      its major type's wildcard does so and the pattern is no wildcard; or it has none, and its "major type"
      wildcard is not in the set. Beyond one slash it errs on the strict side. */
  lemma CoverageAgreesExactly(pattern: string, config: set<string>)
    ensures var p := Normalise(pattern);
      (Covered(pattern, config) <==> Included(p, config))
      <==> "*/*" in config || p in config || p == "*/*"
           || (if '/' in p then Begun(p, config) ==> !IsWildcard(p) && MajorWildcard(p) in config
               else MajorWildcard(p) !in config)
  {
    var p := Normalise(pattern);
    LowerIdempotent(Strip(pattern));
    InclusionDecided(p, config);
    MajorIsWildcard(p);
    if '/' in p {
      MajorStemBegins(p);
    } else {
      NothingBegins(p, config);
    }
    if p == "*/*" && p !in config {
      OnlyItselfBegins(config);
    }
  }

  lemma NothingBegins(p: string, config: set<string>)
    requires '/' !in p
    ensures !Begun(p, config)
  {
    forall q | q in config && IsWildcard(q) ensures !(Stem(q) <= p) {
      assert Stem(q)[|q| - 2] == '/';
    }
  }

  lemma OnlyItselfBegins(config: set<string>)
    requires "*/*" !in config
    ensures !Begun("*/*", config)
  {
    forall q | q in config && IsWildcard(q) ensures !(Stem(q) <= "*/*") {
      assert q != "*/*";
    }
  }

  lemma AlreadyNormal(p: string)
    requires p != "" && !IsSpace(p[0]) && !IsSpace(p[|p| - 1])
    requires forall i :: 0 <= i < |p| ==> !('A' <= p[i] <= 'Z')
    ensures Normalise(p) == p && Lower(p) == p
  {
    assert StripLeft(p) == p && StripRight(p) == p;
    assert Lower(p) == p;
  }

  /** Two slashes, included and still rejected. */
  lemma StrictExample()
    ensures !Covered("a/b/c", {"a/b/*"}) && Included(Normalise("a/b/c"), {"a/b/*"})
  {
    var p := "a/b/c";
    AlreadyNormal(p);
    assert "a/b/c" == "a" + ['/'] + "b/c";
    SplitAtSeparator("a", "b/c", '/');
    assert MajorWildcard(p) == "a/*";
    assert IsWildcard("a/b/*") && Stem("a/b/*") == "a/b/" && Stem("a/b/*") <= p;
    assert Subsumed(p, {"a/b/*"});
    LowerIdempotent(p);
    InclusionDecided(p, {"a/b/*"});
  }

  lemma UnsoundExample()
    ensures Covered("pdf", {"pdf/*"}) && !Included(Normalise("pdf"), {"pdf/*"})
  {
    assert Split("pdf", '/') == ["pdf"] by {
      SplitSeparatorFree("pdf", '/');
    }
    AlreadyNormal("pdf");
    assert MajorWildcard("pdf") == "pdf/*";
    assert '/' !in "pdf" && "pdf" !in {"pdf/*"} && "*/*" !in {"pdf/*"};
    UnsoundExactly("pdf", {"pdf/*"});
  }

  /** The list test of upload-token creation: when each requested pattern has one slash, none is
      rejected exactly when the token can admit nothing the project's patterns would not. */
  lemma NoneRejectedIff(tokens: seq<string>, csv: string)
    requires forall t :: t in tokens ==> OneSlash(Normalise(t))
    ensures Rejected(tokens, csv) == []
            <==> forall ct :: MimeAllowed(ct, tokens) ==> MimeAllowed(ct, ConfigItems(csv))
  {
    var config := ConfigSet(csv);
    forall ct ensures MimeAllowed(ct, ConfigItems(csv)) <==> AcceptedBy(config, Lower(ct)) {
      MimeAllowedIff(ct, ConfigItems(csv));
    }
    if Rejected(tokens, csv) == [] {
      forall ct | MimeAllowed(ct, tokens) ensures MimeAllowed(ct, ConfigItems(csv)) {
        MimeAllowedIff(ct, tokens);
        LowerIdempotent(ct);
        var t :| t in tokens && Accepts(Normalise(t), Lower(ct));
        assert t !in Rejected(tokens, csv);
        CoverageExact(t, config);
      }
    } else {
      var t := Rejected(tokens, csv)[0];
      assert t in Rejected(tokens, csv);
      CoverageExact(t, config);
      var ct :| Accepts(Normalise(t), ct) && Lower(ct) == ct && !AcceptedBy(config, ct);
      MimeAllowedIff(ct, tokens);
      assert MimeAllowed(ct, tokens) && !MimeAllowed(ct, ConfigItems(csv));
    }
  }
}
