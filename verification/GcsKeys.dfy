/** Object names used by backend/app/storage/gcs.py during a multipart upload. */
module GcsKeys {
  import opened Text

  /** _part_key. */
  function PartKey(key: string, uploadId: string, n: int): string {
    key + "/_mpparts/" + uploadId + "/" + Padded(n, 6)
  }

  /** The destination of the i-th intermediate compose. */
  function TempKey(key: string, uploadId: string, i: nat): string {
    key + "/_mptemp/" + uploadId + "/" + Padded(i, 4)
  }

  /** The prefix abort_multipart_upload lists. */
  function PartPrefix(key: string, uploadId: string): string {
    key + "/_mpparts/" + uploadId + "/"
  }

  /** f"{org}/{project}/{file_id}". */
  function StorageKey(org: string, project: string, fileId: string): string {
    org + "/" + project + "/" + fileId
  }

  /** The key names organisation, project and file, in this order. */
  lemma StorageKeyParts(org: string, project: string, fileId: string)
    requires '/' !in org && '/' !in project && '/' !in fileId
    ensures Split(StorageKey(org, project, fileId), '/') == [org, project, fileId]
  {
    assert StorageKey(org, project, fileId) == org + ['/'] + (project + ['/'] + fileId);
    SplitAtSeparator(org, project + ['/'] + fileId, '/');
    SplitAtSeparator(project, fileId, '/');
    SplitSeparatorFree(fileId, '/');
  }

  lemma PaddedHasNoSlash(n: int, w: nat)
    ensures '/' !in Padded(n, w)
  {
  }

  /** Where a key of either kind is cut: key, directory, upload id, number. */
  lemma CutUnique(k: string, dir: string, u: string, f: string, k': string, dir': string, u': string, f': string)
    requires k + "/" + dir + "/" + u + "/" + f == k' + "/" + dir' + "/" + u' + "/" + f'
    requires '/' !in dir && '/' !in u && '/' !in f && '/' !in dir' && '/' !in u' && '/' !in f'
    ensures k == k' && dir == dir' && u == u' && f == f'
  {
    LastSeparatorUnique(k + "/" + dir + "/" + u, f, k' + "/" + dir' + "/" + u', f', '/');
    LastSeparatorUnique(k + "/" + dir, u, k' + "/" + dir', u', '/');
    LastSeparatorUnique(k, dir, k', dir', '/');
  }

  lemma PartKeyCut(k: string, u: string, n: int)
    ensures PartKey(k, u, n) == k + "/" + "_mpparts" + "/" + u + "/" + Padded(n, 6)
  {
  }

  lemma TempKeyCut(k: string, u: string, i: nat)
    ensures TempKey(k, u, i) == k + "/" + "_mptemp" + "/" + u + "/" + Padded(i, 4)
  {
  }

  /** A part object belongs to one destination, one upload and one part number. */
  lemma PartKeyInjective(k: string, u: string, m: int, k': string, u': string, n: int)
    requires '/' !in u && '/' !in u'
    requires PartKey(k, u, m) == PartKey(k', u', n)
    ensures k == k' && u == u' && m == n
  {
    PartKeyCut(k, u, m);
    PartKeyCut(k', u', n);
    PaddedHasNoSlash(m, 6);
    PaddedHasNoSlash(n, 6);
    CutUnique(k, "_mpparts", u, Padded(m, 6), k', "_mpparts", u', Padded(n, 6));
    PaddedInjective(m, n, 6);
  }

  /** So does an intermediate object. */
  lemma TempKeyInjective(k: string, u: string, i: nat, k': string, u': string, j: nat)
    requires '/' !in u && '/' !in u'
    requires TempKey(k, u, i) == TempKey(k', u', j)
    ensures k == k' && u == u' && i == j
  {
    TempKeyCut(k, u, i);
    TempKeyCut(k', u', j);
    PaddedHasNoSlash(i, 4);
    PaddedHasNoSlash(j, 4);
    CutUnique(k, "_mptemp", u, Padded(i, 4), k', "_mptemp", u', Padded(j, 4));
    PaddedInjective(i, j, 4);
  }

  /** No object is both a part and an intermediate, of whatever uploads. */
  lemma PartIsNotTemp(k: string, u: string, n: int, k': string, u': string, i: nat)
    requires '/' !in u && '/' !in u'
    ensures PartKey(k, u, n) != TempKey(k', u', i)
  {
    if PartKey(k, u, n) == TempKey(k', u', i) {
      PartKeyCut(k, u, n);
      TempKeyCut(k', u', i);
      PaddedHasNoSlash(n, 6);
      PaddedHasNoSlash(i, 4);
      CutUnique(k, "_mpparts", u, Padded(n, 6), k', "_mptemp", u', Padded(i, 4));
    }
  }

  function Slashes(s: string): nat {
    if s == "" then 0 else (if s[0] == '/' then 1 else 0) + Slashes(s[1..])
  }

  lemma {:induction false} SlashesConcat(a: string, b: string)
    ensures Slashes(a + b) == Slashes(a) + Slashes(b)
  {
    if a == "" {
      assert a + b == b;
    } else {
      assert (a + b)[1..] == a[1..] + b;
      SlashesConcat(a[1..], b);
    }
  }

  lemma {:induction false} NoSlashes(s: string)
    ensures Slashes(s) == 0 <==> '/' !in s
  {
    if s != "" {
      NoSlashes(s[1..]);
    }
  }

  lemma StorageKeySlashes(org: string, project: string, fileId: string)
    requires '/' !in org && '/' !in project && '/' !in fileId
    ensures Slashes(StorageKey(org, project, fileId)) == 2
  {
    NoSlashes(org);
    NoSlashes(project);
    NoSlashes(fileId);
    SlashesConcat(org, "/");
    SlashesConcat(org + "/", project);
    SlashesConcat(org + "/" + project, "/");
    SlashesConcat(org + "/" + project + "/", fileId);
  }

  /** The part of an intermediate's key before its number. */
  function TempPrefix(key: string, uploadId: string): string {
    key + "/_mptemp/" + uploadId + "/"
  }

  lemma PrefixSlashes(k: string, dir: string, u: string)
    requires '/' !in dir && '/' !in u
    ensures Slashes(k + ("/" + dir + "/") + u + "/") == Slashes(k) + 3
  {
    NoSlashes(dir);
    NoSlashes(u);
    SlashesConcat("/", dir);
    SlashesConcat("/" + dir, "/");
    SlashesConcat(k, "/" + dir + "/");
    SlashesConcat(k + ("/" + dir + "/"), u);
    SlashesConcat(k + ("/" + dir + "/") + u, "/");
  }

  lemma BothPrefixSlashes(k: string, u: string)
    requires '/' !in u
    ensures Slashes(PartPrefix(k, u)) == Slashes(k) + 3 && Slashes(TempPrefix(k, u)) == Slashes(k) + 3
  {
    PrefixSlashes(k, "_mpparts", u);
    PrefixSlashes(k, "_mptemp", u);
    assert "/" + "_mpparts" + "/" == "/_mpparts/" && "/" + "_mptemp" + "/" == "/_mptemp/";
  }

  lemma LastOfPrefix(s: string, a: string, b: string)
    requires s <= a + b && |a| < |s|
    ensures s[|s| - 1] in b
  {
  }

  predicate EndsInSlash(s: string) {
    s != "" && s[|s| - 1] == '/'
  }

  /** Of two prefixes that end in a slash and have as many slashes, one begins the other's names only if
      they are the same. */
  lemma SamePrefix(p: string, q: string, name: string)
    requires EndsInSlash(p) && EndsInSlash(q) && Slashes(p) == Slashes(q) && '/' !in name && p <= q + name
    ensures p == q
  {
    if |p| <= |q| {
      var rest := q[|p|..];
      assert q == p + rest;
      SlashesConcat(p, rest);
      NoSlashes(rest);
      if rest != "" {
        LastOfPrefix(q, p, rest);
      }
    } else {
      LastOfPrefix(p, q, name);
    }
  }

  /** Listing one upload's prefix finds none of another upload's part objects. */
  lemma PrefixSeparatesUploads(k: string, u: string, k': string, u': string, n: int)
    requires '/' !in u && '/' !in u' && Slashes(k) == Slashes(k')
    ensures PartPrefix(k, u) <= PartKey(k', u', n) <==> k == k' && u == u'
  {
    var p, p' := PartPrefix(k, u), PartPrefix(k', u');
    assert PartKey(k', u', n) == p' + Padded(n, 6);
    if p <= PartKey(k', u', n) {
      BothPrefixSlashes(k, u);
      BothPrefixSlashes(k', u');
      PaddedHasNoSlash(n, 6);
      SamePrefix(p, p', Padded(n, 6));
      assert PartKey(k, u, 0) == PartKey(k', u', 0);
      PartKeyInjective(k, u, 0, k', u', 0);
    }
  }

  lemma PrefixesDiffer(k: string, u: string, k': string, u': string)
    requires '/' !in u && '/' !in u'
    ensures PartPrefix(k, u) != TempPrefix(k', u')
  {
    var p, p' := PartPrefix(k, u), TempPrefix(k', u');
    assert p == k + "/" + "_mpparts" + "/" + u + "/" + "" by {
      assert "/_mpparts/" == "/" + "_mpparts" + "/";
    }
    assert p' == k' + "/" + "_mptemp" + "/" + u' + "/" + "" by {
      assert "/_mptemp/" == "/" + "_mptemp" + "/";
    }
    if p == p' {
      CutUnique(k, "_mpparts", u, "", k', "_mptemp", u', "");
    }
  }

  /** It finds no intermediate object of any upload. */
  lemma PrefixMissesTemps(k: string, u: string, k': string, u': string, i: nat)
    requires '/' !in u && '/' !in u' && Slashes(k) == Slashes(k')
    ensures !(PartPrefix(k, u) <= TempKey(k', u', i))
  {
    var p, p' := PartPrefix(k, u), TempPrefix(k', u');
    assert TempKey(k', u', i) == p' + Padded(i, 4);
    BothPrefixSlashes(k, u);
    BothPrefixSlashes(k', u');
    PaddedHasNoSlash(i, 4);
    PrefixesDiffer(k, u, k', u');
    if p <= p' + Padded(i, 4) {
      SamePrefix(p, p', Padded(i, 4));
    }
  }

  lemma PrefixSlashCount(p: string, s: string)
    requires p <= s
    ensures Slashes(p) <= Slashes(s)
  {
    SlashesConcat(p, s[|p|..]);
    assert p + s[|p|..] == s;
  }

  /** And no file's own object. */
  lemma {:induction false} PrefixMissesKeys(k: string, u: string, k': string)
    requires '/' !in u && Slashes(k) == Slashes(k')
    ensures !(PartPrefix(k, u) <= k')
  {
    BothPrefixSlashes(k, u);
    if PartPrefix(k, u) <= k' {
      PrefixSlashCount(PartPrefix(k, u), k');
    }
  }

  /** Part and intermediate objects are never a file's own object. */
  lemma {:induction false} PartIsNotKey(k: string, u: string, n: int, k': string)
    requires '/' !in u && Slashes(k) == Slashes(k')
    ensures PartKey(k, u, n) != k'
  {
    PrefixMissesKeys(k, u, k');
    assert PartPrefix(k, u) <= PartKey(k, u, n);
  }

  lemma {:induction false} TempIsNotKey(k: string, u: string, i: nat, k': string)
    requires '/' !in u && Slashes(k) == Slashes(k')
    ensures TempKey(k, u, i) != k'
  {
    BothPrefixSlashes(k, u);
    PaddedHasNoSlash(i, 4);
    NoSlashes(Padded(i, 4));
    SlashesConcat(TempPrefix(k, u), Padded(i, 4));
    assert TempKey(k, u, i) == TempPrefix(k, u) + Padded(i, 4);
  }
}
