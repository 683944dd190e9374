/**
 Cache keys, `{scope}:{method}:{digest}`, and the write-invalidation prefixes `{scope}:{path}:`.
 Tenant isolation and write invalidation both rest on how these strings parse.
 */
module CacheKeys {
  type Bytes = seq<bv8>

  /** Stands for hex(SHA-256(body)). The digest is a parameter of everything below. */
  type Digest = Bytes -> string

  const COLON: string := ":"

  predicate ColonFree(s: string) {
    ':' !in s
  }

  /** What the digest is taken to be: hex text (so colon-free), and free of collisions. */
  ghost predicate GoodDigest(digest: Digest) {
    && (forall b :: ColonFree(digest(b)))
    && (forall a, b :: digest(a) == digest(b) ==> a == b)
  }

  function Bit(b: bool): char {
    if b then '1' else '0'
  }

  /** The bits of a byte as text. */
  function Bits(b: bv8): (r: string)
    ensures |r| == 8 && ColonFree(r)
  {
    [Bit(b & 1 != 0), Bit(b & 2 != 0), Bit(b & 4 != 0), Bit(b & 8 != 0),
     Bit(b & 16 != 0), Bit(b & 32 != 0), Bit(b & 64 != 0), Bit(b & 128 != 0)]
  }

  function AllBits(b: Bytes): (r: string)
    ensures ColonFree(r) && |r| == 8 * |b|
  {
    if b == [] then "" else Bits(b[0]) + AllBits(b[1..])
  }

  lemma BitsInjective(a: bv8, b: bv8)
    requires Bits(a) == Bits(b)
    ensures a == b
  {
    var s, t := Bits(a), Bits(b);
    assert s[0] == t[0] && s[1] == t[1] && s[2] == t[2] && s[3] == t[3];
    assert s[4] == t[4] && s[5] == t[5] && s[6] == t[6] && s[7] == t[7];
  }

  lemma {:induction false} AllBitsInjective(a: Bytes, b: Bytes)
    requires AllBits(a) == AllBits(b)
    ensures a == b
  {
    if a != [] {
      assert AllBits(a)[..8] == Bits(a[0]) && AllBits(b)[..8] == Bits(b[0]);
      assert AllBits(a)[8..] == AllBits(a[1..]) && AllBits(b)[8..] == AllBits(b[1..]);
      BitsInjective(a[0], b[0]);
      AllBitsInjective(a[1..], b[1..]);
    }
  }

  /** What is asked of the digest can be had: the body's own bits would do. */
  lemma GoodDigestExists()
    ensures GoodDigest(AllBits)
  {
    forall a: Bytes, b: Bytes | AllBits(a) == AllBits(b) ensures a == b {
      AllBitsInjective(a, b);
    }
  }

  function BuildKey(digest: Digest, scope: string, path: string, body: Bytes): string {
    scope + COLON + path + COLON + digest(body)
  }

  function InvalidationPrefix(scope: string, path: string): string {
    scope + COLON + path + COLON
  }

  predicate HasPrefix(key: string, prefix: string) {
    prefix <= key
  }

  function FirstIndex(s: string, c: char): (i: nat)
    ensures i <= |s|
  {
    if s == "" || s[0] == c then 0 else 1 + FirstIndex(s[1..], c)
  }

  /** Position of the last `c`, or -1. */
  function LastIndex(s: string, c: char): (i: int)
    ensures -1 <= i < |s|
  {
    if s == "" then -1
    else if s[|s| - 1] == c then |s| - 1
    else LastIndex(s[..|s| - 1], c)
  }

  lemma {:induction false} FirstIndexAt(a: string, c: char, x: string)
    requires c !in a
    ensures FirstIndex(a + [c] + x, c) == |a|
  {
    if a == "" {
      assert (a + [c] + x)[0] == c;
    } else {
      assert (a + [c] + x)[1..] == a[1..] + [c] + x;
      FirstIndexAt(a[1..], c, x);
    }
  }

  lemma {:induction false} LastIndexAt(x: string, c: char, a: string)
    requires c !in a
    ensures LastIndex(x + [c] + a, c) == |x|
  {
    var whole := x + [c] + a;
    if a == "" {
      assert whole[|whole| - 1] == c;
    } else {
      assert whole[|whole| - 1] == a[|a| - 1];
      assert whole[..|whole| - 1] == x + [c] + a[..|a| - 1];
      LastIndexAt(x, c, a[..|a| - 1]);
    }
  }

  /** The text before the first colon is determined by the whole. */
  lemma SplitAtFirstColon(a: string, x: string, b: string, y: string)
    requires ColonFree(a) && ColonFree(b)
    requires a + COLON + x == b + COLON + y
    ensures a == b && x == y
  {
    FirstIndexAt(a, ':', x);
    FirstIndexAt(b, ':', y);
    SplitAt(a, x, b, y);
  }

  /** The text after the last colon is determined by the whole. */
  lemma SplitAtLastColon(x: string, a: string, y: string, b: string)
    requires ColonFree(a) && ColonFree(b)
    requires x + COLON + a == y + COLON + b
    ensures x == y && a == b
  {
    LastIndexAt(x, ':', a);
    LastIndexAt(y, ':', b);
    SplitAt(x, a, y, b);
  }

  lemma SplitAt(a: string, x: string, b: string, y: string)
    requires |a| == |b| && a + COLON + x == b + COLON + y
    ensures a == b && x == y
  {
    var whole := a + COLON + x;
    assert whole[..|a|] == a && whole[..|b|] == b;
    assert whole[|a| + 1..] == x && whole[|b| + 1..] == y;
  }

  /** One key, one request: equal keys come from equal scope, method and body. Method paths may hold colons. */
  lemma KeyInjective(digest: Digest, s: string, m: string, b: Bytes, s': string, m': string, b': Bytes)
    requires GoodDigest(digest) && ColonFree(s) && ColonFree(s')
    requires BuildKey(digest, s, m, b) == BuildKey(digest, s', m', b')
    ensures s == s' && m == m' && b == b'
  {
    var d, d' := digest(b), digest(b');
    assert BuildKey(digest, s, m, b) == s + COLON + (m + COLON + d);
    assert BuildKey(digest, s', m', b') == s' + COLON + (m' + COLON + d');
    SplitAtFirstColon(s, m + COLON + d, s', m' + COLON + d');
    SplitAtLastColon(m, d, m', d');
  }

  /**
   Exactly which entries one invalidation prefix covers: the written scope's, for the target path and for
   any path that continues the target with a colon.
   */
  lemma PrefixCovers(digest: Digest, s: string, target: string, s': string, m': string, b: Bytes)
    requires GoodDigest(digest) && ColonFree(s) && ColonFree(s')
    ensures HasPrefix(BuildKey(digest, s', m', b), InvalidationPrefix(s, target))
       <==> s == s' && (m' == target || target + COLON <= m')
  {
    var d := digest(b);
    var key := BuildKey(digest, s', m', b);
    var prefix := InvalidationPrefix(s, target);
    var tail := m' + COLON + d;
    assert key == s' + COLON + tail;
    assert prefix == s + COLON + (target + COLON);
    if prefix <= key {
      var rest := key[|prefix|..];
      assert key == prefix + rest;
      assert key == s + COLON + (target + COLON + rest);
      SplitAtFirstColon(s, target + COLON + rest, s', tail);
      TailCovers(target, rest, m', d);
    }
    if s == s' && (m' == target || target + COLON <= m') {
      assert target + COLON <= tail;
      assert prefix <= key;
    }
  }

  lemma TailCovers(target: string, rest: string, m: string, d: string)
    requires ColonFree(d)
    requires target + COLON + rest == m + COLON + d
    ensures m == target || target + COLON <= m
  {
    var whole := m + COLON + d;
    LastIndexAt(m, ':', d);
    LastIndexBound(whole, ':', |target|);
    if |target| == |m| {
      assert whole[..|m|] == m && whole[..|target|] == target;
    } else {
      assert whole[..|target| + 1] == target + COLON == m[..|target| + 1];
    }
  }

  lemma {:induction false} LastIndexBound(s: string, c: char, i: nat)
    requires i < |s| && s[i] == c
    ensures i <= LastIndex(s, c)
  {
    if s[|s| - 1] != c {
      LastIndexBound(s[..|s| - 1], c, i);
    }
  }

  lemma PrefixHasColon(target: string, m: string)
    requires target + COLON <= m
    ensures !ColonFree(m)
  {
    assert m[|target|] == ':';
  }

  /** With colon-free paths too, a prefix covers one method of one tenant and nothing else. */
  lemma PrefixExact(digest: Digest, s: string, target: string, s': string, m': string, b: Bytes)
    requires GoodDigest(digest) && ColonFree(s) && ColonFree(s') && ColonFree(m')
    ensures HasPrefix(BuildKey(digest, s', m', b), InvalidationPrefix(s, target)) <==> s == s' && m' == target
  {
    PrefixCovers(digest, s, target, s', m', b);
    if target + COLON <= m' {
      PrefixHasColon(target, m');
    }
  }

  /** Some write of scope `s` covers some entry of scope `s'`. */
  ghost predicate CanEvict(digest: Digest, s: string, s': string) {
    exists target, m, b: Bytes :: HasPrefix(BuildKey(digest, s', m, b), InvalidationPrefix(s, target))
  }

  /**
   What scopes may look like, exactly: of two different scopes, the writes of one can evict entries of the other if and
   only if one of them continues the other with a colon. Colon-free scopes never do.
   */
  lemma ScopesCollideIff(digest: Digest, s: string, s': string)
    requires s != s'
    ensures CanEvict(digest, s, s') <==> s + COLON <= s' || s' + COLON <= s
  {
    if target, m, b: Bytes :| HasPrefix(BuildKey(digest, s', m, b), InvalidationPrefix(s, target)) {
      var key := BuildKey(digest, s', m, b);
      assert key == s' + COLON + (m + COLON + digest(b));
      assert InvalidationPrefix(s, target) == s + COLON + (target + COLON);
      PrefixesCompare(s + COLON, s' + COLON, key);
      ComparedScopes(s, s');
    }
    if s + COLON <= s' {
      var target := s'[|s| + 1..];
      assert s' == s + COLON + target;
      assert BuildKey(digest, s', "", []) == s + COLON + target + COLON + ("" + COLON + digest([]));
      assert HasPrefix(BuildKey(digest, s', "", []), InvalidationPrefix(s, target));
    }
    if s' + COLON <= s {
      var rest := s[|s'| + 1..];
      var m := rest + COLON;
      assert s == s' + COLON + rest;
      assert BuildKey(digest, s', m, []) == s + COLON + "" + COLON + digest([]);
      assert HasPrefix(BuildKey(digest, s', m, []), InvalidationPrefix(s, ""));
    }
  }

  lemma PrefixesCompare(a: string, b: string, whole: string)
    requires a <= whole && b <= whole
    ensures a <= b || b <= a
  {
    if |a| <= |b| {
      assert whole[..|b|][..|a|] == whole[..|a|];
    } else {
      assert whole[..|a|][..|b|] == whole[..|b|];
    }
  }

  lemma ComparedScopes(s: string, s': string)
    requires s != s' && (s + COLON <= s' + COLON || s' + COLON <= s + COLON)
    ensures s + COLON <= s' || s' + COLON <= s
  {
    var short, long := if |s| <= |s'| then s else s', if |s| <= |s'| then s' else s;
    assert short + COLON <= long + COLON;
    assert (long + COLON)[..|short|] == short;
    assert |short| < |long|;
    assert (long + COLON)[..|short| + 1] == long[..|short| + 1];
  }

  function ServiceFromMethod(path: string): string {
    var i := LastIndex(path, '/');
    if i <= 0 then path else path[..i + 1]
  }

  /**
   A write through `dir/name` that lists `m` targets `dir/m`, its sibling, exactly when `dir` is not empty;
   through the root path `/name` it targets `/namem` instead, which is no sibling.
   */
  lemma TargetIsSibling(dir: string, name: string, m: string)
    requires '/' !in name && name != ""
    ensures ServiceFromMethod(dir + "/" + name) + m == dir + "/" + m <==> dir != ""
  {
    LastIndexAt(dir, '/', name);
    var path := dir + "/" + name;
    if dir != "" {
      assert path[..|dir| + 1] == dir + "/";
    } else {
      assert |path + m| > |"/" + m|;
    }
  }
}
