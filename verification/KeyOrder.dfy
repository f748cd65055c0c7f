/** Byte-string order, "bucket/key" composite keys and the cursor of the sorted key index. */
module KeyOrder {
  import opened Outcomes

  /** Bytewise lexicographic order, the order of keys inside a bbolt bucket. */
  predicate Less(a: string, b: string) {
    if b == "" then false
    else if a == "" then true
    else a[0] < b[0] || (a[0] == b[0] && Less(a[1..], b[1..]))
  }

  predicate HasPrefix(s: string, p: string) {
    p <= s
  }

  function Prefix(bucket: string): string {
    bucket + "/"
  }

  function Composite(bucket: string, key: string): string {
    bucket + "/" + key
  }

  predicate SlashFree(s: string) {
    '/' !in s
  }

  lemma {:induction false} LessIrreflexive(a: string)
    ensures !Less(a, a)
  {
    if a != "" {
      LessIrreflexive(a[1..]);
    }
  }

  lemma {:induction false} LessTotal(a: string, b: string)
    ensures a == b || Less(a, b) || Less(b, a)
  {
    if a != "" && b != "" {
      LessTotal(a[1..], b[1..]);
      if a[0] == b[0] && a[1..] == b[1..] {
        assert a == [a[0]] + a[1..] == [b[0]] + b[1..] == b;
      }
    }
  }

  lemma {:induction false} LessTransitive(a: string, b: string, c: string)
    requires Less(a, b) && Less(b, c)
    ensures Less(a, c)
  {
    if a != "" && a[0] == b[0] == c[0] {
      LessTransitive(a[1..], b[1..], c[1..]);
    }
  }

  /** What the order is: a string comes after its proper prefixes, and the first byte in which
      two strings differ decides, the smaller one first. */
  lemma {:induction false} LessIff(a: string, b: string)
    ensures Less(a, b) <==> a < b || exists i :: 0 <= i < |a| && i < |b| && a[..i] == b[..i] && a[i] < b[i]
  {
    if a != "" && b != "" && a[0] == b[0] {
      var u, v := a[1..], b[1..];
      LessIff(u, v);
      assert a == [a[0]] + u && b == [b[0]] + v;
      if i :| 0 <= i < |u| && i < |v| && u[..i] == v[..i] && u[i] < v[i] {
        assert a[..i + 1] == [a[0]] + u[..i] && b[..i + 1] == [b[0]] + v[..i];
        assert a[i + 1] < b[i + 1];
      }
      if i :| 0 <= i < |a| && i < |b| && a[..i] == b[..i] && a[i] < b[i] {
        assert u[..i - 1] == a[..i][1..] && v[..i - 1] == b[..i][1..];
        assert u[i - 1] < v[i - 1];
      }
    } else if a != "" && b != "" && a[0] < b[0] {
      assert a[..0] == b[..0];
    } else if a != "" && b != "" {
      forall i | 0 < i < |a| && i < |b|
        ensures a[..i] != b[..i]
      {
        assert a[..i][0] != b[..i][0];
      }
    }
  }

  /** A strict order: nothing is below and above the same string. */
  lemma LessAsymmetric(a: string, b: string)
    requires Less(a, b)
    ensures !Less(b, a)
  {
    if Less(b, a) {
      LessTransitive(a, b, a);
      LessIrreflexive(a);
    }
  }

  /** Stripping a common prefix keeps the order. */
  lemma {:induction false} LessSuffix(p: string, a: string, b: string)
    ensures Less(p + a, p + b) <==> Less(a, b)
  {
    if p == "" {
      assert p + a == a && p + b == b;
    } else {
      assert (p + a)[1..] == p[1..] + a && (p + b)[1..] == p[1..] + b;
      LessSuffix(p[1..], a, b);
    }
  }

  /** Every key carrying prefix `p` is at or after `p`. */
  lemma {:induction false} PrefixedAtOrAfter(p: string, k: string)
    requires HasPrefix(k, p)
    ensures !Less(k, p)
  {
    if p != "" {
      assert p[1..] <= k[1..];
      PrefixedAtOrAfter(p[1..], k[1..]);
    }
  }

  /** A key at or after `p` without the prefix is after every key with it, so the keys
      carrying a prefix are contiguous and start at `p`. */
  lemma {:induction false} PrefixedBeforeOthers(p: string, j: string, k: string)
    requires HasPrefix(j, p) && !HasPrefix(k, p) && !Less(k, p)
    ensures Less(j, k)
  {
    assert p != "" && k != "" && j != "";
    if p[0] == k[0] {
      assert p[1..] <= j[1..];
      assert k == [k[0]] + k[1..] && p == [p[0]] + p[1..];
      PrefixedBeforeOthers(p[1..], j[1..], k[1..]);
    }
  }

  /** Contiguity of a prefix range in byte order. */
  lemma PrefixContiguous(p: string, a: string, b: string, c: string)
    requires HasPrefix(a, p) && HasPrefix(c, p) && Less(a, b) && Less(b, c)
    ensures HasPrefix(b, p)
  {
    if !HasPrefix(b, p) {
      PrefixedAtOrAfter(p, a);
      if Less(b, p) {
        LessTransitive(a, b, p);
      }
      PrefixedBeforeOthers(p, c, b);
      LessAsymmetric(b, c);
    }
  }

  /** Two composite keys share a bucket prefix only when they share the bucket. */
  lemma PrefixDetermines(b1: string, b2: string, k2: string)
    requires SlashFree(b1) && SlashFree(b2)
    requires HasPrefix(Composite(b2, k2), Prefix(b1))
    ensures b1 == b2
  {
    var c := Composite(b2, k2);
    assert c[|b2|] == '/';
    assert Prefix(b1)[|b1|] == '/' && c[..|b1| + 1] == Prefix(b1);
    assert c[|b1|] == '/';
    assert forall i :: 0 <= i < |b2| ==> c[i] == b2[i];
    assert forall i :: 0 <= i < |b1| ==> c[i] == c[..|b1| + 1][i] == b1[i];
    assert |b1| == |b2|;
  }

  /** Composite keys of slash-free buckets are injective. */
  lemma CompositeInjective(b1: string, k1: string, b2: string, k2: string)
    requires SlashFree(b1) && SlashFree(b2)
    requires Composite(b1, k1) == Composite(b2, k2)
    ensures b1 == b2 && k1 == k2
  {
    assert Composite(b1, k1)[..|b1| + 1] == Prefix(b1);
    PrefixDetermines(b1, b2, k2);
    assert k1 == Composite(b1, k1)[|b1| + 1..] == Composite(b2, k2)[|b2| + 1..] == k2;
  }

  /** Without the slash-free rule the flattening is ambiguous: two bucket names share a
      composite key exactly when one, followed by a slash, begins the other. */
  lemma CompositeCollision(b1: string, b2: string)
    requires b1 != b2
    ensures (exists k1, k2 :: Composite(b1, k1) == Composite(b2, k2))
            <==> HasPrefix(b2, Prefix(b1)) || HasPrefix(b1, Prefix(b2))
  {
    forall k1, k2 | Composite(b1, k1) == Composite(b2, k2)
      ensures HasPrefix(b2, Prefix(b1)) || HasPrefix(b1, Prefix(b2))
    {
      var c := Composite(b1, k1);
      assert c[..|b1|] == b1 && c[..|b2|] == b2 by {
        assert c == b2 + ("/" + k2) && c == b1 + ("/" + k1);
      }
      assert c[|b1|] == '/' && c[|b2|] == '/';
      if |b1| < |b2| {
        assert c[..|b2|][..|b1| + 1] == Prefix(b1);
      } else if |b2| < |b1| {
        assert c[..|b1|][..|b2| + 1] == Prefix(b2);
      }
    }
    if HasPrefix(b2, Prefix(b1)) {
      assert b2 == Prefix(b1) + b2[|b1| + 1..];
      assert Composite(b1, b2[|b1| + 1..] + "/") == Composite(b2, "");
    } else if HasPrefix(b1, Prefix(b2)) {
      assert b1 == Prefix(b2) + b1[|b2| + 1..];
      assert Composite(b1, "") == Composite(b2, b1[|b2| + 1..] + "/");
    }
  }

  /** `k` is the first key of `keys` at or after `from`; None when there is none. */
  ghost predicate IsFirstFrom(keys: set<string>, from: string, k: Option<string>) {
    match k
    case None => forall j :: j in keys ==> Less(j, from)
    case Some(f) => f in keys && !Less(f, from) && forall j :: j in keys && !Less(j, from) ==> !Less(j, f)
  }

  /** `k` is the first key of `keys` strictly after `after`. */
  ghost predicate IsNextAfter(keys: set<string>, after: string, k: Option<string>) {
    match k
    case None => forall j :: j in keys ==> !Less(after, j)
    case Some(f) => f in keys && Less(after, f) && forall j :: j in keys && Less(after, j) ==> !Less(j, f)
  }

  /** The cursor's Seek: move to the first key at or after `from`. */
  method Seek(keys: set<string>, from: string) returns (k: Option<string>)
    ensures IsFirstFrom(keys, from, k)
  {
    k := None;
    var rest := keys;
    while rest != {}
      invariant rest <= keys
      invariant IsFirstFrom(keys - rest, from, k)
      decreases |rest|
    {
      var j :| j in rest;
      if !Less(j, from) && (k.None? || Less(j, k.value)) {
        forall i | i in keys - rest && !Less(i, from)
          ensures !Less(i, j)
        {
          if Less(i, j) {
            LessTransitive(i, j, k.value);
          }
        }
        LessIrreflexive(j);
        k := Some(j);
      }
      rest := rest - {j};
    }
  }

  /** The cursor's Next: move to the first key strictly after `after`. */
  method Next(keys: set<string>, after: string) returns (k: Option<string>)
    ensures IsNextAfter(keys, after, k)
  {
    k := None;
    var rest := keys;
    while rest != {}
      invariant rest <= keys
      invariant IsNextAfter(keys - rest, after, k)
      decreases |rest|
    {
      var j :| j in rest;
      if Less(after, j) && (k.None? || Less(j, k.value)) {
        forall i | i in keys - rest && Less(after, i)
          ensures !Less(i, j)
        {
          if Less(i, j) {
            LessTransitive(i, j, k.value);
          }
        }
        LessIrreflexive(j);
        k := Some(j);
      }
      rest := rest - {j};
    }
  }

  /** What a Seek/Next scan over `p` has visited when it stands at `k`: exactly the
      prefixed keys strictly before `k`, or all of them once it has left the range. */
  ghost predicate Visited(keys: set<string>, p: string, k: Option<string>, done: set<string>) {
    && done <= keys
    && (forall j :: j in done ==> HasPrefix(j, p))
    && match k
       case None => forall j :: j in keys && HasPrefix(j, p) ==> j in done
       case Some(f) =>
         && f in keys
         && (forall j :: j in done ==> Less(j, f))
         && (HasPrefix(f, p) ==> forall j :: j in keys && HasPrefix(j, p) && j !in done ==> !Less(j, f))
         && (!HasPrefix(f, p) ==> forall j :: j in keys && HasPrefix(j, p) ==> j in done)
  }

  /** A scan starts having visited nothing. */
  lemma ScanStart(keys: set<string>, p: string, k: Option<string>)
    requires IsFirstFrom(keys, p, k)
    ensures Visited(keys, p, k, {})
  {
    forall j | j in keys && HasPrefix(j, p)
      ensures k.Some? && !Less(j, k.value) && HasPrefix(k.value, p)
    {
      PrefixedAtOrAfter(p, j);
      if k.Some? && !HasPrefix(k.value, p) {
        PrefixedBeforeOthers(p, j, k.value);
      }
    }
  }

  /** Moving from a prefixed key to the next one visits that key and skips none. */
  lemma ScanAdvance(keys: set<string>, p: string, f: string, next: Option<string>, done: set<string>)
    requires Visited(keys, p, Some(f), done) && HasPrefix(f, p)
    requires IsNextAfter(keys, f, next)
    ensures f !in done
    ensures Visited(keys, p, next, done + {f})
  {
    LessIrreflexive(f);
    forall j | j in keys && HasPrefix(j, p) && j !in done + {f}
      ensures next.Some? && HasPrefix(next.value, p) && !Less(j, next.value)
    {
      LessTotal(j, f);
      assert Less(f, j);
      if !HasPrefix(next.value, p) {
        PrefixedAtOrAfter(p, f);
        if Less(next.value, p) {
          LessTransitive(f, next.value, p);
        }
        PrefixedBeforeOthers(p, j, next.value);
      }
    }
    if next.Some? {
      forall j | j in done + {f}
        ensures Less(j, next.value)
      {
        if j != f {
          LessTransitive(j, f, next.value);
        }
      }
    }
  }
}
