/** The copy-source header: percent-decoding and form-encoding of bytes (section 2.1 of RFC 3986,
    and "+" for a space in form encoding), the bucket/key split, and the normaliser. */
module CopySource {
  import opened Outcomes
  import opened Content

  const PERCENT: Byte := 0x25
  const PLUS: Byte := 0x2B
  const SLASH: Byte := 0x2F
  const QUESTION: Byte := 0x3F
  const SPACE: Byte := 0x20

  // ---- escaping ----

  predicate IsHex(c: Byte) {
    0x30 <= c <= 0x39 || 0x41 <= c <= 0x46 || 0x61 <= c <= 0x66
  }

  function Unhex(c: Byte): (v: Byte)
    requires IsHex(c)
    ensures v < 16
  {
    if c <= 0x39 then c - 0x30 else if c <= 0x46 then c - 0x41 + 10 else c - 0x61 + 10
  }

  function HexDigit(v: Byte): (c: Byte)
    requires v < 16
    ensures IsHex(c) && Unhex(c) == v
  {
    if v < 10 then 0x30 + v else 0x41 + (v - 10)
  }

  /** "%XX", upper case. */
  function Percent(c: Byte): (s: Bytes)
    ensures |s| == 3 && s[0] == PERCENT && IsHex(s[1]) && IsHex(s[2]) && 16 * Unhex(s[1]) + Unhex(s[2]) == c
  {
    [PERCENT, HexDigit(c / 16), HexDigit(c % 16)]
  }

  /** Letters, digits and "-._~" stand for themselves everywhere. */
  predicate Unreserved(c: Byte) {
    || 0x30 <= c <= 0x39 || 0x41 <= c <= 0x5A || 0x61 <= c <= 0x7A
    || c == 0x2D || c == 0x2E || c == 0x5F || c == 0x7E
  }

  /** Decodes "%XX"; with `plus`, "+" stands for a space.  A stray "%" is an error. */
  function Unescape(s: Bytes, plus: bool): Option<Bytes> {
    if s == [] then Some([])
    else if s[0] == PERCENT then
      if |s| < 3 || !IsHex(s[1]) || !IsHex(s[2]) then None
      else Prepend(16 * Unhex(s[1]) + Unhex(s[2]), Unescape(s[3..], plus))
    else Prepend(if plus && s[0] == PLUS then SPACE else s[0], Unescape(s[1..], plus))
  }

  function Prepend(c: Byte, rest: Option<Bytes>): Option<Bytes> {
    if rest.None? then None else Some([c] + rest.value)
  }

  function PathUnescape(s: Bytes): Option<Bytes> {
    Unescape(s, false)
  }

  function QueryUnescape(s: Bytes): Option<Bytes> {
    Unescape(s, true)
  }

  function QueryByte(c: Byte): Bytes {
    if Unreserved(c) then [c] else if c == SPACE then [PLUS] else Percent(c)
  }

  function QueryEscape(s: Bytes): Bytes {
    if s == [] then [] else QueryByte(s[0]) + QueryEscape(s[1..])
  }

  /** Every byte percent-encoded, separators included, as the Huawei SDK sends it. */
  function EncodeAll(s: Bytes): Bytes {
    if s == [] then [] else Percent(s[0]) + EncodeAll(s[1..])
  }

  /** What path-decoding makes of a form-encoded space. */
  function Plussed(s: Bytes): (t: Bytes)
    ensures |t| == |s| && forall i :: 0 <= i < |s| ==> t[i] == if s[i] == SPACE then PLUS else s[i]
  {
    seq(|s|, i requires 0 <= i < |s| => if s[i] == SPACE then PLUS else s[i])
  }

  // ---- splitting ----

  /** The index of the first `c` in `s`, or |s|. */
  function Index(s: Bytes, c: Byte): (i: nat)
    ensures i <= |s| && c !in s[..i] && (i < |s| ==> s[i] == c)
  {
    if s == [] then 0 else if s[0] == c then 0 else 1 + Index(s[1..], c)
  }

  lemma {:induction false} IndexIs(s: Bytes, c: Byte, i: nat)
    requires i <= |s| && c !in s[..i] && (i < |s| ==> s[i] == c)
    ensures Index(s, c) == i
  {
    if s != [] && s[0] != c {
      assert s[1..][..i - 1] == s[..i][1..];
      IndexIs(s[1..], c, i - 1);
    }
  }

  function TrimSlash(s: Bytes): Bytes {
    if s != [] && s[0] == SLASH then s[1..] else s
  }

  datatype Source = Source(bucket: Bytes, key: Bytes)

  /** Splits "[/]bucket/key"; there must be a key. */
  function SplitBucketKey(p: Bytes): (r: Option<Source>)
    ensures r.Some? ==> SLASH !in r.value.bucket && r.value.key != []
  {
    var q := TrimSlash(p);
    var i := Index(q, SLASH);
    if i + 1 >= |q| then None else Some(Source(q[..i], q[i + 1..]))
  }

  // ---- normalising ----

  function SplitDecoded(raw: Bytes): Option<Source> {
    var dec := PathUnescape(raw);
    if dec.None? then None else SplitBucketKey(dec.value)
  }

  /** The bucket and key a copy source names: its "?" subresource cut off the raw header, the
      rest decoded, then split. */
  function Decoded(src: Bytes): Option<Source> {
    SplitDecoded(TrimSlash(src[..Index(src, QUESTION)]))
  }

  function Header(s: Source): Bytes {
    [SLASH] + s.bucket + [SLASH] + QueryEscape(s.key)
  }

  function NormalizeCopySource(src: Bytes): Option<Bytes> {
    var s := Decoded(src);
    if s.None? then None else Some(Header(s.value))
  }

  /** What the handler leaves in the header: a source that cannot be normalised stays. */
  function Rewritten(header: Bytes): Bytes {
    var n := NormalizeCopySource(header);
    if n.Some? then n.value else header
  }

  /** How the S3 library reads the header: split the raw value on the first "/", drop a "?" and
      what follows it from the key, then form-decode the key. */
  function LibraryReads(header: Bytes): Option<Source> {
    var q := TrimSlash(header);
    var i := Index(q, SLASH);
    if i == |q| then None
    else
      var raw := q[i + 1..];
      var key := QueryUnescape(raw[..Index(raw, QUESTION)]);
      if key.None? then None else Some(Source(q[..i], key.value))
  }

  /** The same, were the "?" cut off before the split. */
  function LibraryCutsFirst(header: Bytes): Option<Source> {
    LibraryReads(header[..Index(header, QUESTION)])
  }

  // ---- escaping laws ----

  lemma PrependConcat(c: Byte, a: Bytes, b: Option<Bytes>)
    ensures b.Some? ==> Prepend(c, Some(a + b.value)) == Some([c] + a + b.value)
  {
    if b.Some? {
      assert [c] + (a + b.value) == [c] + a + b.value;
    }
  }

  /** Decoding works piece by piece when the first piece is complete. */
  lemma {:induction false} UnescapeConcat(a: Bytes, b: Bytes, plus: bool)
    requires Unescape(a, plus).Some?
    ensures Unescape(a + b, plus) ==
            if Unescape(b, plus).None? then None else Some(Unescape(a, plus).value + Unescape(b, plus).value)
    decreases |a|
  {
    if a == [] {
      assert a + b == b;
      assert Unescape(b, plus).Some? ==> [] + Unescape(b, plus).value == Unescape(b, plus).value;
    } else if a[0] == PERCENT {
      assert (a + b)[3..] == a[3..] + b && (a + b)[1] == a[1] && (a + b)[2] == a[2];
      UnescapeConcat(a[3..], b, plus);
      PrependConcat(16 * Unhex(a[1]) + Unhex(a[2]), Unescape(a[3..], plus).value, Unescape(b, plus));
    } else {
      assert (a + b)[1..] == a[1..] + b;
      UnescapeConcat(a[1..], b, plus);
      PrependConcat(if plus && a[0] == PLUS then SPACE else a[0], Unescape(a[1..], plus).value, Unescape(b, plus));
    }
  }

  lemma UnescapeByte(c: Byte, plus: bool)
    ensures Unescape(QueryByte(c), plus) == Some([if c == SPACE && !plus then PLUS else c])
    ensures Unescape(Percent(c), plus) == Some([c])
  {
    assert Percent(c)[3..] == [] && Unescape([], plus) == Some([]);
    assert [c][1..] == [] && [PLUS][1..] == [];
    assert [c] + [] == [c] && [PLUS] + [] == [PLUS] && [SPACE] + [] == [SPACE];
  }

  /** A space, path-decoded from its form encoding, is a "+". */
  function PathByte(c: Byte): Byte {
    if c == SPACE then PLUS else c
  }

  lemma UnescapeCons(c: Byte, rest: Bytes, plus: bool)
    ensures Unescape(QueryByte(c) + rest, plus) == Prepend(if plus then c else PathByte(c), Unescape(rest, plus))
  {
    UnescapeByte(c, plus);
    UnescapeConcat(QueryByte(c), rest, plus);
  }

  lemma {:induction false} FormRoundTrip(s: Bytes)
    ensures QueryUnescape(QueryEscape(s)) == Some(s)
  {
    if s != [] {
      FormRoundTrip(s[1..]);
      UnescapeCons(s[0], QueryEscape(s[1..]), true);
      assert s == [s[0]] + s[1..];
    }
  }

  lemma {:induction false} PathDecodesForm(s: Bytes)
    ensures PathUnescape(QueryEscape(s)) == Some(Plussed(s))
  {
    if s != [] {
      PathDecodesForm(s[1..]);
      UnescapeCons(s[0], QueryEscape(s[1..]), false);
      assert Plussed(s) == [PathByte(s[0])] + Plussed(s[1..]);
    }
  }

  /** Form-encoding round trip: form-decoding gives the bytes back; path-decoding does too,
      except that it leaves "+" for a space. */
  lemma QueryRoundTrip(s: Bytes)
    ensures QueryUnescape(QueryEscape(s)) == Some(s)
    ensures PathUnescape(QueryEscape(s)) == Some(Plussed(s))
  {
    FormRoundTrip(s);
    PathDecodesForm(s);
  }

  lemma {:induction false} EncodeAllRoundTrip(s: Bytes)
    ensures PathUnescape(EncodeAll(s)) == Some(s)
  {
    if s != [] {
      EncodeAllRoundTrip(s[1..]);
      UnescapeByte(s[0], false);
      UnescapeConcat(Percent(s[0]), EncodeAll(s[1..]), false);
      assert [s[0]] + s[1..] == s;
    }
  }

  // ---- what decoding means ----

  /** `c` is the digit for `v`: "0" to "9", then "a" to "f" in either case. */
  predicate DigitFor(c: Byte, v: Byte) {
    (v < 10 && c == 0x30 + v) || (10 <= v < 16 && (c == 0x41 + (v - 10) || c == 0x61 + (v - 10)))
  }

  /** "%" and two such digits. */
  ghost predicate PercentFor(s: Bytes, c: Byte) {
    |s| == 3 && s[0] == PERCENT && exists hi, lo :: DigitFor(s[1], hi) && DigitFor(s[2], lo) && c as int == 16 * hi as int + lo as int
  }

  /** `s` spells `t`: each byte stands for itself, unless it is "%" (or, with `plus`, "+" for a
      space), or is written as "%" and two hexadecimal digits. */
  ghost predicate Spells(s: Bytes, t: Bytes, plus: bool)
    decreases |t|
  {
    if t == [] then s == []
    else
      || (s != [] && s[0] != PERCENT && t[0] == (if plus && s[0] == PLUS then SPACE else s[0]) && Spells(s[1..], t[1..], plus))
      || (|s| >= 3 && PercentFor(s[..3], t[0]) && Spells(s[3..], t[1..], plus))
  }

  lemma DigitsIff(c: Byte)
    ensures IsHex(c) <==> exists v :: DigitFor(c, v)
    ensures IsHex(c) ==> DigitFor(c, Unhex(c))
    ensures forall v :: DigitFor(c, v) ==> IsHex(c) && Unhex(c) == v
  {
    if IsHex(c) {
      assert DigitFor(c, Unhex(c));
    }
  }

  lemma PercentIff(s: Bytes, c: Byte)
    requires |s| == 3 && s[0] == PERCENT
    ensures PercentFor(s, c) <==> IsHex(s[1]) && IsHex(s[2]) && 16 * Unhex(s[1]) + Unhex(s[2]) == c
  {
    DigitsIff(s[1]);
    DigitsIff(s[2]);
  }

  /** Decoding inverts spelling and nothing else: it gives `t` exactly for the spellings of `t`,
      and so fails exactly on what spells nothing. */
  lemma {:induction false} UnescapeIff(s: Bytes, t: Bytes, plus: bool)
    ensures Unescape(s, plus) == Some(t) <==> Spells(s, t, plus)
    decreases |t|
  {
    if s != [] && t != [] {
      assert t == [t[0]] + t[1..];
      if s[0] == PERCENT {
        if |s| >= 3 {
          PercentIff(s[..3], t[0]);
          UnescapeIff(s[3..], t[1..], plus);
        }
      } else {
        UnescapeIff(s[1..], t[1..], plus);
      }
    }
  }

  /** An encoded key hides the separators. */
  lemma {:induction false} EscapedHides(s: Bytes)
    ensures SLASH !in QueryEscape(s) && QUESTION !in QueryEscape(s)
    ensures SLASH !in EncodeAll(s) && QUESTION !in EncodeAll(s)
    ensures s != [] ==> QueryEscape(s) != [] && EncodeAll(s) != []
  {
    if s != [] {
      EscapedHides(s[1..]);
    }
  }

  lemma {:induction false} PlainDecodes(s: Bytes)
    requires PERCENT !in s
    ensures PathUnescape(s) == Some(s)
  {
    if s != [] {
      PlainDecodes(s[1..]);
      assert [s[0]] + s[1..] == s;
    }
  }

  // ---- the normaliser's laws ----

  lemma SplitSource(b: Bytes, k: Bytes)
    requires SLASH !in b && b != [] && k != []
    ensures SplitBucketKey(b + [SLASH] + k) == Some(Source(b, k))
  {
    var p := b + [SLASH] + k;
    assert p[0] == b[0];
    assert p[..|b|] == b && p[|b| + 1..] == k;
    IndexIs(p, SLASH, |b|);
  }

  lemma HeaderSplits(b: Bytes, e: Bytes)
    requires SLASH !in b
    ensures var q := TrimSlash([SLASH] + b + [SLASH] + e);
      Index(q, SLASH) == |b| < |q| && q[..|b|] == b && q[|b| + 1..] == e
  {
    var q := b + [SLASH] + e;
    assert [SLASH] + b + [SLASH] + e == [SLASH] + q;
    assert q[..|b|] == b;
    IndexIs(q, SLASH, |b|);
  }

  lemma LibraryReadsHeader(s: Source)
    requires SLASH !in s.bucket
    ensures LibraryReads(Header(s)) == Some(s)
  {
    var e := QueryEscape(s.key);
    HeaderSplits(s.bucket, e);
    EscapedHides(s.key);
    IndexIs(e, QUESTION, |e|);
    assert e[..|e|] == e;
    QueryRoundTrip(s.key);
  }

  /** The library recovers from the normalised header exactly the bucket and the decoded key
      that the client named, for every source that can be decoded. */
  lemma LibraryReadsWhatWasNamed(src: Bytes)
    ensures NormalizeCopySource(src).Some? <==> Decoded(src).Some?
    ensures NormalizeCopySource(src).Some? ==> LibraryReads(NormalizeCopySource(src).value) == Decoded(src)
  {
    if Decoded(src).Some? {
      LibraryReadsHeader(Decoded(src).value);
    }
  }

  /** Were the library to cut at "?" first, it would recover them exactly when the bucket holds
      no "?"; otherwise it would find no key at all. */
  lemma CutFirstReadsIff(src: Bytes)
    requires Decoded(src).Some?
    ensures LibraryCutsFirst(NormalizeCopySource(src).value) == Decoded(src) <==> QUESTION !in Decoded(src).value.bucket
  {
    var s := Decoded(src).value;
    var h := Header(s);
    if QUESTION in s.bucket {
      CutInBucket(s);
      var b := s.bucket[..Index(s.bucket, QUESTION)];
      assert SLASH !in b;
      IndexIs(b, SLASH, |b|);
    } else {
      EscapedHides(s.key);
      IndexIs(h, QUESTION, |h|);
      assert h[..|h|] == h;
      LibraryReadsHeader(s);
    }
  }

  /** The part of the header before a "?" in the bucket. */
  lemma CutInBucket(s: Source)
    requires QUESTION in s.bucket
    ensures var h := Header(s); var j := Index(s.bucket, QUESTION);
      j < |s.bucket| && h[..Index(h, QUESTION)] == [SLASH] + s.bucket[..j]
      && TrimSlash(h[..Index(h, QUESTION)]) == s.bucket[..j]
  {
    var h := Header(s);
    var j := Index(s.bucket, QUESTION);
    assert j < |s.bucket|;
    assert h[..j + 1] == [SLASH] + s.bucket[..j];
    assert h[j + 1] == s.bucket[j];
    IndexIs(h, QUESTION, j + 1);
  }

  /** Splitting succeeds exactly on "bucket/key" and "/bucket/key" with a key. */
  lemma SplitIff(p: Bytes, b: Bytes, k: Bytes)
    ensures SplitBucketKey(p) == Some(Source(b, k)) <==>
              && SLASH !in b && k != []
              && (p == [SLASH] + b + [SLASH] + k || (b != [] && p == b + [SLASH] + k))
  {
    var q := TrimSlash(p);
    assert p == q || p == [SLASH] + q;
    var i := Index(q, SLASH);
    if i + 1 < |q| {
      assert q == q[..i] + [SLASH] + q[i + 1..];
      assert [SLASH] + q == [SLASH] + q[..i] + [SLASH] + q[i + 1..];
    }
    if SLASH !in b && k != [] {
      if p == [SLASH] + b + [SLASH] + k {
        HeaderSplits(b, k);
      } else if b != [] && p == b + [SLASH] + k {
        SplitSource(b, k);
      }
    }
  }

  /** What a copy source names: the text up to a literal "?", a literal leading slash aside,
      spells "bucket/key" or "/bucket/key".  Nothing else is accepted. */
  lemma NamesIff(src: Bytes, b: Bytes, k: Bytes)
    ensures Decoded(src) == Some(Source(b, k)) <==>
              var raw := TrimSlash(src[..Index(src, QUESTION)]);
              && SLASH !in b && k != []
              && (Spells(raw, [SLASH] + b + [SLASH] + k, false) || (b != [] && Spells(raw, b + [SLASH] + k, false)))
  {
    var raw := TrimSlash(src[..Index(src, QUESTION)]);
    UnescapeIff(raw, [SLASH] + b + [SLASH] + k, false);
    UnescapeIff(raw, b + [SLASH] + k, false);
    if PathUnescape(raw).Some? {
      SplitIff(PathUnescape(raw).value, b, k);
    }
  }

  /** A source in any encoding, each byte as itself or as "%" and two digits of either case,
      separators included, names what it spells, and so reads the library. */
  lemma FullyEncodedAccepted(src: Bytes, b: Bytes, k: Bytes)
    requires SLASH !in b && b != [] && k != [] && QUESTION !in src && Spells(src, b + [SLASH] + k, false)
    ensures Decoded(src) == Some(Source(b, k)) && Decoded([SLASH] + src) == Some(Source(b, k))
    ensures NormalizeCopySource(src).Some? && LibraryReads(NormalizeCopySource(src).value) == Some(Source(b, k))
  {
    IndexIs(src, QUESTION, |src|);
    IndexIs([SLASH] + src, QUESTION, |src| + 1);
    assert src[..|src|] == src && ([SLASH] + src)[..|src| + 1] == [SLASH] + src;
    assert src != [] && src[0] != SLASH;
    NamesIff(src, b, k);
    NamesIff([SLASH] + src, b, k);
    LibraryReadsWhatWasNamed(src);
  }

  /** Encoding every byte is one such spelling. */
  lemma EncodeAllSpells(s: Bytes)
    ensures Spells(EncodeAll(s), s, false) && QUESTION !in EncodeAll(s)
  {
    EncodeAllRoundTrip(s);
    UnescapeIff(EncodeAll(s), s, false);
    EscapedHides(s);
  }

  /** Re-reading a normalised header whose bucket needs no decoding. */
  lemma ReadAgain(s: Source)
    requires SLASH !in s.bucket && s.key != []
    requires s.bucket != [] && PERCENT !in s.bucket && QUESTION !in s.bucket
    ensures Decoded(Header(s)) == Some(Source(s.bucket, Plussed(s.key)))
  {
    var h := Header(s);
    EscapedHides(s.key);
    IndexIs(h, QUESTION, |h|);
    assert h[..|h|] == h;
    assert TrimSlash(h) == s.bucket + [SLASH] + QueryEscape(s.key);
    PlainDecodes(s.bucket + [SLASH]);
    QueryRoundTrip(s.key);
    UnescapeConcat(s.bucket + [SLASH], QueryEscape(s.key), false);
    SplitSource(s.bucket, Plussed(s.key));
  }

  /** Decoding never lengthens, and shortens when there is an escape. */
  lemma {:induction false} DecodingShortens(s: Bytes)
    requires PathUnescape(s).Some?
    ensures |PathUnescape(s).value| <= |s|
    ensures PERCENT in s ==> |PathUnescape(s).value| < |s|
  {
    if s != [] {
      if s[0] == PERCENT {
        DecodingShortens(s[3..]);
      } else {
        DecodingShortens(s[1..]);
      }
    }
  }

  /** What follows a slash is decoded on its own: no escape reaches across it. */
  lemma {:induction false} SlashSeparates(a: Bytes, b: Bytes)
    requires PathUnescape(a + [SLASH] + b).Some?
    ensures PathUnescape(a).Some?
    decreases |a|
  {
    var s := a + [SLASH] + b;
    if a != [] {
      if a[0] == PERCENT {
        assert |a| >= 3 by {
          assert s[|a|] == SLASH && !IsHex(SLASH);
        }
        assert s[3..] == a[3..] + [SLASH] + b;
        SlashSeparates(a[3..], b);
      } else {
        assert s[1..] == a[1..] + [SLASH] + b;
        SlashSeparates(a[1..], b);
      }
    }
  }

  /** A bucket found in "d/rest" is no longer than `d`. */
  lemma BucketWithin(d: Bytes, rest: Bytes)
    requires d != [] && SplitBucketKey(d + [SLASH] + rest).Some?
    ensures |SplitBucketKey(d + [SLASH] + rest).value.bucket| <= |d|
  {
    var q := TrimSlash(d + [SLASH] + rest);
    var at := if d[0] == SLASH then |d| - 1 else |d|;
    assert q[at] == SLASH;
  }

  /** A "?" in the bucket cuts the header short inside it. */
  lemma QuestionShortens(s: Source)
    requires SLASH !in s.bucket && QUESTION in s.bucket
    ensures Decoded(Header(s)) == SplitDecoded(s.bucket[..Index(s.bucket, QUESTION)]) != Some(s)
  {
    CutInBucket(s);
    var b := s.bucket[..Index(s.bucket, QUESTION)];
    if PathUnescape(b).Some? {
      DecodingShortens(b);
    }
  }

  /** Bucket and key of a header are decoded apart. */
  lemma DecodesApart(b: Bytes, k: Bytes)
    requires PathUnescape(b).Some?
    ensures PathUnescape(b + [SLASH] + QueryEscape(k)) == Some(PathUnescape(b).value + [SLASH] + Plussed(k))
  {
    QueryRoundTrip(k);
    PlainDecodes([SLASH]);
    UnescapeConcat(b, [SLASH], false);
    UnescapeConcat(b + [SLASH], QueryEscape(k), false);
  }

  lemma SplitsSomewhere(d: Bytes, rest: Bytes)
    requires d != [] && rest != []
    ensures SplitBucketKey(d + [SLASH] + rest).Some?
  {
    var p := d + [SLASH] + rest;
    var q := TrimSlash(p);
    var at := if d[0] == SLASH then |d| - 1 else |d|;
    assert q[at] == SLASH && at + 1 < |q|;
  }

  lemma DecodedNonEmpty(s: Bytes)
    requires s != [] && PathUnescape(s).Some?
    ensures PathUnescape(s).value != []
  {
  }

  /** A "%" in the bucket is decoded away, or makes the header undecodable. */
  lemma PercentShortens(s: Source)
    requires SLASH !in s.bucket && QUESTION !in s.bucket && PERCENT in s.bucket && s.key != []
    ensures Decoded(Header(s)) != Some(s)
    ensures Decoded(Header(s)).None? <==> PathUnescape(s.bucket).None?
  {
    var h := Header(s);
    var q := s.bucket + [SLASH] + QueryEscape(s.key);
    EscapedHides(s.key);
    IndexIs(h, QUESTION, |h|);
    assert h[..|h|] == h && TrimSlash(h) == q;
    if PathUnescape(s.bucket).Some? {
      DecodesApart(s.bucket, s.key);
      DecodingShortens(s.bucket);
      DecodedNonEmpty(s.bucket);
      var d := PathUnescape(s.bucket).value;
      SplitsSomewhere(d, Plussed(s.key));
      BucketWithin(d, Plussed(s.key));
    } else if PathUnescape(q).Some? {
      SlashSeparates(s.bucket, QueryEscape(s.key));
    }
  }

  lemma SlashKept(k: Bytes)
    ensures Index(Plussed(k), SLASH) == Index(k, SLASH)
  {
    var i, t := Index(k, SLASH), Plussed(k);
    forall j | 0 <= j < i
      ensures t[j] != SLASH
    {
      assert k[j] in k[..i];
    }
    IndexIs(t, SLASH, i);
  }

  /** An empty bucket vanishes: the key is split instead. */
  lemma EmptyShortens(s: Source)
    requires s.bucket == [] && s.key != []
    ensures Decoded(Header(s)) != Some(s)
    ensures Decoded(Header(s)).None? <==> Index(s.key, SLASH) + 1 >= |s.key|
  {
    var h := Header(s);
    EscapedHides(s.key);
    IndexIs(h, QUESTION, |h|);
    assert h[..|h|] == h;
    assert TrimSlash(h) == [SLASH] + QueryEscape(s.key);
    PlainDecodes([SLASH]);
    QueryRoundTrip(s.key);
    UnescapeConcat([SLASH], QueryEscape(s.key), false);
    var p := [SLASH] + Plussed(s.key);
    assert TrimSlash(p) == Plussed(s.key);
    SlashKept(s.key);
  }

  lemma PlussedFixed(k: Bytes)
    ensures Plussed(k) == k <==> SPACE !in k
  {
    if SPACE in k {
      var i :| 0 <= i < |k| && k[i] == SPACE;
      assert Plussed(k)[i] == PLUS;
    }
  }

  /** Nothing in the source changes under a second reading of its header. */
  predicate Clean(s: Source) {
    s.bucket != [] && PERCENT !in s.bucket && QUESTION !in s.bucket && SPACE !in s.key
  }

  /** A second normalisation of the source's header is refused: what precedes a "?" in the bucket
      names no source, or the bucket is not itself decodable, or there is no bucket and the key
      does not split into one. */
  predicate Refused(s: Source) {
    if QUESTION in s.bucket then SplitDecoded(s.bucket[..Index(s.bucket, QUESTION)]).None?
    else if s.bucket == [] then Index(s.key, SLASH) + 1 >= |s.key|
    else PathUnescape(s.bucket).None?
  }

  /** A second pass refuses exactly the headers of such sources, and gives back exactly the
      headers of clean ones: a space, say, became "+", which it takes for a literal plus. */
  lemma SecondPass(s: Source)
    requires SLASH !in s.bucket && s.key != []
    ensures NormalizeCopySource(Header(s)).None? <==> Refused(s)
    ensures NormalizeCopySource(Header(s)) == Some(Header(s)) <==> Clean(s)
  {
    HeaderDetermines(s);
    PlussedFixed(s.key);
    if QUESTION in s.bucket {
      QuestionShortens(s);
    } else if s.bucket == [] {
      EmptyShortens(s);
    } else if PERCENT in s.bucket {
      PercentShortens(s);
    } else {
      PlainDecodes(s.bucket);
      ReadAgain(s);
    }
  }

  /** The rewriting is meant to be idempotent.  It is exactly when the source cannot be
      normalised, or a second pass refuses the result, or nothing in it changes. */
  lemma RewritingIdempotentIff(src: Bytes)
    ensures Rewritten(Rewritten(src)) == Rewritten(src)
            <==> Decoded(src).None? || Refused(Decoded(src).value) || Clean(Decoded(src).value)
  {
    if Decoded(src).Some? {
      SecondPass(Decoded(src).value);
    }
  }

  /** Headers of different sources differ. */
  lemma HeaderDetermines(s: Source)
    requires SLASH !in s.bucket
    ensures NormalizeCopySource(Header(s)) == Some(Header(s)) <==> Decoded(Header(s)) == Some(s)
  {
    LibraryReadsHeader(s);
    if Decoded(Header(s)).Some? {
      LibraryReadsHeader(Decoded(Header(s)).value);
    }
  }

  /** One input of the failing family: the key "a b" of bucket "b", which the second pass
      renames "a+b". */
  lemma SpaceRenamed()
    ensures var s := Source([0x62], [0x61, SPACE, 0x62]); var src := EncodeAll(s.bucket + [SLASH] + s.key);
      && LibraryReads(Rewritten(src)) == Some(s)
      && LibraryReads(Rewritten(Rewritten(src))) == Some(Source([0x62], [0x61, PLUS, 0x62]))
  {
    var s := Source([0x62], [0x61, SPACE, 0x62]);
    var src := EncodeAll(s.bucket + [SLASH] + s.key);
    EncodeAllSpells(s.bucket + [SLASH] + s.key);
    FullyEncodedAccepted(src, s.bucket, s.key);
    ReadAgain(s);
    assert Plussed(s.key) == [0x61, PLUS, 0x62];
    LibraryReadsHeader(s);
    LibraryReadsHeader(Source([0x62], [0x61, PLUS, 0x62]));
  }
}
