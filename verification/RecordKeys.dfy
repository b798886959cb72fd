/**
 * Record keys (`key`): each part percent-encoded, the parts joined by slashes. Text is a sequence
 * of code points, and a part is one without surrogates; the encoder refuses any other.
 */
module RecordKeys {
  import opened Prelude

  type Point = x: int | 0 <= x < 0x110000 && !(0xD800 <= x < 0xE000)
  type Byte = x: int | 0 <= x < 256
  type Part = seq<Point>
  type Ascii = x: int | 0 <= x < 128
  type Key = seq<Ascii>

  const SLASH: Ascii := 47
  const PERCENT: Ascii := 37

  /** The characters section 2.3 of RFC 2396 calls unreserved: letters, digits and marks. */
  predicate Unreserved(u: int) {
    || 48 <= u < 58 || 65 <= u < 91 || 97 <= u < 123
    || u in {45, 95, 46, 33, 126, 42, 39, 40, 41}
  }

  function Utf8(u: Point): seq<Byte> {
    if u < 0x80 then [u]
    else if u < 0x800 then [0xC0 + u / 64, 0x80 + u % 64]
    else if u < 0x10000 then [0xE0 + u / 64 / 64, 0x80 + u / 64 % 64, 0x80 + u % 64]
    else [0xF0 + u / 64 / 64 / 64, 0x80 + u / 64 / 64 % 64, 0x80 + u / 64 % 64, 0x80 + u % 64]
  }

  function HexDigit(n: int): Ascii
    requires 0 <= n < 16
  {
    if n < 10 then 48 + n else 55 + n
  }

  function EncodeByte(b: Byte): Key { [PERCENT, HexDigit(b / 16), HexDigit(b % 16)] }

  function EncodeBytes(bytes: seq<Byte>): Key { if bytes == [] then [] else EncodeByte(bytes[0]) + EncodeBytes(bytes[1..]) }

  function EncodePoint(u: Point): Key { if Unreserved(u) then [u] else EncodeBytes(Utf8(u)) }

  function Encode(part: Part): Key { if part == [] then [] else EncodePoint(part[0]) + Encode(part[1..]) }

  function KeyOf(parts: seq<Part>): Key {
    if |parts| == 0 then [] else if |parts| == 1 then Encode(parts[0]) else Encode(parts[0]) + [SLASH] + KeyOf(parts[1..])
  }

  predicate StartsWith(k: Key, prefix: Key) { |prefix| <= |k| && k[..|prefix|] == prefix }

  // ---- one part --------------------------------------------------------------------------------

  lemma Associative(p: Key, q: Key, r: Key)
    ensures p + q + r == p + (q + r)
  {}

  lemma EncodeByteSeparates(b: Byte, x: Key, c: Byte, y: Key)
    requires EncodeByte(b) + x == EncodeByte(c) + y
    ensures b == c && x == y
  {
    Continue(EncodeByte(b), x, EncodeByte(c), y);
    assert EncodeByte(b)[1] == EncodeByte(c)[1] && EncodeByte(b)[2] == EncodeByte(c)[2];
    assert b == b / 16 * 16 + b % 16 && c == c / 16 * 16 + c % 16;
  }

  lemma {:induction false} EncodeBytesSeparates(b: seq<Byte>, x: Key, c: seq<Byte>, y: Key)
    requires |b| == |c| && EncodeBytes(b) + x == EncodeBytes(c) + y
    ensures b == c && x == y
  {
    if b == [] {
      assert EncodeBytes(b) + x == x && EncodeBytes(c) + y == y;
    } else {
      var s, t := EncodeBytes(b[1..]) + x, EncodeBytes(c[1..]) + y;
      assert EncodeBytes(b) + x == EncodeByte(b[0]) + s && EncodeBytes(c) + y == EncodeByte(c[0]) + t;
      EncodeByteSeparates(b[0], s, c[0], t);
      EncodeBytesSeparates(b[1..], x, c[1..], y);
      assert b == [b[0]] + b[1..] && c == [c[0]] + c[1..];
    }
  }

  /** The first octet of a code point says how many follow. */
  lemma Utf8Length(u: Point, v: Point)
    requires Utf8(u)[0] == Utf8(v)[0]
    ensures |Utf8(u)| == |Utf8(v)|
  {}

  lemma Utf8Injective(u: Point, v: Point)
    requires Utf8(u) == Utf8(v)
    ensures u == v
  {
    assert forall i | 0 <= i < |Utf8(u)| :: Utf8(u)[i] == Utf8(v)[i];
    Sixes(u);
    Sixes(v);
    Utf8Length(u, v);
  }

  lemma Sixes(u: Point)
    ensures u == u / 64 * 64 + u % 64 && u / 64 == u / 64 / 64 * 64 + u / 64 % 64
    ensures u / 64 / 64 == u / 64 / 64 / 64 * 64 + u / 64 / 64 % 64
  {}

  lemma EncodePointSeparates(u: Point, x: Key, v: Point, y: Key)
    requires EncodePoint(u) + x == EncodePoint(v) + y
    ensures u == v && x == y
  {
    var p, q := EncodePoint(u) + x, EncodePoint(v) + y;
    EncodeStarts(u);
    EncodeStarts(v);
    assert p[0] == EncodePoint(u)[0] && q[0] == EncodePoint(v)[0];
    if Unreserved(u) {
      Continue([u], x, [v], y);
    } else {
      FirstOctet(u, x);
      FirstOctet(v, y);
      EncodeByteSeparates(Utf8(u)[0], EncodeBytes(Utf8(u)[1..]) + x, Utf8(v)[0], EncodeBytes(Utf8(v)[1..]) + y);
      Utf8Length(u, v);
      EncodeBytesSeparates(Utf8(u), x, Utf8(v), y);
      Utf8Injective(u, v);
    }
  }

  lemma EncodeStarts(u: Point)
    ensures EncodePoint(u) != [] && (Unreserved(u) <==> EncodePoint(u)[0] != PERCENT)
  {}

  lemma FirstOctet(u: Point, x: Key)
    requires !Unreserved(u)
    ensures EncodePoint(u) + x == EncodeByte(Utf8(u)[0]) + (EncodeBytes(Utf8(u)[1..]) + x)
  {}

  lemma {:induction false} EncodeInjective(p: Part, q: Part)
    requires Encode(p) == Encode(q)
    ensures p == q
  {
    if p == [] || q == [] {
      if p != [] { EncodeStarts(p[0]); }
      if q != [] { EncodeStarts(q[0]); }
    } else {
      EncodePointSeparates(p[0], Encode(p[1..]), q[0], Encode(q[1..]));
      EncodeInjective(p[1..], q[1..]);
      assert p == [p[0]] + p[1..] && q == [q[0]] + q[1..];
    }
  }

  // ---- parts and slashes -----------------------------------------------------------------------

  function ToSlash(k: Key): nat { if k == [] || k[0] == SLASH then 0 else 1 + ToSlash(k[1..]) }

  lemma {:induction false} BytesHaveNoSlash(bytes: seq<Byte>)
    ensures SLASH !in EncodeBytes(bytes)
  {
    if bytes != [] { BytesHaveNoSlash(bytes[1..]); }
  }

  lemma {:induction false} EncodeHasNoSlash(part: Part)
    ensures SLASH !in Encode(part)
  {
    if part != [] {
      BytesHaveNoSlash(Utf8(part[0]));
      EncodeHasNoSlash(part[1..]);
    }
  }

  lemma {:induction false} SlashEnds(k: Key, x: Key)
    requires SLASH !in k && (x == [] || x[0] == SLASH)
    ensures ToSlash(k + x) == |k|
  {
    if k == [] {
      assert k + x == x;
    } else {
      assert (k + x)[0] == k[0] && (k + x)[1..] == k[1..] + x;
      SlashEnds(k[1..], x);
    }
  }

  /** The first part of a key is everything up to the first slash. */
  lemma FirstPart(p: Part, x: Key, q: Part, y: Key)
    requires Encode(p) + x == Encode(q) + y && (x == [] || x[0] == SLASH) && (y == [] || y[0] == SLASH)
    ensures p == q && x == y
  {
    EncodeHasNoSlash(p);
    EncodeHasNoSlash(q);
    SlashEnds(Encode(p), x);
    SlashEnds(Encode(q), y);
    Continue(Encode(p), x, Encode(q), y);
    EncodeInjective(p, q);
  }

  function Rest(parts: seq<Part>): Key
    requires parts != []
  {
    if |parts| == 1 then [] else [SLASH] + KeyOf(parts[1..])
  }

  lemma KeySplits(parts: seq<Part>, x: Key)
    requires parts != []
    ensures KeyOf(parts) + x == Encode(parts[0]) + (Rest(parts) + x)
  {}

  lemma RestSplits(p: seq<Part>, x: Key, q: seq<Part>)
    requires |p| > 1 && q != [] && Rest(p) + x == Rest(q)
    ensures |q| > 1 && KeyOf(p[1..]) + x == KeyOf(q[1..])
  {
    Associative([SLASH], KeyOf(p[1..]), x);
    assert |Rest(p) + x| > 0;
    Continue([SLASH], KeyOf(p[1..]) + x, [SLASH], KeyOf(q[1..]));
  }

  lemma PrefixCons(p: seq<Part>, q: seq<Part>)
    requires 0 < |p| <= |q| && p[0] == q[0] && p[1..] == q[1..][..|p| - 1]
    ensures p == q[..|p|]
  {}

  /** A key that continues another one's, at its end or at a slash, has the other's parts first. */
  lemma {:induction false} PrefixMeansExtends(p: seq<Part>, x: Key, q: seq<Part>)
    requires p != [] && q != [] && (x == [] || x[0] == SLASH) && KeyOf(p) + x == KeyOf(q)
    ensures |p| <= |q| && p == q[..|p|] && (x == [] <==> |p| == |q|)
    decreases |p|
  {
    KeySplits(p, x);
    KeySplits(q, []);
    assert KeyOf(q) + [] == KeyOf(q) && Rest(q) + [] == Rest(q);
    FirstPart(p[0], Rest(p) + x, q[0], Rest(q));
    if |p| > 1 {
      RestSplits(p, x, q);
      PrefixMeansExtends(p[1..], x, q[1..]);
      PrefixCons(p, q);
    } else {
      assert Rest(p) + x == x;
      PrefixCons(p, q);
    }
  }

  lemma KeyIsInjective(p: seq<Part>, q: seq<Part>)
    requires p != [] && q != [] && KeyOf(p) == KeyOf(q)
    ensures p == q
  {
    assert KeyOf(p) + [] == KeyOf(q);
    PrefixMeansExtends(p, [], q);
    assert q[..|q|] == q;
  }

  lemma PrefixExtends(p: seq<Part>, q: seq<Part>, more: Key)
    requires p != [] && q != [] && KeyOf(q) == KeyOf(p) + [SLASH] + more
    ensures |p| < |q| && q[..|p|] == p
  {
    Associative(KeyOf(p), [SLASH], more);
    PrefixMeansExtends(p, [SLASH] + more, q);
  }

  lemma Rejoined(k: Key, n: nat)
    requires n <= |k|
    ensures k == k[..n] + k[n..]
  {}

  lemma PrefixStarts(prefix: Key, more: Key)
    ensures StartsWith(prefix + more, prefix)
  {}

  /** Scanning under `key(p)` and a slash finds exactly the keys whose parts properly extend `p`. */
  lemma ScanFindsExtensions(p: seq<Part>, q: seq<Part>)
    requires p != [] && q != []
    ensures StartsWith(KeyOf(q), KeyOf(p) + [SLASH]) <==> |p| < |q| && q[..|p|] == p
  {
    var k, prefix := KeyOf(q), KeyOf(p) + [SLASH];
    if StartsWith(k, prefix) {
      Rejoined(k, |prefix|);
      PrefixExtends(p, q, k[|prefix|..]);
    }
    if |p| < |q| && q[..|p|] == p {
      ExtensionStarts(p, q);
      PrefixStarts(prefix, KeyOf(q[|p|..]));
    }
  }

  lemma {:induction false} ExtensionStarts(p: seq<Part>, q: seq<Part>)
    requires p != [] && |p| < |q| && q[..|p|] == p
    ensures KeyOf(q) == KeyOf(p) + [SLASH] + KeyOf(q[|p|..])
    decreases |p|
  {
    var head, rest := Encode(q[0]) + [SLASH], KeyOf(q[|p|..]);
    assert p[0] == q[0] && KeyOf(q) == head + KeyOf(q[1..]);
    if |p| > 1 {
      assert q[1..][..|p| - 1] == p[1..] && q[1..][|p| - 1..] == q[|p|..];
      ExtensionStarts(p[1..], q[1..]);
      Associative(head, KeyOf(p[1..]) + [SLASH], rest);
      Associative(head, KeyOf(p[1..]), [SLASH]);
    }
  }

  /** The empty list has the key of one empty part, so lists of parts must not be empty. */
  lemma EmptyListCollides()
    ensures KeyOf([]) == KeyOf([[]])
  {}
}
