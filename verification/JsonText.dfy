/**
 * JSON text as UTF-16 code units: string literals with the escapes of section 7 of RFC 8259, and
 * the fact that makes printed values readable again - where one ends is decided by what follows.
 */
module JsonText {
  import opened Prelude

  type Unit = x: int | 0 <= x < 0x10000
  type Text = seq<Unit>

  const QUOTE: Unit := 34
  const COMMA: Unit := 44
  const COLON: Unit := 58
  const BACKSLASH: Unit := 92
  const LOWER_U: Unit := 117

  // ---- string literals ---------------------------------------------------------------------

  predicate High(u: Unit) { 0xD800 <= u < 0xDC00 }
  predicate Low(u: Unit) { 0xDC00 <= u < 0xE000 }

  function Hex(n: int): Unit
    requires 0 <= n < 16
  {
    if n < 10 then 48 + n else 87 + n
  }

  function Hex4(u: Unit): Text { [Hex(u / 16 / 16 / 16), Hex(u / 16 / 16 % 16), Hex(u / 16 % 16), Hex(u % 16)] }

  /** The letter of a two-character escape, or none. */
  function Short(u: Unit): int {
    if u == 8 then 98 else if u == 9 then 116 else if u == 10 then 110 else if u == 12 then 102 else if u == 13 then 114
    else if u == QUOTE || u == BACKSLASH then u else -1
  }

  predicate Escaped(u: Unit) { u < 32 || u == QUOTE || u == BACKSLASH || High(u) || Low(u) }

  function Escape(u: Unit): Text {
    if Short(u) >= 0 then [BACKSLASH, Short(u)] else if Escaped(u) then [BACKSLASH, LOWER_U] + Hex4(u) else [u]
  }

  predicate Paired(s: Text) { |s| > 1 && High(s[0]) && Low(s[1]) }

  /** The inside of a literal: a surrogate pair stands for itself, a lone surrogate is escaped. */
  function Inside(s: Text): Text {
    if s == [] then [] else if Paired(s) then s[..2] + Inside(s[2..]) else Escape(s[0]) + Inside(s[1..])
  }

  function Quote(s: Text): Text { [QUOTE] + Inside(s) + [QUOTE] }

  /** Numbers below a multiple of 16 are their quotient and their last digit. */
  lemma SixteenSplits(u: int)
    ensures u == u / 16 * 16 + u % 16 && 0 <= u % 16 < 16
  {}

  lemma Hex4Injective(u: Unit, v: Unit)
    requires Hex4(u) == Hex4(v)
    ensures u == v
  {
    assert Hex4(u)[0] == Hex4(v)[0] && Hex4(u)[1] == Hex4(v)[1] && Hex4(u)[2] == Hex4(v)[2] && Hex4(u)[3] == Hex4(v)[3];
    SixteenSplits(u);
    SixteenSplits(v);
    SixteenSplits(u / 16);
    SixteenSplits(v / 16);
    SixteenSplits(u / 16 / 16);
    SixteenSplits(v / 16 / 16);
  }

  /** Two escapes that start alike are one. */
  lemma EscapeSeparates(u: Unit, x: Text, v: Unit, y: Text)
    requires Escape(u) + x == Escape(v) + y
    ensures u == v && x == y
  {
    var p, q := Escape(u) + x, Escape(v) + y;
    assert p[0] == Escape(u)[0] && q[0] == Escape(v)[0];
    if Escaped(u) {
      assert p[1] == Escape(u)[1] && q[1] == Escape(v)[1];
      Continue(Escape(u), x, Escape(v), y);
      if Short(u) < 0 {
        assert Escape(u)[2..] == Hex4(u) && Escape(v)[2..] == Hex4(v);
        Hex4Injective(u, v);
      }
    } else {
      Continue(Escape(u), x, Escape(v), y);
    }
  }

  lemma InsideStarts(s: Text, x: Text)
    ensures (Inside(s) + [QUOTE] + x)[0] == QUOTE <==> s == []
    ensures s != [] && High((Inside(s) + [QUOTE] + x)[0]) ==> Paired(s)
    ensures Paired(s) ==> High((Inside(s) + [QUOTE] + x)[0])
  {}

  /** One more token of a literal, and the rest of it. */
  function Token(s: Text): Text
    requires s != []
  {
    if Paired(s) then s[..2] else Escape(s[0])
  }

  function After(s: Text): Text
    requires s != []
  {
    if Paired(s) then s[2..] else s[1..]
  }

  lemma InsideSplits(s: Text, x: Text)
    requires s != []
    ensures Inside(s) + [QUOTE] + x == Token(s) + (Inside(After(s)) + [QUOTE] + x)
  {}

  lemma TokenSeparates(s: Text, x: Text, t: Text, y: Text)
    requires s != [] && t != [] && Paired(s) == Paired(t) && Token(s) + x == Token(t) + y
    ensures Token(s) == Token(t) && x == y && (After(s) == After(t) ==> s == t)
  {
    if Paired(s) {
      Continue(s[..2], x, t[..2], y);
      assert s == s[..2] + s[2..] && t == t[..2] + t[2..];
    } else {
      EscapeSeparates(s[0], x, t[0], y);
      assert s == [s[0]] + s[1..] && t == [t[0]] + t[1..];
    }
  }

  /** The inside of a literal is read back up to its closing quote. */
  lemma {:induction false} InsideSeparates(s: Text, x: Text, t: Text, y: Text)
    requires Inside(s) + [QUOTE] + x == Inside(t) + [QUOTE] + y
    ensures s == t && x == y
    decreases |s|
  {
    InsideStarts(s, x);
    InsideStarts(t, y);
    if s == [] {
      assert Inside(s) + [QUOTE] + x == [QUOTE] + x && Inside(t) + [QUOTE] + y == [QUOTE] + y;
      Continue([QUOTE], x, [QUOTE], y);
    } else {
      InsideSplits(s, x);
      InsideSplits(t, y);
      TokenSeparates(s, Inside(After(s)) + [QUOTE] + x, t, Inside(After(t)) + [QUOTE] + y);
      InsideSeparates(After(s), x, After(t), y);
    }
  }

  lemma QuoteSeparates(s: Text, x: Text, t: Text, y: Text)
    requires Quote(s) + x == Quote(t) + y
    ensures s == t && x == y
  {
    assert Quote(s) + x == [QUOTE] + (Inside(s) + [QUOTE] + x) && Quote(t) + y == [QUOTE] + (Inside(t) + [QUOTE] + y);
    Continue([QUOTE], Inside(s) + [QUOTE] + x, [QUOTE], Inside(t) + [QUOTE] + y);
    InsideSeparates(s, x, t, y);
  }

  // ---- printed values in a row ----------------------------------------------------------------

  /** What may follow a value: the end, a comma, or the closing of a list or an object. */
  predicate Delimits(x: Text) { x == [] || x[0] == COMMA || x[0] == 93 || x[0] == 125 }

  /** Two values that continue alike after them are printed alike. */
  ghost predicate Separate(p: Text, q: Text) {
    forall x, y | Delimits(x) && Delimits(y) && p + x == q + y :: p == q && x == y
  }

  /** A text that starts no list end. */
  predicate Starts(p: Text) { p != [] && !Delimits(p) }

  function Join(list: seq<Text>): Text {
    if |list| == 0 then [] else if |list| == 1 then list[0] else list[0] + [COMMA] + Join(list[1..])
  }

  function Tail(list: seq<Text>, close: Unit, x: Text): Text
    requires list != []
  {
    if |list| == 1 then [close] + x else [COMMA] + (Join(list[1..]) + [close] + x)
  }

  lemma JoinTail(list: seq<Text>, close: Unit, x: Text)
    requires list != []
    ensures Join(list) + [close] + x == list[0] + Tail(list, close, x)
  {}

  lemma ListStarts(list: seq<Text>, close: Unit, x: Text)
    requires (close == 93 || close == 125) && forall i | 0 <= i < |list| :: Starts(list[i])
    ensures (Join(list) + [close] + x)[0] == close <==> list == []
  {}

  /** A list of readable values is readable: the values are the same, one by one, and so is what follows. */
  lemma {:induction false} JoinSeparates(p: seq<Text>, q: seq<Text>, close: Unit, x: Text, y: Text)
    requires close == 93 || close == 125
    requires (forall i | 0 <= i < |p| :: Starts(p[i])) && (forall i | 0 <= i < |q| :: Starts(q[i]))
    requires forall i, j | 0 <= i < |p| && 0 <= j < |q| :: Separate(p[i], q[j])
    requires Join(p) + [close] + x == Join(q) + [close] + y
    ensures p == q && x == y
    decreases |p|
  {
    ListStarts(p, close, x);
    ListStarts(q, close, y);
    if p == [] {
      assert Join(p) + [close] + x == [close] + x && Join(q) + [close] + y == [close] + y;
      Continue([close], x, [close], y);
    } else {
      JoinTail(p, close, x);
      JoinTail(q, close, y);
      assert Separate(p[0], q[0]);
      var s, t := Tail(p, close, x), Tail(q, close, y);
      assert p[0] == q[0] && s == t;
      assert s[0] == t[0];
      if |p| == 1 {
        Continue([close], x, [close], y);
      } else {
        Continue([COMMA], Join(p[1..]) + [close] + x, [COMMA], Join(q[1..]) + [close] + y);
        JoinSeparates(p[1..], q[1..], close, x, y);
        assert p == [p[0]] + p[1..] && q == [q[0]] + q[1..];
      }
    }
  }
}
