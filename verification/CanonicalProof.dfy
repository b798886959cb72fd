/** Canonical text equality is value equality, on all JSON values. */
module CanonicalProof {
  import opened Prelude
  import opened JsonText
  import opened Canonical

  function Texts(items: seq<Value>): seq<Text> { seq(|items|, i requires 0 <= i < |items| => Canon(items[i])) }

  function FieldTexts(fields: seq<Field>): seq<Text> { seq(|fields|, i requires 0 <= i < |fields| => Canon(fields[i].value)) }

  function Listed(fields: seq<Field>): seq<Printed> { Sort(Kept(fields, FieldTexts(fields))) }

  lemma CanonUnfolds(v: Value)
    ensures v.Arr? ==> Canon(v) == [91] + Join(Texts(v.items)) + [93]
    ensures v.Obj? ==> Canon(v) == [123] + Join(Lines(Listed(v.fields))) + [125]
  {}

  // ---- sorted fields ---------------------------------------------------------------------------

  lemma {:induction false} LessOrders(s: Text, t: Text)
    ensures !(Less(s, t) && Less(t, s)) && (s == t ==> !Less(s, t)) && (Less(s, t) || Less(t, s) || s == t)
    decreases |s|
  {
    if s != [] && t != [] && s[0] == t[0] {
      LessOrders(s[1..], t[1..]);
      assert s == [s[0]] + s[1..] && t == [t[0]] + t[1..];
    }
  }

  lemma {:induction false} LessTransitive(s: Text, t: Text, u: Text)
    requires Less(s, t) && Less(t, u)
    ensures Less(s, u)
    decreases |s|
  {
    if s != [] && s[0] == t[0] && t[0] == u[0] { LessTransitive(s[1..], t[1..], u[1..]); }
  }

  ghost predicate Ascending(list: seq<Printed>) { forall i, j | 0 <= i < j < |list| :: Less(list[i].key, list[j].key) }

  ghost predicate KeysDiffer(list: seq<Printed>) { forall i, j | 0 <= i < j < |list| :: list[i].key != list[j].key }

  lemma {:induction false} InsertSorts(p: Printed, sorted: seq<Printed>)
    requires Ascending(sorted) && forall q | q in sorted :: q.key != p.key
    ensures Ascending(Insert(p, sorted)) && forall q :: q in Insert(p, sorted) <==> q == p || q in sorted
  {
    if sorted != [] {
      LessOrders(sorted[0].key, p.key);
      if Less(sorted[0].key, p.key) {
        InsertSorts(p, sorted[1..]);
        var rest := Insert(p, sorted[1..]);
        forall j | 0 <= j < |rest| ensures Less(sorted[0].key, rest[j].key) { assert rest[j] in rest; }
      } else {
        forall j | 0 < j < |sorted| ensures Less(p.key, sorted[j].key) { LessTransitive(p.key, sorted[0].key, sorted[j].key); }
      }
    }
  }

  lemma {:induction false} SortSorts(list: seq<Printed>)
    requires KeysDiffer(list)
    ensures Ascending(Sort(list)) && forall q :: q in Sort(list) <==> q in list
  {
    if list != [] {
      SortSorts(list[1..]);
      InsertSorts(list[0], Sort(list[1..]));
      assert list == [list[0]] + list[1..];
    }
  }

  lemma EmptyTogether(p: seq<Printed>, q: seq<Printed>)
    requires forall x :: x in p <==> x in q
    ensures p == [] <==> q == []
  {
    if p != [] { assert p[0] in q; }
    if q != [] { assert q[0] in p; }
  }

  /** Ascending lists of the same things are the same list. */
  lemma {:induction false} AscendingUnique(p: seq<Printed>, q: seq<Printed>)
    requires Ascending(p) && Ascending(q) && forall x :: x in p <==> x in q
    ensures p == q
  {
    EmptyTogether(p, q);
    if p != [] {
      assert p[0] in q;
      var i :| 0 <= i < |q| && q[i] == p[0];
      assert q[0] in p;
      var j :| 0 <= j < |p| && p[j] == q[0];
      LessOrders(p[0].key, q[0].key);
      assert p[0] == q[0];
      forall x ensures x in p[1..] <==> x in q[1..] {
        LessOrders(p[0].key, p[0].key);
        assert x in p <==> x == p[0] || x in p[1..] by { assert p == [p[0]] + p[1..]; }
        assert x in q <==> x == q[0] || x in q[1..] by { assert q == [q[0]] + q[1..]; }
      }
      AscendingUnique(p[1..], q[1..]);
      assert p == [p[0]] + p[1..] && q == [q[0]] + q[1..];
    }
  }

  /** The kept fields are the defined ones. */
  lemma {:induction false} KeptFields(fields: seq<Field>, texts: seq<Text>)
    requires |texts| == |fields|
    ensures forall p :: p in Kept(fields, texts) <==> exists i :: Defines(fields, i) && p == Printed(fields[i].key, texts[i])
  {
    if fields != [] {
      KeptFields(fields[1..], texts[1..]);
      forall p ensures p in Kept(fields, texts) <==> exists i :: Defines(fields, i) && p == Printed(fields[i].key, texts[i]) {
        if p in Kept(fields[1..], texts[1..]) {
          var i :| Defines(fields[1..], i) && p == Printed(fields[1..][i].key, texts[1..][i]);
          assert Defines(fields, i + 1) && p == Printed(fields[i + 1].key, texts[i + 1]);
        }
        if i :| Defines(fields, i) && p == Printed(fields[i].key, texts[i]) {
          if i > 0 { assert Defines(fields[1..], i - 1) && p == Printed(fields[1..][i - 1].key, texts[1..][i - 1]); }
        }
        assert Defines(fields, 0) && p == Printed(fields[0].key, texts[0]) ==> p in Kept(fields, texts);
      }
    }
  }

  lemma {:induction false} KeptDiffer(fields: seq<Field>, texts: seq<Text>)
    requires |texts| == |fields| && forall i, j | 0 <= i < j < |fields| :: fields[i].key != fields[j].key
    ensures KeysDiffer(Kept(fields, texts))
  {
    if fields != [] {
      KeptDiffer(fields[1..], texts[1..]);
      KeptFields(fields[1..], texts[1..]);
      var rest := Kept(fields[1..], texts[1..]);
      forall j | 0 <= j < |rest| ensures rest[j].key != fields[0].key {
        assert rest[j] in rest;
        var i :| Defines(fields[1..], i) && rest[j] == Printed(fields[1..][i].key, texts[1..][i]);
      }
    }
  }

  /** What is listed of an object: its defined fields, ascending, each with its value's text. */
  lemma ListedFields(fields: seq<Field>)
    requires forall i, j | 0 <= i < j < |fields| :: fields[i].key != fields[j].key
    ensures Ascending(Listed(fields))
    ensures forall p :: p in Listed(fields) <==> exists i :: Defines(fields, i) && p == Printed(fields[i].key, Canon(fields[i].value))
  {
    var texts := FieldTexts(fields);
    KeptFields(fields, texts);
    KeptDiffer(fields, texts);
    SortSorts(Kept(fields, texts));
    forall p ensures p in Listed(fields) <==> exists i :: Defines(fields, i) && p == Printed(fields[i].key, Canon(fields[i].value)) {
      if i :| Defines(fields, i) && p == Printed(fields[i].key, Canon(fields[i].value)) { assert p == Printed(fields[i].key, texts[i]); }
      if p in Listed(fields) {
        var i :| Defines(fields, i) && p == Printed(fields[i].key, texts[i]);
        assert p == Printed(fields[i].key, Canon(fields[i].value));
      }
    }
  }

  // ---- unique readability -----------------------------------------------------------------------

  lemma CanonStarts(v: Value)
    requires WellFormed(v)
    ensures Starts(Canon(v))
    ensures match v
      case Undefined => Canon(v)[0] == 110
      case Null => Canon(v)[0] == 110
      case Bool(b) => Canon(v)[0] == if b then 116 else 102
      case Num(_) => 48 <= Canon(v)[0] < 58 || Canon(v)[0] == 45
      case Str(_) => Canon(v)[0] == QUOTE
      case Arr(_) => Canon(v)[0] == 91
      case Obj(_) => Canon(v)[0] == 123
  {}

  function NumberLength(s: Text): nat { if s == [] || !NumberUnit(s[0]) then 0 else 1 + NumberLength(s[1..]) }

  lemma {:induction false} NumberEnds(p: Text, x: Text)
    requires (forall u | u in p :: NumberUnit(u)) && Delimits(x)
    ensures NumberLength(p + x) == |p|
  {
    if p == [] {
      assert p + x == x;
    } else {
      NumberEnds(p[1..], x);
      assert (p + x)[0] == p[0] && (p + x)[1..] == p[1..] + x;
    }
  }

  lemma NumberSeparates(p: Text, x: Text, q: Text, y: Text)
    requires (forall u | u in p :: NumberUnit(u)) && (forall u | u in q :: NumberUnit(u)) && Delimits(x) && Delimits(y) && p + x == q + y
    ensures p == q
  {
    NumberEnds(p, x);
    NumberEnds(q, y);
    Continue(p, x, q, y);
  }

  lemma LineSplits(p: Printed, x: Text)
    ensures Line(p) + x == Quote(p.key) + ([COLON] + (p.text + x))
  {}

  lemma LineSeparatesAt(p: Printed, q: Printed, x: Text, y: Text)
    requires Separate(p.text, q.text) && Delimits(x) && Delimits(y) && Line(p) + x == Line(q) + y
    ensures p == q && x == y
  {
    LineSplits(p, x);
    LineSplits(q, y);
    QuoteSeparates(p.key, [COLON] + (p.text + x), q.key, [COLON] + (q.text + y));
    Continue([COLON], p.text + x, [COLON], q.text + y);
    assert p.text == q.text;
  }

  lemma LineSeparates(p: Printed, q: Printed)
    requires Separate(p.text, q.text)
    ensures Separate(Line(p), Line(q)) && Starts(Line(p)) && (Line(p) == Line(q) ==> p == q)
  {
    forall x, y | Delimits(x) && Delimits(y) && Line(p) + x == Line(q) + y ensures p == q && x == y {
      LineSeparatesAt(p, q, x, y);
    }
    if Line(p) == Line(q) { LineSeparatesAt(p, q, [], []); }
  }

  lemma Opened(p: Text, q: Text, open: Unit, close: Unit, x: Text, y: Text)
    requires [open] + p + [close] + x == [open] + q + [close] + y
    ensures p + [close] + x == q + [close] + y
  {
    assert [open] + p + [close] + x == [open] + (p + [close] + x) && [open] + q + [close] + y == [open] + (q + [close] + y);
    Continue([open], p + [close] + x, [open], q + [close] + y);
  }

  lemma ListSeparatesAt(p: seq<Text>, q: seq<Text>, open: Unit, close: Unit, x: Text, y: Text)
    requires close == 93 || close == 125
    requires (forall i | 0 <= i < |p| :: Starts(p[i])) && (forall i | 0 <= i < |q| :: Starts(q[i]))
    requires forall i, j | 0 <= i < |p| && 0 <= j < |q| :: Separate(p[i], q[j])
    requires [open] + Join(p) + [close] + x == [open] + Join(q) + [close] + y
    ensures p == q && x == y
  {
    Opened(Join(p), Join(q), open, close, x, y);
    JoinSeparates(p, q, close, x, y);
  }

  lemma ListSeparates(p: seq<Text>, q: seq<Text>, open: Unit, close: Unit)
    requires close == 93 || close == 125
    requires (forall i | 0 <= i < |p| :: Starts(p[i])) && (forall i | 0 <= i < |q| :: Starts(q[i]))
    requires forall i, j | 0 <= i < |p| && 0 <= j < |q| :: Separate(p[i], q[j])
    ensures Separate([open] + Join(p) + [close], [open] + Join(q) + [close])
    ensures [open] + Join(p) + [close] == [open] + Join(q) + [close] ==> p == q
  {
    var s, t := [open] + Join(p) + [close], [open] + Join(q) + [close];
    forall x, y | s + x == t + y ensures p == q && x == y { ListSeparatesAt(p, q, open, close, x, y); }
    if s == t { ListSeparatesAt(p, q, open, close, [], []); }
  }

  /** Where a printed value ends is decided by what follows it. */
  lemma {:induction false} CanonSeparates(a: Value, b: Value)
    requires WellFormed(a) && WellFormed(b)
    ensures Separate(Canon(a), Canon(b))
    decreases a
  {
    CanonStarts(a);
    CanonStarts(b);
    CanonUnfolds(a);
    CanonUnfolds(b);
    forall x, y | Delimits(x) && Delimits(y) && Canon(a) + x == Canon(b) + y ensures Canon(a) == Canon(b) && x == y {
      assert (Canon(a) + x)[0] == Canon(a)[0] && (Canon(b) + y)[0] == Canon(b)[0];
      match a
      case Num(_) => NumberSeparates(Canon(a), x, Canon(b), y); Continue(Canon(a), x, Canon(b), y);
      case Str(s) => QuoteSeparates(s, x, b.text, y);
      case Arr(_) => ItemsSeparate(a, b);
      case Obj(_) => FieldsSeparate(a, b);
      case _ => Continue(Canon(a), x, Canon(b), y);
    }
  }

  lemma {:induction false} ItemsSeparate(a: Value, b: Value)
    requires WellFormed(a) && WellFormed(b) && a.Arr? && b.Arr?
    ensures Separate(Canon(a), Canon(b)) && (Canon(a) == Canon(b) ==> Texts(a.items) == Texts(b.items))
    decreases a, 0
  {
    var p, q := Texts(a.items), Texts(b.items);
    forall i | 0 <= i < |p| ensures Starts(p[i]) { CanonStarts(a.items[i]); }
    forall j | 0 <= j < |q| ensures Starts(q[j]) { CanonStarts(b.items[j]); }
    forall i, j | 0 <= i < |p| && 0 <= j < |q| ensures Separate(p[i], q[j]) { CanonSeparates(a.items[i], b.items[j]); }
    ListSeparates(p, q, 91, 93);
    CanonUnfolds(a);
    CanonUnfolds(b);
  }

  lemma {:induction false} FieldsSeparate(a: Value, b: Value)
    requires WellFormed(a) && WellFormed(b) && a.Obj? && b.Obj?
    ensures Separate(Canon(a), Canon(b)) && (Canon(a) == Canon(b) ==> Listed(a.fields) == Listed(b.fields))
    decreases a, 0
  {
    var p, q := Listed(a.fields), Listed(b.fields);
    forall i, j | 0 <= i < |p| && 0 <= j < |q| ensures Separate(p[i].text, q[j].text) {
      ListedFields(a.fields);
      ListedFields(b.fields);
      assert p[i] in p && q[j] in q;
      var k :| Defines(a.fields, k) && p[i] == Printed(a.fields[k].key, Canon(a.fields[k].value));
      var l :| Defines(b.fields, l) && q[j] == Printed(b.fields[l].key, Canon(b.fields[l].value));
      CanonSeparates(a.fields[k].value, b.fields[l].value);
    }
    LinesSeparate(p, q);
    CanonUnfolds(a);
    CanonUnfolds(b);
  }

  lemma LinesSeparate(p: seq<Printed>, q: seq<Printed>)
    requires forall i, j | 0 <= i < |p| && 0 <= j < |q| :: Separate(p[i].text, q[j].text)
    ensures Separate([123] + Join(Lines(p)) + [125], [123] + Join(Lines(q)) + [125])
    ensures [123] + Join(Lines(p)) + [125] == [123] + Join(Lines(q)) + [125] ==> p == q
  {
    forall i, j | 0 <= i < |p| && 0 <= j < |q| ensures Separate(Lines(p)[i], Lines(q)[j]) && (Lines(p)[i] == Lines(q)[j] ==> p[i] == q[j]) {
      LineSeparates(p[i], q[j]);
    }
    ListSeparates(Lines(p), Lines(q), 123, 125);
    if Lines(p) == Lines(q) {
      assert |p| == |q| by { assert |Lines(p)| == |p| && |Lines(q)| == |q|; }
      forall i | 0 <= i < |p| ensures p[i] == q[i] { assert Lines(p)[i] == Lines(q)[i]; }
    }
  }

  // ---- the theorem ---------------------------------------------------------------------------

  lemma {:induction false} EqualTextsAreSame(a: Value, b: Value)
    requires WellFormed(a) && WellFormed(b) && Canon(a) == Canon(b)
    ensures Same(a, b)
    decreases a
  {
    CanonStarts(a);
    CanonStarts(b);
    match a
    case Str(s) => QuoteSeparates(s, [], b.text, []);
    case Arr(items) =>
      ItemsSeparate(a, b);
      assert |Texts(items)| == |items| && |Texts(b.items)| == |b.items|;
      forall i | 0 <= i < |items| ensures Same(items[i], b.items[i]) {
        assert Texts(items)[i] == Texts(b.items)[i];
        EqualTextsAreSame(items[i], b.items[i]);
      }
    case Obj(fields) =>
      FieldsSeparate(a, b);
      EqualListsHaveEqualFields(fields, b.fields);
      forall i, j | Defines(fields, i) && Defines(b.fields, j) && fields[i].key == b.fields[j].key ensures Same(fields[i].value, b.fields[j].value) {
        EqualTextsAreSame(fields[i].value, b.fields[j].value);
      }
    case _ =>
  }

  lemma EqualListsHaveEqualFields(one: seq<Field>, two: seq<Field>)
    requires (forall i, j | 0 <= i < j < |one| :: one[i].key != one[j].key) && (forall i, j | 0 <= i < j < |two| :: two[i].key != two[j].key)
    requires Listed(one) == Listed(two)
    ensures (forall i | Defines(one, i) :: Has(two, one[i].key)) && (forall j | Defines(two, j) :: Has(one, two[j].key))
    ensures forall i, j | Defines(one, i) && Defines(two, j) && one[i].key == two[j].key :: Canon(one[i].value) == Canon(two[j].value)
  {
    ListedFields(one);
    ListedFields(two);
    forall i | Defines(one, i) ensures Printed(one[i].key, Canon(one[i].value)) in Listed(two) {}
    forall j | Defines(two, j) ensures Printed(two[j].key, Canon(two[j].value)) in Listed(one) {}
  }

  lemma {:induction false} SameHaveEqualTexts(a: Value, b: Value)
    requires WellFormed(a) && WellFormed(b) && Same(a, b)
    ensures Canon(a) == Canon(b)
    decreases a
  {
    CanonUnfolds(a);
    CanonUnfolds(b);
    match a
    case Arr(items) =>
      forall i | 0 <= i < |items| ensures Texts(items)[i] == Texts(b.items)[i] { SameHaveEqualTexts(items[i], b.items[i]); }
      assert Texts(items) == Texts(b.items);
    case Obj(fields) =>
      ListedFields(fields);
      ListedFields(b.fields);
      forall i, j | Defines(fields, i) && Defines(b.fields, j) && fields[i].key == b.fields[j].key ensures Canon(fields[i].value) == Canon(b.fields[j].value) {
        SameHaveEqualTexts(fields[i].value, b.fields[j].value);
      }
      forall p ensures p in Listed(fields) <==> p in Listed(b.fields) { SameListed(fields, b.fields, p); }
      AscendingUnique(Listed(fields), Listed(b.fields));
    case _ =>
  }

  lemma SameListed(one: seq<Field>, two: seq<Field>, p: Printed)
    requires (forall i | Defines(one, i) :: Has(two, one[i].key)) && (forall j | Defines(two, j) :: Has(one, two[j].key))
    requires forall i, j | Defines(one, i) && Defines(two, j) && one[i].key == two[j].key :: Canon(one[i].value) == Canon(two[j].value)
    requires (forall i, j | 0 <= i < j < |one| :: one[i].key != one[j].key) && (forall i, j | 0 <= i < j < |two| :: two[i].key != two[j].key)
    ensures p in Listed(one) <==> p in Listed(two)
  {
    ListedFields(one);
    ListedFields(two);
    if p in Listed(one) {
      var i :| Defines(one, i) && p == Printed(one[i].key, Canon(one[i].value));
      var j :| Defines(two, j) && two[j].key == one[i].key;
    }
    if p in Listed(two) {
      var j :| Defines(two, j) && p == Printed(two[j].key, Canon(two[j].value));
      var i :| Defines(one, i) && one[i].key == two[j].key;
    }
  }

  /** Two values have one canonical form exactly when they are the same value. */
  lemma CanonicalMeansSame(a: Value, b: Value)
    requires WellFormed(a) && WellFormed(b)
    ensures Canon(a) == Canon(b) <==> Same(a, b)
  {
    if Canon(a) == Canon(b) { EqualTextsAreSame(a, b); }
    if Same(a, b) { SameHaveEqualTexts(a, b); }
  }
}
