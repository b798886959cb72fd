/**
 * The canonical form behind digests, cursor scopes and `same`: two values print alike exactly
 * when they are the same value, whatever the order of their fields.
 */
module Canonical {
  import opened JsonText

  /** A number is the token it prints as. */
  datatype Value = Undefined | Null | Bool(b: bool) | Num(token: Text) | Str(text: Text) | Arr(items: seq<Value>) | Obj(fields: seq<Field>)
  datatype Field = Field(key: Text, value: Value)

  predicate NumberUnit(u: Unit) { 48 <= u < 58 || u == 43 || u == 45 || u == 46 || u == 69 || u == 101 }

  /** Number tokens are made of number characters and start with a digit or a sign; keys occur once. */
  ghost predicate WellFormed(v: Value) {
    match v
    case Num(token) => token != [] && (forall u | u in token :: NumberUnit(u)) && (48 <= token[0] < 58 || token[0] == 45)
    case Arr(items) => forall i | 0 <= i < |items| :: WellFormed(items[i])
    case Obj(fields) => (forall i | 0 <= i < |fields| :: WellFormed(fields[i].value)) && (forall i, j | 0 <= i < j < |fields| :: fields[i].key != fields[j].key)
    case _ => true
  }

  // ---- what it means to be the same value ------------------------------------------------------

  predicate Nullish(v: Value) { v.Null? || v.Undefined? }

  predicate Defines(fields: seq<Field>, i: int) { 0 <= i < |fields| && !fields[i].value.Undefined? }

  ghost predicate Has(fields: seq<Field>, key: Text) { exists i :: Defines(fields, i) && fields[i].key == key }

  /** Equality of values: an undefined value is null, an undefined field is absent, and fields have no order. */
  ghost predicate Same(a: Value, b: Value) {
    match a
    case Arr(items) => b.Arr? && |items| == |b.items| && forall i | 0 <= i < |items| :: Same(items[i], b.items[i])
    case Obj(fields) =>
      && b.Obj?
      && (forall i | Defines(fields, i) :: Has(b.fields, fields[i].key))
      && (forall j | Defines(b.fields, j) :: Has(fields, b.fields[j].key))
      && (forall i, j | Defines(fields, i) && Defines(b.fields, j) && fields[i].key == b.fields[j].key :: Same(fields[i].value, b.fields[j].value))
    case _ => a == b || (Nullish(a) && Nullish(b))
  }

  // ---- the canonical form ----------------------------------------------------------------------

  /** The order of keys: code unit by code unit. */
  predicate Less(s: Text, t: Text) {
    if t == [] then false else if s == [] then true else if s[0] != t[0] then s[0] < t[0] else Less(s[1..], t[1..])
  }

  datatype Printed = Printed(key: Text, text: Text)

  function Insert(p: Printed, sorted: seq<Printed>): seq<Printed> {
    if sorted == [] || !Less(sorted[0].key, p.key) then [p] + sorted else [sorted[0]] + Insert(p, sorted[1..])
  }

  function Sort(list: seq<Printed>): seq<Printed> { if list == [] then [] else Insert(list[0], Sort(list[1..])) }

  function Line(p: Printed): Text { Quote(p.key) + [COLON] + p.text }

  function Lines(list: seq<Printed>): seq<Text> { seq(|list|, i requires 0 <= i < |list| => Line(list[i])) }

  /** The fields that are not undefined, in insertion order. */
  function Kept(fields: seq<Field>, texts: seq<Text>): seq<Printed>
    requires |texts| == |fields|
  {
    if fields == [] then []
    else (if fields[0].value.Undefined? then [] else [Printed(fields[0].key, texts[0])]) + Kept(fields[1..], texts[1..])
  }

  function Canon(v: Value): Text {
    match v
    case Undefined => [110, 117, 108, 108]
    case Null => [110, 117, 108, 108]
    case Bool(b) => if b then [116, 114, 117, 101] else [102, 97, 108, 115, 101]
    case Num(token) => token
    case Str(text) => Quote(text)
    case Arr(items) => [91] + Join(seq(|items|, i requires 0 <= i < |items| => Canon(items[i]))) + [93]
    case Obj(fields) => [123] + Join(Lines(Sort(Kept(fields, seq(|fields|, i requires 0 <= i < |fields| => Canon(fields[i].value)))))) + [125]
  }
}
