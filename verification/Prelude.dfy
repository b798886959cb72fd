/** Types shared by every component of the model. */
module Prelude {

  datatype Option<+T> = None | Some(value: T)

  /** A node identity. Identities are only ever compared. */
  datatype NodeId = NodeId(name: string)

  /** A nonce a node drew: the issuer and its draw, so that two draws never coincide. */
  datatype Nonce = Nonce(issuer: NodeId, draw: nat)

  /** The first value there is. */
  function Or<T>(first: Option<T>, second: Option<T>): Option<T> { if first.Some? then first else second }

  /** Two sequences that continue alike after prefixes of one length have the same prefix and the same rest. */
  lemma Continue<T>(p: seq<T>, x: seq<T>, q: seq<T>, y: seq<T>)
    requires p + x == q + y && |p| == |q|
    ensures p == q && x == y
  {
    assert p == (p + x)[..|p|] && q == (q + y)[..|p|];
    assert x == (p + x)[|p|..] && y == (q + y)[|p|..];
  }
}
