/** What the message encryption takes from its crypto library, as functions with stated laws.

    B is the type of a byte. In the program it is an octet; every theorem is proved for any B, so it
    holds for octets and also for the symbolic bytes of module FreeTerms, in which no two different
    hash inputs collide. */
module Primitives {
  import opened Octets
  import opened Wrappers

  datatype Primitives<!B> = Primitives(
    octet: byte -> B,
    hmac: (seq<B>, seq<B>) -> seq<B>,
    // None stands for the all-zero result, which the library reports as an error
    dh: (seq<B>, seq<B>) -> Option<seq<B>>,
    pub: seq<B> -> seq<B>,
    seal: (seq<B>, seq<B>, seq<B>, seq<B>) -> seq<B>,
    open: (seq<B>, seq<B>, seq<B>, seq<B>) -> Option<seq<B>>
  ) {
    function Lift(bytes: seq<byte>): (s: seq<B>)
      ensures |s| == |bytes|
      ensures forall i :: 0 <= i < |bytes| ==> s[i] == octet(bytes[i])
    {
      seq(|bytes|, i requires 0 <= i < |bytes| => octet(bytes[i]))
    }
  }

  ghost predicate OctetsDistinct<B(!new)>(p: Primitives<B>) {
    forall x: byte, y: byte :: p.octet(x) == p.octet(y) ==> x == y
  }

  ghost predicate HashLength<B(!new)>(p: Primitives<B>) {
    forall key, msg :: |p.hmac(key, msg)| == 32
  }

  ghost predicate KeyLength<B(!new)>(p: Primitives<B>) {
    forall sk :: |p.pub(sk)| == 32
  }

  ghost predicate DhCommutes<B(!new)>(p: Primitives<B>) {
    forall a, b :: p.dh(a, p.pub(b)) == p.dh(b, p.pub(a))
  }

  ghost predicate AeadOpens<B(!new)>(p: Primitives<B>) {
    forall key, nonce, aad, plaintext ::
      p.open(key, nonce, aad, p.seal(key, nonce, aad, plaintext)) == Some(plaintext)
  }

  lemma LiftInjective<B(!new)>(p: Primitives<B>, a: seq<byte>, b: seq<byte>)
    requires OctetsDistinct(p) && p.Lift(a) == p.Lift(b)
    ensures a == b
  {
    forall i | 0 <= i < |a| ensures a[i] == b[i] {
      assert p.Lift(a)[i] == p.Lift(b)[i];
    }
  }
}
