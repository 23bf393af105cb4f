/** A model of the crypto laws in which nothing ever collides: bytes are either octets or the i-th
    byte of a symbolic term. It shows that the laws assumed of the library are consistent, and that
    the two escape clauses of the binding theorem can be false for every input at once. */
module FreeTerms {
  import opened Octets
  import opened Wrappers
  import opened Primitives
  import opened Hpke
  import opened Domain
  import opened Binding

  datatype Symbol =
    | Octet(b: byte)
    | MacByte(key: seq<Symbol>, msg: seq<Symbol>, i: nat)
    | PubByte(sk: seq<Symbol>, i: nat)
    | DhByte(ends: set<seq<Symbol>>, i: nat)
    | Box(boxKey: seq<Symbol>, nonce: seq<Symbol>, aad: seq<Symbol>, plaintext: seq<Symbol>)

  function OctetOf(b: byte): Symbol {
    Octet(b)
  }

  function Mac(key: seq<Symbol>, msg: seq<Symbol>): (h: seq<Symbol>)
    ensures |h| == 32 && h[0] == MacByte(key, msg, 0)
  {
    seq(32, i requires 0 <= i < 32 => MacByte(key, msg, i))
  }

  function Pub(sk: seq<Symbol>): (pk: seq<Symbol>)
    ensures |pk| == 32 && pk[0] == PubByte(sk, 0)
  {
    seq(32, i requires 0 <= i < 32 => PubByte(sk, i))
  }

  function SharedTerm(ends: set<seq<Symbol>>): seq<Symbol> {
    seq(32, i requires 0 <= i < 32 => DhByte(ends, i))
  }

  function Dh(sk: seq<Symbol>, pk: seq<Symbol>): Option<seq<Symbol>> {
    if pk != [] && pk[0].PubByte? && pk == Pub(pk[0].sk) then Some(SharedTerm({sk, pk[0].sk})) else None
  }

  function SealBox(key: seq<Symbol>, nonce: seq<Symbol>, aad: seq<Symbol>, plaintext: seq<Symbol>): seq<Symbol> {
    [Box(key, nonce, aad, plaintext)]
  }

  function OpenBox(
    key: seq<Symbol>, nonce: seq<Symbol>, aad: seq<Symbol>, ciphertext: seq<Symbol>
  ): Option<seq<Symbol>> {
    if |ciphertext| == 1 && ciphertext[0].Box? && ciphertext[0] == Box(key, nonce, aad, ciphertext[0].plaintext)
    then Some(ciphertext[0].plaintext) else None
  }

  function Free(): Primitives<Symbol> {
    Primitives(OctetOf, Mac, Dh, Pub, SealBox, OpenBox)
  }

  /** The free terms satisfy every law the theorems assume. */
  lemma FreeSatisfiesLaws()
    ensures OctetsDistinct(Free()) && HashLength(Free()) && KeyLength(Free()) && DhCommutes(Free()) && AeadOpens(Free())
  {
    forall a, b ensures Free().dh(a, Free().pub(b)) == Free().dh(b, Free().pub(a)) {
      assert {a, b} == {b, a};
    }
  }

  lemma FreeNeverCollides(x: Inputs<Symbol>, x': Inputs<Symbol>)
    ensures !HashCollision(Free(), x, x')
  {
    forall q: Query<Symbol>, q': Query<Symbol> | Answer(Free(), q) == Answer(Free(), q') ensures q == q' {
      assert Answer(Free(), q)[0] == MacByte(q.key, q.msg, 0);
      assert Answer(Free(), q')[0] == MacByte(q'.key, q'.msg, 0);
    }
  }

  /** Over free terms a sealed ciphertext opens exactly under the inputs it was sealed with. */
  lemma FreeOpensExactly(
    skR: seq<Symbol>, skS: seq<Symbol>, info: seq<Symbol>, aad: seq<Symbol>, plaintext: seq<Symbol>, skE: seq<Symbol>,
    enc': seq<Symbol>, skR': seq<Symbol>, pkS': seq<Symbol>, info': seq<Symbol>, aad': seq<Symbol>
  )
    requires |enc'| == |pkS'| == 32
    ensures HashLength(Free())
    ensures var s := SealAuth(Free(), Pub(skR), skS, info, aad, plaintext, skE);
            && s.Ok?
            && (OpenAuth(Free(), enc', skR', pkS', info', aad', s.value.ciphertext).Ok? <==>
                enc' == s.value.enc && skR' == skR && pkS' == Pub(skS) && info' == info && aad' == aad)
  {
    FreeSatisfiesLaws();
    FreeOpens(skR, skS, skE, info, aad, plaintext);
    var s := SealAuth(Free(), Pub(skR), skS, info, aad, plaintext, skE).value;
    if OpenAuth(Free(), enc', skR', pkS', info', aad', s.ciphertext).Ok? {
      FreeBinds(skR, skS, info, aad, plaintext, skE, enc', skR', pkS', info', aad');
    }
  }

  lemma PubInjective(a: seq<Symbol>, b: seq<Symbol>)
    requires Pub(a) == Pub(b)
    ensures a == b
  {
    assert Pub(a)[0] == PubByte(a, 0) && Pub(b)[0] == PubByte(b, 0);
  }

  lemma FreeOpens(
    skR: seq<Symbol>, skS: seq<Symbol>, skE: seq<Symbol>, info: seq<Symbol>, aad: seq<Symbol>, plaintext: seq<Symbol>
  )
    requires HashLength(Free()) && DhCommutes(Free()) && AeadOpens(Free())
    ensures var s := SealAuth(Free(), Pub(skR), skS, info, aad, plaintext, skE);
            && s.Ok? && s.value.enc == Pub(skE)
            && OpenAuth(Free(), s.value.enc, skR, Pub(skS), info, aad, s.value.ciphertext).Ok?
  {
    assert Free().pub(skR) == Pub(skR) && Free().pub(skS) == Pub(skS);
    assert Free().dh(skE, Pub(skR)).Some? && Free().dh(skS, Pub(skR)).Some?;
    OpenUndoesSeal(Free(), skR, skS, skE, info, aad, plaintext);
  }

  /** The AEAD of the free terms accepts a box only in the context it was made in. */
  lemma FreeNeverConfused(
    made: AeadCtx<Symbol>, aad: seq<Symbol>, used: AeadCtx<Symbol>, aad': seq<Symbol>, plaintext: seq<Symbol>
  )
    ensures !AeadConfusion(Free(), made, aad, used, aad', SealBox(made.key, made.baseNonce, aad, plaintext))
  {
  }

  lemma FreeBinds(
    skR: seq<Symbol>, skS: seq<Symbol>, info: seq<Symbol>, aad: seq<Symbol>, plaintext: seq<Symbol>, skE: seq<Symbol>,
    enc': seq<Symbol>, skR': seq<Symbol>, pkS': seq<Symbol>, info': seq<Symbol>, aad': seq<Symbol>
  )
    requires HashLength(Free()) && KeyLength(Free()) && |enc'| == |pkS'| == 32
    requires SealAuth(Free(), Pub(skR), skS, info, aad, plaintext, skE).Ok?
    requires var s := SealAuth(Free(), Pub(skR), skS, info, aad, plaintext, skE).value;
             OpenAuth(Free(), enc', skR', pkS', info', aad', s.ciphertext).Ok?
    ensures enc' == Pub(skE) && skR' == skR && pkS' == Pub(skS) && info' == info && aad' == aad
  {
    OpenBindsSeal(Free(), Pub(skR), skS, info, aad, plaintext, skE, enc', skR', pkS', info', aad');
    var made, used := SealInputs(Free(), Pub(skR), skS, skE, info), OpenInputs(Free(), enc', skR', pkS', info');
    FreeNeverCollides(made, used);
    FreeNeverConfused(Derive(Free(), made), aad, Derive(Free(), used), aad', plaintext);
    if skR' != skR && Pub(skR') == Pub(skR) { PubInjective(skR', skR); }
  }

  /** And an altered ciphertext does not open, unless it is itself a sealing under the same inputs:
      whatever opens is the sealing of what it opens to. */
  lemma FreeOpenedWasSealed(
    skR: seq<Symbol>, skS: seq<Symbol>, info: seq<Symbol>, aad: seq<Symbol>, skE: seq<Symbol>, ciphertext: seq<Symbol>
  )
    ensures HashLength(Free())
    ensures var result := OpenAuth(Free(), Pub(skE), skR, Pub(skS), info, aad, ciphertext);
            result.Ok? ==>
              SealAuth(Free(), Pub(skR), skS, info, aad, result.value, skE) == Ok(Sealed(Pub(skE), ciphertext))
  {
    FreeSatisfiesLaws();
    EncapMeetsDecap(Free(), skR, skS, skE);
    assert Free().pub(skR) == Pub(skR) && Free().pub(skS) == Pub(skS) && Free().pub(skE) == Pub(skE);
    var secret := AuthDecap(Free(), Pub(skE), skR, Pub(skS));
    if secret.Some? {
      var ctx := KeySchedule(Free(), secret.value, info);
      OpenedBox(ctx.key, ctx.baseNonce, aad, ciphertext);
    }
  }

  lemma OpenedBox(key: seq<Symbol>, nonce: seq<Symbol>, aad: seq<Symbol>, ciphertext: seq<Symbol>)
    ensures OpenBox(key, nonce, aad, ciphertext).Some? ==>
              SealBox(key, nonce, aad, OpenBox(key, nonce, aad, ciphertext).value) == ciphertext
  {
  }
}
