/** What a successful open says about the sealing it opened, with no assumption that the hash is
    injective: either every input agrees, or one of the hash calls the two runs really made collides
    with its counterpart, or the AEAD accepted a ciphertext under a context it was not made in. */
module Binding {
  import opened Octets
  import opened Wrappers
  import opened Primitives
  import opened Hpke
  import opened Domain
  import Aad

  ghost predicate Collides<B>(p: Primitives<B>, q: Query<B>, q': Query<B>) {
    q != q' && Answer(p, q) == Answer(p, q')
  }

  /** Some hash call of one derivation collides with the same call of the other. */
  ghost predicate HashCollision<B>(p: Primitives<B>, x: Inputs<B>, x': Inputs<B>) {
    || Collides(p, EaeQuery(p, x), EaeQuery(p, x'))
    || Collides(p, SharedSecretQuery(p, x), SharedSecretQuery(p, x'))
    || Collides(p, InfoQuery(p, x), InfoQuery(p, x'))
    || Collides(p, SecretQuery(p, x), SecretQuery(p, x'))
    || Collides(p, KeyQuery(p, x), KeyQuery(p, x'))
  }

  lemma AskFixes<B>(p: Primitives<B>, u: Purpose, k: seq<B>, d: seq<B>, k': seq<B>, d': seq<B>)
    requires Ask(p, u, k, d) == Ask(p, u, k', d')
    ensures k == k' && d == d'
  {
    SplitPrefix(p.Lift(Head(u)), d, p.Lift(Head(u)), d');
  }

  lemma AskBlockFixes<B>(p: Primitives<B>, u: Purpose, k: seq<B>, i: seq<B>, k': seq<B>, i': seq<B>)
    requires AskBlock(p, u, k, i) == AskBlock(p, u, k', i')
    ensures k == k' && i == i'
  {
    AskFixes(p, u, k, i + [p.octet(1)], k', i' + [p.octet(1)]);
    SplitPrefix(i, [p.octet(1)], i', [p.octet(1)]);
  }

  lemma KeyQueryFixes<B(!new)>(p: Primitives<B>, x: Inputs<B>, x': Inputs<B>)
    requires HashLength(p) && KeyQuery(p, x) == KeyQuery(p, x')
    ensures Answer(p, SecretQuery(p, x)) == Answer(p, SecretQuery(p, x'))
    ensures Answer(p, InfoQuery(p, x)) == Answer(p, InfoQuery(p, x'))
  {
    AskBlockFixes(p, Key, Answer(p, SecretQuery(p, x)), Context(p, x), Answer(p, SecretQuery(p, x')), Context(p, x'));
    var front := [p.octet(2)] + Answer(p, Ask(p, PskIdHash, [], []));
    SplitPrefix(front, Answer(p, InfoQuery(p, x)), front, Answer(p, InfoQuery(p, x')));
  }

  /** Equal keys come from equal inputs, going back from the key to the exchange, call by call. */
  lemma KeyFixesInputs<B(!new)>(p: Primitives<B>, x: Inputs<B>, x': Inputs<B>)
    requires HashLength(p) && Derive(p, x).key == Derive(p, x').key
    ensures x == x' || HashCollision(p, x, x')
  {
    if !HashCollision(p, x, x') {
      DeriveIsAnswers(p, x);
      DeriveIsAnswers(p, x');
      KeyQueryFixes(p, x, x');
      AskFixes(p, InfoHash, [], x.info, [], x'.info);
      AskFixes(p, Secret, Answer(p, SharedSecretQuery(p, x)), [], Answer(p, SharedSecretQuery(p, x')), []);
      AskBlockFixes(p, SharedSecret, Answer(p, EaeQuery(p, x)), x.kemContext,
                    Answer(p, EaeQuery(p, x')), x'.kemContext);
      AskFixes(p, EaePrk, [], x.dhBytes, [], x'.dhBytes);
    }
  }

  /** The AEAD opened `ciphertext` in a context other than the one that produced it. */
  ghost predicate AeadConfusion<B>(
    p: Primitives<B>, made: AeadCtx<B>, madeAad: seq<B>, used: AeadCtx<B>, usedAad: seq<B>, ciphertext: seq<B>
  ) {
    && p.open(used.key, used.baseNonce, usedAad, ciphertext).Some?
    && (used != made || usedAad != madeAad)
  }

  ghost function SealInputs<B>(p: Primitives<B>, pkR: seq<B>, skS: seq<B>, skE: seq<B>, info: seq<B>): Inputs<B>
    requires p.dh(skE, pkR).Some? && p.dh(skS, pkR).Some?
  {
    Inputs(p.dh(skE, pkR).value + p.dh(skS, pkR).value, p.pub(skE) + pkR + p.pub(skS), info)
  }

  ghost function OpenInputs<B>(p: Primitives<B>, enc: seq<B>, skR: seq<B>, pkS: seq<B>, info: seq<B>): Inputs<B>
    requires p.dh(skR, enc).Some? && p.dh(skR, pkS).Some?
  {
    Inputs(p.dh(skR, enc).value + p.dh(skR, pkS).value, enc + p.pub(skR) + pkS, info)
  }

  /** `open_auth` accepts a sealed ciphertext only with the encapsulated key, recipient key, sender
      key, info and associated data it was sealed with, and then returns what was sealed. */
  lemma OpenBindsSeal<B(!new)>(
    p: Primitives<B>,
    pkR: seq<B>, skS: seq<B>, info: seq<B>, aad: seq<B>, plaintext: seq<B>, skE: seq<B>,
    enc': seq<B>, skR': seq<B>, pkS': seq<B>, info': seq<B>, aad': seq<B>
  )
    requires HashLength(p) && KeyLength(p) && |pkR| == |enc'| == |pkS'| == 32
    requires SealAuth(p, pkR, skS, info, aad, plaintext, skE).Ok?
    requires var s := SealAuth(p, pkR, skS, info, aad, plaintext, skE).value;
             OpenAuth(p, enc', skR', pkS', info', aad', s.ciphertext).Ok?
    ensures var s := SealAuth(p, pkR, skS, info, aad, plaintext, skE).value;
            var made := SealInputs(p, pkR, skS, skE, info);
            var used := OpenInputs(p, enc', skR', pkS', info');
            || (&& enc' == s.enc && p.pub(skR') == pkR && pkS' == p.pub(skS) && info' == info && aad' == aad
                && (AeadOpens(p) ==> OpenAuth(p, enc', skR', pkS', info', aad', s.ciphertext) == Ok(plaintext)))
            || HashCollision(p, made, used)
            || AeadConfusion(p, Derive(p, made), aad, Derive(p, used), aad', s.ciphertext)
  {
    var s := SealAuth(p, pkR, skS, info, aad, plaintext, skE).value;
    var made := SealInputs(p, pkR, skS, skE, info);
    var used := OpenInputs(p, enc', skR', pkS', info');
    if !AeadConfusion(p, Derive(p, made), aad, Derive(p, used), aad', s.ciphertext) {
      KeyFixesInputs(p, made, used);
      if made == used {
        SplitPrefix(p.pub(skE) + pkR, p.pub(skS), enc' + p.pub(skR'), pkS');
        SplitPrefix(p.pub(skE), pkR, enc', p.pub(skR'));
      }
    }
  }

  /** The associated data both ends build from the message's ids and time. */
  function AadBytes<B>(p: Primitives<B>, s: string, r: string, sentAtMs: int): seq<B>
    requires IsByteString(s) && IsByteString(r)
  {
    p.Lift(Aad.AadOf(s, r, sentAtMs))
  }

  /** A server that delivers a ciphertext under another sender id, recipient id or time than it was
      sealed with is found out: the message does not open, whatever strings the delivered ids are. */
  lemma OpenBindsMetadata<B(!new)>(
    p: Primitives<B>, pkR: seq<B>, skS: seq<B>, info: seq<B>, plaintext: seq<B>, skE: seq<B>,
    sender: string, recipient: string, sentAtMs: int,
    enc': seq<B>, skR': seq<B>, pkS': seq<B>, info': seq<B>,
    sender': string, recipient': string, sentAtMs': int
  )
    requires HashLength(p) && KeyLength(p) && OctetsDistinct(p) && |pkR| == |enc'| == |pkS'| == 32
    requires IsByteString(sender) && IsByteString(recipient) && '|' !in sender && '|' !in recipient
    requires IsByteString(sender') && IsByteString(recipient')
    requires SealAuth(p, pkR, skS, info, AadBytes(p, sender, recipient, sentAtMs), plaintext, skE).Ok?
    requires var s := SealAuth(p, pkR, skS, info, AadBytes(p, sender, recipient, sentAtMs), plaintext, skE).value;
             OpenAuth(p, enc', skR', pkS', info', AadBytes(p, sender', recipient', sentAtMs'), s.ciphertext).Ok?
    ensures var aad, aad' := AadBytes(p, sender, recipient, sentAtMs), AadBytes(p, sender', recipient', sentAtMs');
            var s := SealAuth(p, pkR, skS, info, aad, plaintext, skE).value;
            var made := SealInputs(p, pkR, skS, skE, info);
            var used := OpenInputs(p, enc', skR', pkS', info');
            || (&& sender' == sender && recipient' == recipient && sentAtMs' == sentAtMs
                && pkS' == p.pub(skS) && p.pub(skR') == pkR
                && (AeadOpens(p) ==> OpenAuth(p, enc', skR', pkS', info', aad', s.ciphertext) == Ok(plaintext)))
            || HashCollision(p, made, used)
            || AeadConfusion(p, Derive(p, made), aad, Derive(p, used), aad', s.ciphertext)
  {
    var aad, aad' := AadBytes(p, sender, recipient, sentAtMs), AadBytes(p, sender', recipient', sentAtMs');
    OpenBindsSeal(p, pkR, skS, info, aad, plaintext, skE, enc', skR', pkS', info', aad');
    if aad == aad' {
      LiftInjective(p, Aad.AadOf(sender, recipient, sentAtMs), Aad.AadOf(sender', recipient', sentAtMs'));
      Aad.AadOfInjective(sender, recipient, sentAtMs, sender', recipient', sentAtMs');
    }
  }

  /** The condition on the sealed ids is needed: if one of them contains the separator, there are
      other ids under which the same ciphertext opens just as well. */
  lemma BarOpensUnderOtherIds<B(!new)>(
    p: Primitives<B>, skR: seq<B>, skS: seq<B>, info: seq<B>, plaintext: seq<B>, skE: seq<B>,
    sender: string, recipient: string, sentAtMs: int
  ) returns (sender': string, recipient': string)
    requires HashLength(p) && DhCommutes(p) && AeadOpens(p)
    requires IsByteString(sender) && IsByteString(recipient) && ('|' in sender || '|' in recipient)
    requires SealAuth(p, p.pub(skR), skS, info, AadBytes(p, sender, recipient, sentAtMs), plaintext, skE).Ok?
    ensures IsByteString(sender') && IsByteString(recipient') && sender' != sender && recipient' != recipient
    ensures var s := SealAuth(p, p.pub(skR), skS, info, AadBytes(p, sender, recipient, sentAtMs), plaintext, skE).value;
            OpenAuth(p, s.enc, skR, p.pub(skS), info, AadBytes(p, sender', recipient', sentAtMs), s.ciphertext)
            == Ok(plaintext)
  {
    sender', recipient' := Aad.BarInIdIsAmbiguous(sender, recipient, sentAtMs);
    OpenUndoesSeal(p, skR, skS, skE, info, AadBytes(p, sender, recipient, sentAtMs), plaintext);
  }
}
