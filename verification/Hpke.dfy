/** HPKE in authenticated mode (RFC 9180), suite DHKEM(X25519, HKDF-SHA256) / HKDF-SHA256 /
    ChaCha20Poly1305, as the client composes it from HMAC, X25519 and the AEAD. */
module Hpke {
  import opened Octets
  import opened Wrappers
  import opened Primitives
  import opened Hkdf

  datatype Suite = Kem | Full

  datatype Sealed<B> = Sealed(enc: seq<B>, ciphertext: seq<B>)

  datatype AeadCtx<B> = AeadCtx(key: seq<B>, baseNonce: seq<B>)

  datatype CryptoError = LowOrderPoint | OpenFailed

  function SuiteId(s: Suite): seq<byte> {
    match s
    case Kem => Bytes("KEM") + BigEndian(0x0020, 2)
    case Full => Bytes("HPKE") + BigEndian(0x0020, 2) + BigEndian(0x0001, 2) + BigEndian(0x0003, 2)
  }

  type Label = name: string | IsByteString(name)

  const EAE_PRK: Label := "eae_prk"
  const SHARED_SECRET: Label := "shared_secret"
  const PSK_ID_HASH: Label := "psk_id_hash"
  const INFO_HASH: Label := "info_hash"
  const SECRET: Label := "secret"
  const KEY: Label := "key"
  const BASE_NONCE: Label := "base_nonce"

  function LabelPrefix(s: Suite, name: Label): seq<byte> {
    Bytes("HPKE-v1") + SuiteId(s) + Bytes(name)
  }

  /** LabeledExtract of section 4 of RFC 9180. */
  function LabeledExtract<B>(p: Primitives<B>, s: Suite, salt: seq<B>, name: Label, ikm: seq<B>): seq<B> {
    p.hmac(salt, p.Lift(LabelPrefix(s, name)) + ikm)
  }

  /** LabeledExpand of section 4 of RFC 9180. */
  ghost function LabeledExpand<B(!new)>(
    p: Primitives<B>, s: Suite, prk: seq<B>, name: Label, info: seq<B>, len: nat
  ): (okm: seq<B>)
    requires HashLength(p) && len <= MAX_BLOCKS * HASH_LEN
    ensures |okm| == len
  {
    Expand(p, prk, p.Lift(BigEndian(len, 2) + LabelPrefix(s, name)) + info, len)
  }

  /** ExtractAndExpand of section 4.1 of RFC 9180. */
  ghost function ExtractAndExpand<B(!new)>(p: Primitives<B>, dhBytes: seq<B>, kemContext: seq<B>): seq<B>
    requires HashLength(p)
  {
    var eaePrk := LabeledExtract(p, Kem, [], EAE_PRK, dhBytes);
    LabeledExpand(p, Kem, eaePrk, SHARED_SECRET, kemContext, 32)
  }

  /** AuthEncap with the ephemeral secret key as an argument: the shared secret, or None when
      either Diffie-Hellman result is of low order. */
  ghost function AuthEncap<B(!new)>(p: Primitives<B>, pkR: seq<B>, skS: seq<B>, skE: seq<B>): Option<seq<B>>
    requires HashLength(p)
  {
    match (p.dh(skE, pkR), p.dh(skS, pkR))
    case (Some(e), Some(s)) => Some(ExtractAndExpand(p, e + s, p.pub(skE) + pkR + p.pub(skS)))
    case _ => None
  }

  /** AuthDecap: the recipient reaches the shared secret from the other ends of the two exchanges. */
  ghost function AuthDecap<B(!new)>(p: Primitives<B>, enc: seq<B>, skR: seq<B>, pkS: seq<B>): Option<seq<B>>
    requires HashLength(p)
  {
    match (p.dh(skR, enc), p.dh(skR, pkS))
    case (Some(e), Some(s)) => Some(ExtractAndExpand(p, e + s, enc + p.pub(skR) + pkS))
    case _ => None
  }

  /** KeySchedule for mode_auth (0x02) without a pre-shared key, section 5.1 of RFC 9180. */
  ghost function KeySchedule<B(!new)>(p: Primitives<B>, sharedSecret: seq<B>, info: seq<B>): AeadCtx<B>
    requires HashLength(p)
  {
    var pskIdHash := LabeledExtract(p, Full, [], PSK_ID_HASH, []);
    var infoHash := LabeledExtract(p, Full, [], INFO_HASH, info);
    var context := p.Lift([0x02]) + pskIdHash + infoHash;
    var secret := LabeledExtract(p, Full, sharedSecret, SECRET, []);
    AeadCtx(LabeledExpand(p, Full, secret, KEY, context, 32),
            LabeledExpand(p, Full, secret, BASE_NONCE, context, 12))
  }

  ghost function SealAuth<B(!new)>(
    p: Primitives<B>, pkR: seq<B>, skS: seq<B>, info: seq<B>, aad: seq<B>, plaintext: seq<B>, skE: seq<B>
  ): Result<Sealed<B>, CryptoError>
    requires HashLength(p)
  {
    match AuthEncap(p, pkR, skS, skE)
    case None => Err(LowOrderPoint)
    case Some(secret) =>
      var ctx := KeySchedule(p, secret, info);
      Ok(Sealed(p.pub(skE), p.seal(ctx.key, ctx.baseNonce, aad, plaintext)))
  }

  ghost function OpenAuth<B(!new)>(
    p: Primitives<B>, enc: seq<B>, skR: seq<B>, pkS: seq<B>, info: seq<B>, aad: seq<B>, ciphertext: seq<B>
  ): Result<seq<B>, CryptoError>
    requires HashLength(p)
  {
    match AuthDecap(p, enc, skR, pkS)
    case None => Err(LowOrderPoint)
    case Some(secret) =>
      var ctx := KeySchedule(p, secret, info);
      match p.open(ctx.key, ctx.baseNonce, aad, ciphertext)
      case None => Err(OpenFailed)
      case Some(plaintext) => Ok(plaintext)
  }

  /** Both ends reach the same shared secret, or both meet a low-order point. */
  lemma EncapMeetsDecap<B(!new)>(p: Primitives<B>, skR: seq<B>, skS: seq<B>, skE: seq<B>)
    requires HashLength(p) && DhCommutes(p)
    ensures AuthEncap(p, p.pub(skR), skS, skE) == AuthDecap(p, p.pub(skE), skR, p.pub(skS))
  {
    assert p.dh(skE, p.pub(skR)) == p.dh(skR, p.pub(skE));
    assert p.dh(skS, p.pub(skR)) == p.dh(skR, p.pub(skS));
  }

  /** The round trip: sealing fails only on a low-order exchange, and whatever was sealed opens to
      the plaintext under the recipient's secret key, the sender's public key and the same info and
      associated data. */
  lemma OpenUndoesSeal<B(!new)>(
    p: Primitives<B>, skR: seq<B>, skS: seq<B>, skE: seq<B>, info: seq<B>, aad: seq<B>, plaintext: seq<B>
  )
    requires HashLength(p) && DhCommutes(p) && AeadOpens(p)
    ensures var s := SealAuth(p, p.pub(skR), skS, info, aad, plaintext, skE);
            if p.dh(skE, p.pub(skR)).None? || p.dh(skS, p.pub(skR)).None? then s == Err(LowOrderPoint)
            else s.Ok? && OpenAuth(p, s.value.enc, skR, p.pub(skS), info, aad, s.value.ciphertext) == Ok(plaintext)
  {
    EncapMeetsDecap(p, skR, skS, skE);
  }
}
