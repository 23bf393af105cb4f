/** Domain separation: no two hash inputs of the protocol are equal unless they serve the same
    purpose on the same data. */
module Domain {
  import opened Octets
  import opened Primitives
  import opened Hkdf
  import opened Hpke

  /** The seven labelled calls: three extracts and one expand under the full suite's names, and one
      of each under the KEM's; the expands are preceded by their output length. */
  datatype Purpose = EaePrk | SharedSecret | PskIdHash | InfoHash | Secret | Key | BaseNonce

  function Head(u: Purpose): seq<byte> {
    match u
    case EaePrk => LabelPrefix(Kem, EAE_PRK)
    case PskIdHash => LabelPrefix(Full, PSK_ID_HASH)
    case InfoHash => LabelPrefix(Full, INFO_HASH)
    case Secret => LabelPrefix(Full, SECRET)
    case SharedSecret => BigEndian(32, 2) + LabelPrefix(Kem, SHARED_SECRET)
    case Key => BigEndian(32, 2) + LabelPrefix(Full, KEY)
    case BaseNonce => BigEndian(12, 2) + LabelPrefix(Full, BASE_NONCE)
  }

  predicate DivergeAt(a: seq<byte>, b: seq<byte>, i: nat) {
    i < |a| && i < |b| && a[i] != b[i]
  }

  lemma LabelPrefixBytes(s: Suite, name: Label)
    ensures var h := LabelPrefix(s, name);
            && |h| == 7 + (if s.Kem? then 5 else 10) + |name|
            && h[0] == 'H' as int && h[7] == (if s.Kem? then 'K' else 'H') as int
            && (s.Full? && name != "" ==> h[17] == name[0] as int)
  {
    assert Bytes("HPKE-v1")[0] == 'H' as int;
    assert Bytes("KEM")[0] == 'K' as int && Bytes("HPKE")[0] == 'H' as int;
  }

  lemma LengthBytes()
    ensures BigEndian(32, 2) == [0, 32] && BigEndian(12, 2) == [0, 12]
  {
    TwoOctets(32);
    TwoOctets(12);
  }

  predicate IsExpand(u: Purpose) {
    u.SharedSecret? || u.Key? || u.BaseNonce?
  }

  /** The octets of the heads as section 4 of RFC 9180 prescribes them: output length, "HPKE-v1", suite
      id and label. */
  function HeadOctets(u: Purpose): seq<byte> {
    match u
    case EaePrk =>
      [0x48, 0x50, 0x4b, 0x45, 0x2d, 0x76, 0x31] +
      [0x4b, 0x45, 0x4d, 0x00, 0x20] +
      [0x65, 0x61, 0x65, 0x5f, 0x70, 0x72, 0x6b]
    case PskIdHash =>
      [0x48, 0x50, 0x4b, 0x45, 0x2d, 0x76, 0x31] +
      [0x48, 0x50, 0x4b, 0x45, 0x00, 0x20, 0x00, 0x01, 0x00, 0x03] +
      [0x70, 0x73, 0x6b, 0x5f, 0x69, 0x64, 0x5f, 0x68, 0x61, 0x73, 0x68]
    case InfoHash =>
      [0x48, 0x50, 0x4b, 0x45, 0x2d, 0x76, 0x31] +
      [0x48, 0x50, 0x4b, 0x45, 0x00, 0x20, 0x00, 0x01, 0x00, 0x03] +
      [0x69, 0x6e, 0x66, 0x6f, 0x5f, 0x68, 0x61, 0x73, 0x68]
    case Secret =>
      [0x48, 0x50, 0x4b, 0x45, 0x2d, 0x76, 0x31] +
      [0x48, 0x50, 0x4b, 0x45, 0x00, 0x20, 0x00, 0x01, 0x00, 0x03] +
      [0x73, 0x65, 0x63, 0x72, 0x65, 0x74]
    case SharedSecret =>
      [0x00, 0x20] +
      ([0x48, 0x50, 0x4b, 0x45, 0x2d, 0x76, 0x31] +
       [0x4b, 0x45, 0x4d, 0x00, 0x20] +
       [0x73, 0x68, 0x61, 0x72, 0x65, 0x64, 0x5f, 0x73, 0x65, 0x63, 0x72, 0x65, 0x74])
    case Key =>
      [0x00, 0x20] +
      ([0x48, 0x50, 0x4b, 0x45, 0x2d, 0x76, 0x31] +
       [0x48, 0x50, 0x4b, 0x45, 0x00, 0x20, 0x00, 0x01, 0x00, 0x03] +
       [0x6b, 0x65, 0x79])
    case BaseNonce =>
      [0x00, 0x0c] +
      ([0x48, 0x50, 0x4b, 0x45, 0x2d, 0x76, 0x31] +
       [0x48, 0x50, 0x4b, 0x45, 0x00, 0x20, 0x00, 0x01, 0x00, 0x03] +
       [0x62, 0x61, 0x73, 0x65, 0x5f, 0x6e, 0x6f, 0x6e, 0x63, 0x65])
  }

  lemma SuiteOctets()
    ensures SuiteId(Kem) == [0x4b, 0x45, 0x4d, 0x00, 0x20]
    ensures SuiteId(Full) == [0x48, 0x50, 0x4b, 0x45, 0x00, 0x20, 0x00, 0x01, 0x00, 0x03]
    ensures Bytes("HPKE-v1") == [0x48, 0x50, 0x4b, 0x45, 0x2d, 0x76, 0x31]
  {
    SmallInts();
    assert SuiteId(Kem) == Bytes("KEM") + [0x00, 0x20];
    assert SuiteId(Full) == Bytes("HPKE") + [0x00, 0x20] + [0x00, 0x01] + [0x00, 0x03];
  }

  lemma SmallInts()
    ensures BigEndian(0x0020, 2) == [0x00, 0x20]
    ensures BigEndian(0x0001, 2) == [0x00, 0x01] && BigEndian(0x0003, 2) == [0x00, 0x03]
  {
    TwoOctets(0x20);
    TwoOctets(1);
    TwoOctets(3);
  }

  lemma TwoOctets(n: byte)
    ensures BigEndian(n, 2) == [0, n]
  {
    assert BigEndian(n, 2) == BigEndian(0, 1) + [n];
    assert BigEndian(0, 1) == BigEndian(0, 0) + [0];
  }

  lemma LabelOctets()
    ensures Bytes(EAE_PRK) == [0x65, 0x61, 0x65, 0x5f, 0x70, 0x72, 0x6b]
    ensures Bytes(SHARED_SECRET) == [0x73, 0x68, 0x61, 0x72, 0x65, 0x64, 0x5f, 0x73, 0x65, 0x63, 0x72, 0x65, 0x74]
    ensures Bytes(PSK_ID_HASH) == [0x70, 0x73, 0x6b, 0x5f, 0x69, 0x64, 0x5f, 0x68, 0x61, 0x73, 0x68]
    ensures Bytes(INFO_HASH) == [0x69, 0x6e, 0x66, 0x6f, 0x5f, 0x68, 0x61, 0x73, 0x68]
    ensures Bytes(SECRET) == [0x73, 0x65, 0x63, 0x72, 0x65, 0x74]
    ensures Bytes(KEY) == [0x6b, 0x65, 0x79]
    ensures Bytes(BASE_NONCE) == [0x62, 0x61, 0x73, 0x65, 0x5f, 0x6e, 0x6f, 0x6e, 0x63, 0x65]
  {
  }

  /** What the program hashes is exactly that. */
  lemma HeadIsOctets(u: Purpose)
    ensures Head(u) == HeadOctets(u)
  {
    SuiteOctets();
    LabelOctets();
    LengthBytes();
  }

  /** The bytes that tell the heads apart. */
  lemma HeadBytes(u: Purpose)
    ensures IsExpand(u) ==>
      && |Head(u)| > 9 && Head(u)[0] == 0
      && Head(u)[1] == (if u.BaseNonce? then 12 else 32)
      && Head(u)[9] == (if u.SharedSecret? then 'K' else 'H') as int
    ensures !IsExpand(u) ==>
      && |Head(u)| > 17 && Head(u)[0] == 'H' as int
      && Head(u)[7] == (if u.EaePrk? then 'K' else 'H') as int
      && (!u.EaePrk? ==> Head(u)[17] == (if u.PskIdHash? then 'p' else if u.InfoHash? then 'i' else 's') as int)
  {
    LengthBytes();
    match u {
      case EaePrk => LabelPrefixBytes(Kem, EAE_PRK);
      case PskIdHash => LabelPrefixBytes(Full, PSK_ID_HASH);
      case InfoHash => LabelPrefixBytes(Full, INFO_HASH);
      case Secret => LabelPrefixBytes(Full, SECRET);
      case SharedSecret => LabelPrefixBytes(Kem, SHARED_SECRET);
      case Key => LabelPrefixBytes(Full, KEY);
      case BaseNonce => LabelPrefixBytes(Full, BASE_NONCE);
    }
  }

  /** The heads are prefix-free: any two of them differ at a position both have. */
  lemma HeadsDiverge(u: Purpose, v: Purpose) returns (i: nat)
    requires u != v
    ensures DivergeAt(Head(u), Head(v), i)
  {
    HeadBytes(u);
    HeadBytes(v);
    i := if IsExpand(u) != IsExpand(v) then 0
         else if IsExpand(u) then (if u.BaseNonce? || v.BaseNonce? then 1 else 9)
         else if u.EaePrk? || v.EaePrk? then 7 else 17;
  }

  /** Whatever the data, equal labelled inputs have the same suite and label and equal data. */
  lemma LabelledInputsUnambiguous<B(!new)>(p: Primitives<B>, u: Purpose, d: seq<B>, v: Purpose, e: seq<B>)
    requires OctetsDistinct(p) && p.Lift(Head(u)) + d == p.Lift(Head(v)) + e
    ensures u == v && d == e
  {
    if u != v {
      var i := HeadsDiverge(u, v);
      OctetAt(p, Head(u), d, i);
      OctetAt(p, Head(v), e, i);
      assert false;
    }
    SplitPrefix(p.Lift(Head(u)), d, p.Lift(Head(v)), e);
  }

  lemma OctetAt<B>(p: Primitives<B>, head: seq<byte>, d: seq<B>, i: nat)
    requires i < |head|
    ensures (p.Lift(head) + d)[i] == p.octet(head[i])
  {
  }

  /** One HMAC call: key and message. */
  datatype Query<B> = Query(key: seq<B>, msg: seq<B>)

  function Ask<B>(p: Primitives<B>, u: Purpose, key: seq<B>, data: seq<B>): Query<B> {
    Query(key, p.Lift(Head(u)) + data)
  }

  /** A one-block expansion appends the block counter to the context it is given. */
  function AskBlock<B>(p: Primitives<B>, u: Purpose, key: seq<B>, info: seq<B>): Query<B> {
    Ask(p, u, key, info + [p.octet(1)])
  }

  function Answer<B>(p: Primitives<B>, q: Query<B>): seq<B> {
    p.hmac(q.key, q.msg)
  }

  lemma OneBlockIsOneCall<B(!new)>(
    p: Primitives<B>, u: Purpose, s: Suite, prk: seq<B>, name: Label, info: seq<B>, len: nat
  )
    requires HashLength(p) && 0 < len <= 32 && Head(u) == BigEndian(len, 2) + LabelPrefix(s, name)
    ensures |Answer(p, AskBlock(p, u, prk, info))| == 32
    ensures LabeledExpand(p, s, prk, name, info, len) == Answer(p, AskBlock(p, u, prk, info))[..len]
  {
    ExpandOneBlock(p, prk, p.Lift(Head(u)) + info, len);
    assert p.Lift(Head(u)) + info + [p.octet(1)] == p.Lift(Head(u)) + (info + [p.octet(1)]);
  }

  /** The seven HMAC calls of a derivation, each under its own purpose. */
  datatype Inputs<B> = Inputs(dhBytes: seq<B>, kemContext: seq<B>, info: seq<B>)

  function EaeQuery<B>(p: Primitives<B>, x: Inputs<B>): Query<B> {
    Ask(p, EaePrk, [], x.dhBytes)
  }

  function SharedSecretQuery<B>(p: Primitives<B>, x: Inputs<B>): Query<B> {
    AskBlock(p, SharedSecret, Answer(p, EaeQuery(p, x)), x.kemContext)
  }

  function InfoQuery<B>(p: Primitives<B>, x: Inputs<B>): Query<B> {
    Ask(p, InfoHash, [], x.info)
  }

  function SecretQuery<B>(p: Primitives<B>, x: Inputs<B>): Query<B> {
    Ask(p, Secret, Answer(p, SharedSecretQuery(p, x)), [])
  }

  function Context<B>(p: Primitives<B>, x: Inputs<B>): seq<B> {
    [p.octet(2)] + Answer(p, Ask(p, PskIdHash, [], [])) + Answer(p, InfoQuery(p, x))
  }

  function KeyQuery<B>(p: Primitives<B>, x: Inputs<B>): Query<B> {
    AskBlock(p, Key, Answer(p, SecretQuery(p, x)), Context(p, x))
  }

  function NonceQuery<B>(p: Primitives<B>, x: Inputs<B>): Query<B> {
    AskBlock(p, BaseNonce, Answer(p, SecretQuery(p, x)), Context(p, x))
  }

  /** The two-stage derivation of the client: shared secret, then key schedule. */
  ghost function Derive<B(!new)>(p: Primitives<B>, x: Inputs<B>): AeadCtx<B>
    requires HashLength(p)
  {
    KeySchedule(p, ExtractAndExpand(p, x.dhBytes, x.kemContext), x.info)
  }

  lemma SharedSecretIsAnswer<B(!new)>(p: Primitives<B>, x: Inputs<B>)
    requires HashLength(p)
    ensures ExtractAndExpand(p, x.dhBytes, x.kemContext) == Answer(p, SharedSecretQuery(p, x))
  {
    var eae := Answer(p, EaeQuery(p, x));
    OneBlockIsOneCall(p, SharedSecret, Kem, eae, SHARED_SECRET, x.kemContext, 32);
    var shared := Answer(p, SharedSecretQuery(p, x));
    assert shared[..32] == shared;
  }

  /** The key is the answer to the last call but one, the nonce twelve bytes of the last. */
  lemma DeriveIsAnswers<B(!new)>(p: Primitives<B>, x: Inputs<B>)
    requires HashLength(p)
    ensures Derive(p, x).key == Answer(p, KeyQuery(p, x))
    ensures Derive(p, x).baseNonce == Answer(p, NonceQuery(p, x))[..12]
  {
    SharedSecretIsAnswer(p, x);
    assert p.Lift([0x02]) == [p.octet(2)];
    var secret := Answer(p, SecretQuery(p, x));
    OneBlockIsOneCall(p, Key, Full, secret, KEY, Context(p, x), 32);
    OneBlockIsOneCall(p, BaseNonce, Full, secret, BASE_NONCE, Context(p, x), 12);
    var key := Answer(p, KeyQuery(p, x));
    assert key[..32] == key;
  }

  /** The whole derivation, from the exchange to key and nonce, as HMACs over written-out octets. */
  lemma DeriveOctets<B(!new)>(p: Primitives<B>, x: Inputs<B>)
    requires HashLength(p)
    ensures var one, two := [p.octet(0x01)], [p.octet(0x02)];
            var eaePrk := p.hmac([], p.Lift(HeadOctets(EaePrk)) + x.dhBytes);
            var shared := p.hmac(eaePrk, p.Lift(HeadOctets(SharedSecret)) + (x.kemContext + one));
            var pskIdHash := p.hmac([], p.Lift(HeadOctets(PskIdHash)) + []);
            var infoHash := p.hmac([], p.Lift(HeadOctets(InfoHash)) + x.info);
            var secret := p.hmac(shared, p.Lift(HeadOctets(Secret)) + []);
            var context := two + pskIdHash + infoHash;
            && Derive(p, x).key == p.hmac(secret, p.Lift(HeadOctets(Key)) + (context + one))
            && Derive(p, x).baseNonce == p.hmac(secret, p.Lift(HeadOctets(BaseNonce)) + (context + one))[..12]
  {
    HeadIsOctets(EaePrk);
    HeadIsOctets(SharedSecret);
    HeadIsOctets(PskIdHash);
    HeadIsOctets(InfoHash);
    HeadIsOctets(Secret);
    HeadIsOctets(Key);
    HeadIsOctets(BaseNonce);
    DeriveIsAnswers(p, x);
  }
}
