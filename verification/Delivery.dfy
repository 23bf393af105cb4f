/** The encryption, the server and the client's store together: what was sealed arrives and can be
    read, and what is stored was sealed as it says. */
module Delivery {
  import opened Octets
  import opened Wrappers
  import opened Primitives
  import opened Hpke
  import opened Binding
  import Domain
  import opened Store
  import opened Sync
  import opened Aad
  import opened Inbox
  import Replica
  import Posting
  import Base64
  import Server
  import ServerInvariant
  import Uuid
  import Verification
  import Views

  const INFO: Label := "eternal-blue-msg-v1"

  lemma InfoOctets()
    ensures Bytes(INFO) == [0x65, 0x74, 0x65, 0x72, 0x6e, 0x61, 0x6c, 0x2d, 0x62, 0x6c, 0x75, 0x65, 0x2d,
                            0x6d, 0x73, 0x67, 0x2d, 0x76, 0x31]
  {
  }

  /** Ids that fit into the associated data. */
  predicate IdsAreBytes(m: Message) {
    IsByteString(m.senderId) && IsByteString(m.recipientId)
  }

  /** How the client of the recipient opens a message. */
  ghost function OpenText(p: Primitives<byte>, skR: seq<byte>, key: seq<byte>, m: Message): Option<string>
    requires HashLength(p) && IdsAreBytes(m)
  {
    match OpenAuth(p, m.encKey, skR, key, Bytes(INFO), AadOf(m.senderId, m.recipientId, m.sentAtMs), m.ciphertext)
    case Err(_) => None
    case Ok(plaintext) => Some(TextOf(plaintext))
  }

  ghost predicate OpensWith(env: Env, p: Primitives<byte>, skR: seq<byte>)
    requires HashLength(p)
  {
    forall key, m :: IdsAreBytes(m) ==> env.open(key, m) == OpenText(p, skR, key, m)
  }

  /** What a client posts for a text. */
  ghost function Sealing(
    p: Primitives<byte>, pkR: seq<byte>, skS: seq<byte>, skE: seq<byte>, s: string, r: string, t: int, text: string
  ): Result<Sealed<byte>, CryptoError>
    requires HashLength(p) && IsByteString(s) && IsByteString(r) && IsByteString(text)
  {
    SealAuth(p, pkR, skS, Bytes(INFO), AadOf(s, r, t), Bytes(text), skE)
  }

  /** The recipient's client reads in the message what the sender's client sealed. */
  lemma SealedIsReadable(p: Primitives<byte>, skR: seq<byte>, skS: seq<byte>, skE: seq<byte>, m: Message, text: string)
    requires HashLength(p) && DhCommutes(p) && AeadOpens(p) && IdsAreBytes(m) && IsByteString(text)
    requires Sealing(p, p.pub(skR), skS, skE, m.senderId, m.recipientId, m.sentAtMs, text)
             == Ok(Sealed(m.encKey, m.ciphertext))
    ensures OpenText(p, skR, p.pub(skS), m) == Some(text) && m.encKey == p.pub(skE)
  {
    OpenUndoesSeal(p, skR, skS, skE, Bytes(INFO), AadOf(m.senderId, m.recipientId, m.sentAtMs), Bytes(text));
    BytesInjective(TextOf(Bytes(text)), text);
  }

  // ---- delivery ----

  /** An inbox entry of a trusted sender that opens becomes a visible row with its text. */
  lemma OpenedIsStored(env: Env, s: Tables, items: seq<Option<Message>>, i: nat)
    requires RouteCoherent(env) && i < |items| && items[i].Some? && items[i].value.id !in s.rows
    requires forall j :: 0 <= j < |items| && items[j].Some? && items[j].value.id == items[i].value.id ==> j == i
    requires OpensAtStart(env, s, items[i].value)
    ensures var m := items[i].value; var t := PullAll(env, s, items).store;
            var text := env.open(env.fetch(m.senderName).value.key, m).value;
            m.id in t.rows && t.rows[m.id] == Row(m.(plaintext := text, verified := true, revoked := false), false)
  {
    var m := items[i].value;
    var t := PullAll(env, s, items).store;
    PullEffect(env, s, items);
    PullPinsFrom(env, s, items);
    AcceptedFromStart(env, s, t, m);
    assert OffersAt(env, t, items, m.id, i);
    assert Offers(env, t, items, m.id);
    assert MadeFrom(env, t, items, m.id, t.rows[m.id]);
  }

  ghost function NameOf(s: Server.State, u: Uuid.Uuid): (name: string)
    requires Server.IsUser(s, u)
    ensures name in s.users && s.users[name] == u
  {
    var name :| name in s.users && s.users[name] == u;
    name
  }

  /** `from_json` on the route's row; `decode` is the client's base64url decoder. */
  ghost function Parsed(decode: string -> Option<seq<byte>>, s: Server.State, id: string): Option<Message>
    requires id in s.messages && Views.Joined(s, s.messages[id])
  {
    var m := s.messages[id];
    match (decode(m.encapsulatedKey), decode(m.ciphertext))
    case (Some(enc), Some(ciphertext)) =>
      Some(Message(id, Uuid.Text(m.sender), NameOf(s, m.sender), Uuid.Text(m.recipient), NameOf(s, m.recipient),
                   enc, ciphertext, m.sentAtMs,
                   m.original.Some?, if m.original.Some? then m.original.value else "", "", false, false))
    case _ => None
  }

  /** What the client makes of an inbox answer. */
  ghost predicate IsReading(
    decode: string -> Option<seq<byte>>, s: Server.State, ids: seq<string>, items: seq<Option<Message>>
  ) {
    && |items| == |ids|
    && forall i :: 0 <= i < |ids| ==>
         ids[i] in s.messages && Views.Joined(s, s.messages[ids[i]]) && items[i] == Parsed(decode, s, ids[i])
  }

  /** What the sender's client sealed for the message, with the ids and the time the server has. */
  ghost predicate PostedAs(
    p: Primitives<byte>, msg: Server.Msg, pkR: seq<byte>, skS: seq<byte>, skE: seq<byte>, text: string
  )
    requires HashLength(p) && IsByteString(text)
  {
    UuidIsByteString(msg.sender);
    UuidIsByteString(msg.recipient);
    var sealed := Sealing(p, pkR, skS, skE, Uuid.Text(msg.sender), Uuid.Text(msg.recipient), msg.sentAtMs, text);
    && sealed.Ok?
    && msg.encapsulatedKey == Base64.ToB64u(sealed.value.enc)
    && msg.ciphertext == Base64.ToB64u(sealed.value.ciphertext)
  }

  lemma PostedIsReadable(
    p: Primitives<byte>, decode: string -> Option<seq<byte>>, s: Server.State, id: string,
    skR: seq<byte>, skS: seq<byte>, skE: seq<byte>, text: string
  )
    requires HashLength(p) && KeyLength(p) && DhCommutes(p) && AeadOpens(p) && IsByteString(text)
    requires forall b: seq<byte> :: decode(Base64.ToB64u(b)) == Some(b)
    requires id in s.messages && Views.Joined(s, s.messages[id])
    requires PostedAs(p, s.messages[id], p.pub(skR), skS, skE, text)
    ensures var m := Parsed(decode, s, id);
            && m.Some? && m.value.id == id && IdsAreBytes(m.value) && |m.value.encKey| == KEY_BYTES
            && m.value.senderName == NameOf(s, s.messages[id].sender)
            && OpenText(p, skR, p.pub(skS), m.value) == Some(text)
  {
    UuidIsByteString(s.messages[id].sender);
    UuidIsByteString(s.messages[id].recipient);
    SealedIsReadable(p, skR, skS, skE, Parsed(decode, s, id).value, text);
  }

  /** The one entry of a message that every answer lists. */
  lemma EntryOf(
    decode: string -> Option<seq<byte>>, s: Server.State, me: Uuid.Uuid, id: string,
    ids: seq<string>, items: seq<Option<Message>>
  ) returns (i: nat)
    requires id in s.messages && id in Views.Listed(s, me, Views.Inbox) && |NoOlder(s, me, id)| < 50
    requires IsInboxAnswer(s, me, ids) && IsReading(decode, s, ids, items)
    ensures i < |items| && Views.Joined(s, s.messages[id]) && items[i] == Parsed(decode, s, id)
    ensures forall j :: 0 <= j < |items| && items[j].Some? && items[j].value.id == id ==> j == i
  {
    AnsweredForSureIff(s, me, id);
    i :| 0 <= i < |ids| && ids[i] == id;
    forall j | 0 <= j < |items| && items[j].Some? && items[j].value.id == id ensures j == i {
      assert ids[j] == id;
    }
  }

  /** End to end: a message that was posted as the sealing of a text, after any further run of the
      server that leaves it in the recipient's inbox with fewer than fifty others as new, is read by
      the recipient's sync as exactly that text, whatever inbox the server may answer with. */
  lemma MessageArrives(
    h: Verification.Hashing, p: Primitives<byte>, decode: string -> Option<seq<byte>>,
    posted: Server.State, ops: seq<Server.Op>, s: Server.State, id: string, me: Uuid.Uuid,
    skR: seq<byte>, skS: seq<byte>, skE: seq<byte>, text: string,
    env: Env, store: Tables, ids: seq<string>, items: seq<Option<Message>>, list: seq<Option<string>>
  )
    requires HashLength(p) && KeyLength(p) && DhCommutes(p) && AeadOpens(p) && IsByteString(text)
    requires forall b: seq<byte> :: decode(Base64.ToB64u(b)) == Some(b)
    requires id in posted.messages && PostedAs(p, posted.messages[id], p.pub(skR), skS, skE, text)
    requires ServerInvariant.Run(h, posted, ops, s)
    requires id in s.messages && id in Views.Listed(s, me, Views.Inbox) && |NoOlder(s, me, id)| < 50
    requires IsInboxAnswer(s, me, ids) && IsReading(decode, s, ids, items) && Replica.IsRevokedAnswer(s, me, list)
    requires OpensWith(env, p, skR) && RouteCoherent(env) && id !in store.rows
    requires var name := NameOf(s, s.messages[id].sender);
             && env.fetch(name).Some? && env.fetch(name).value.key == p.pub(skS)
             && (name in store.pins ==> store.pins[name].key == p.pub(skS))
    ensures var t := Replica.Synced(env, store, items, list);
            && id in t.rows && !t.rows[id].deleted
            && t.rows[id].msg.plaintext == text && t.rows[id].msg.verified && !t.rows[id].msg.revoked
            && t.rows[id].msg.senderName == NameOf(s, s.messages[id].sender)
            && t.rows[id].msg.recipientName == NameOf(s, s.messages[id].recipient)
            && t.rows[id].msg.sentAtMs == s.messages[id].sentAtMs
  {
    ServerInvariant.RunKeepsMessages(h, posted, ops, s);
    assert ServerInvariant.SameButFlags(posted.messages[id], s.messages[id]);
    PostedIsReadable(p, decode, s, id, skR, skS, skE, text);
    var i := EntryOf(decode, s, me, id, ids, items);
    EntryIsSynced(env, store, items, i, s, me, list);
  }

  lemma EntryIsSynced(
    env: Env, store: Tables, items: seq<Option<Message>>, i: nat,
    s: Server.State, me: Uuid.Uuid, list: seq<Option<string>>
  )
    requires RouteCoherent(env) && i < |items| && items[i].Some? && items[i].value.id !in store.rows
    requires forall j :: 0 <= j < |items| && items[j].Some? && items[j].value.id == items[i].value.id ==> j == i
    requires OpensAtStart(env, store, items[i].value)
    requires Replica.IsRevokedAnswer(s, me, list) && items[i].value.id !in s.revocations
    ensures var m := items[i].value; var t := Replica.Synced(env, store, items, list);
            var text := env.open(env.fetch(m.senderName).value.key, m).value;
            m.id in t.rows && t.rows[m.id] == Row(m.(plaintext := text, verified := true, revoked := false), false)
  {
    OpenedIsStored(env, store, items, i);
    UnrevokedStays(s, me, list, PullAll(env, store, items).store, items[i].value.id);
  }

  lemma UnrevokedStays(s: Server.State, me: Uuid.Uuid, list: seq<Option<string>>, pulled: Tables, id: string)
    requires Replica.IsRevokedAnswer(s, me, list) && id !in s.revocations && id in pulled.rows
    ensures id in RevokeAll(pulled, list).rows && RevokeAll(pulled, list).rows[id] == pulled.rows[id]
  {
    assert id in Views.RevokedFor(s, me) <==> ListedIn(list, id);
    RevokeEffect(pulled, list);
  }

  /** What was sent as the sealing of a text is stored by the server as just that, in the recipient's
      inbox. */
  lemma SentIsPosted(
    h: Verification.Hashing, p: Primitives<byte>, s: Server.State, op: Server.Op, ops: seq<Server.Op>,
    u: Server.State, t: Server.State, id: string, row: string, now: int,
    pkR: seq<byte>, skS: seq<byte>, skE: seq<byte>, text: string
  )
    requires HashLength(p) && IsByteString(text)
    requires ServerInvariant.TablesSound(s) && Posting.Posts(h, s, op, ops, u)
    requires Posting.Commits(h, u, op.req, id, row, now, t)
    requires IsSealingOf(p, pkR, skS, skE, Posting.Actor(op), s.users[op.to], op, text)
    ensures id in t.messages && PostedAs(p, t.messages[id], pkR, skS, skE, text)
    ensures id in Views.Listed(t, s.users[op.to], Views.Inbox)
  {
    var to := s.users[op.to];
    Posting.PostIsDelivered(h, s, op, ops, u, t, id, row, now, to, Views.Inbox, "");
  }

  ghost predicate IsSealingOf(
    p: Primitives<byte>, pkR: seq<byte>, skS: seq<byte>, skE: seq<byte>,
    sender: Uuid.Uuid, recipient: Uuid.Uuid, op: Server.Op, text: string
  )
    requires HashLength(p) && IsByteString(text) && (op.Send? || op.Forward?)
  {
    UuidIsByteString(sender);
    UuidIsByteString(recipient);
    var sealed := Sealing(p, pkR, skS, skE, Uuid.Text(sender), Uuid.Text(recipient), op.sentAtMs, text);
    && sealed.Ok?
    && op.encapsulatedKey == Base64.ToB64u(sealed.value.enc) && op.ciphertext == Base64.ToB64u(sealed.value.ciphertext)
  }

  /** The whole way: a text is sealed and sent, other requests interleave, the message is committed, the
      recipient syncs, and has the text, under the sender's name. */
  lemma SentIsRead(
    h: Verification.Hashing, p: Primitives<byte>, decode: string -> Option<seq<byte>>,
    s: Server.State, op: Server.Op, ops: seq<Server.Op>, u: Server.State, t: Server.State,
    id: string, row: string, now: int, skR: seq<byte>, skS: seq<byte>, skE: seq<byte>, text: string,
    env: Env, store: Tables, ids: seq<string>, items: seq<Option<Message>>, list: seq<Option<string>>
  )
    requires HashLength(p) && KeyLength(p) && DhCommutes(p) && AeadOpens(p) && IsByteString(text)
    requires forall b: seq<byte> :: decode(Base64.ToB64u(b)) == Some(b)
    requires ServerInvariant.TablesSound(s) && Posting.Posts(h, s, op, ops, u)
    requires Posting.Commits(h, u, op.req, id, row, now, t)
    requires IsSealingOf(p, p.pub(skR), skS, skE, Posting.Actor(op), s.users[op.to], op, text)
    requires id in t.messages && |NoOlder(t, s.users[op.to], id)| < 50 && id !in store.rows
    requires IsInboxAnswer(t, s.users[op.to], ids) && IsReading(decode, t, ids, items)
    requires Replica.IsRevokedAnswer(t, s.users[op.to], list)
    requires OpensWith(env, p, skR) && RouteCoherent(env)
    requires Server.IsUser(t, Posting.Actor(op)) ==> KnowsSender(p, env, store, NameOf(t, Posting.Actor(op)), skS)
    ensures Server.IsUser(t, Posting.Actor(op))
    ensures var z := Replica.Synced(env, store, items, list);
            && id in z.rows && !z.rows[id].deleted && !z.rows[id].msg.revoked
            && z.rows[id].msg.plaintext == text && z.rows[id].msg.verified
            && z.rows[id].msg.senderName == NameOf(t, Posting.Actor(op))
  {
    SentIsPosted(h, p, s, op, ops, u, t, id, row, now, p.pub(skR), skS, skE, text);
    SenderOfCommitted(h, s, op, ops, u, t, id, row, now);
    assert ServerInvariant.Run(h, t, [], t);
    MessageArrives(h, p, decode, t, [], t, id, s.users[op.to], skR, skS, skE, text, env, store, ids, items, list);
  }

  /** The key route and the pins agree that this name has this key. */
  ghost predicate KnowsSender(p: Primitives<byte>, env: Env, store: Tables, name: string, skS: seq<byte>) {
    && env.fetch(name).Some? && env.fetch(name).value.key == p.pub(skS)
    && (name in store.pins ==> store.pins[name].key == p.pub(skS))
  }

  lemma SenderOfCommitted(
    h: Verification.Hashing, s: Server.State, op: Server.Op, ops: seq<Server.Op>,
    u: Server.State, t: Server.State, id: string, row: string, now: int
  )
    requires ServerInvariant.TablesSound(s) && Posting.Posts(h, s, op, ops, u)
    requires Posting.Commits(h, u, op.req, id, row, now, t)
    ensures id in t.messages && t.messages[id].sender == Posting.Actor(op) && Server.IsUser(t, Posting.Actor(op))
  {
    Posting.PostIsDelivered(h, s, op, ops, u, t, id, row, now, s.users[op.to], Views.Inbox, "");
    Views.MessageFacts(t, id);
  }

  // ---- attribution ----

  /** Whatever a server delivers: a row that a sync stores with a ciphertext that was once sealed
      carries the sender id, recipient id and time of that sealing, was opened under the sealing
      sender's key, and shows the text that was sealed; or a hash collided, or the AEAD accepted a
      foreign context. Of ciphertexts that nobody is known to have sealed it says nothing. */
  lemma StoredIsAttributed(
    p: Primitives<byte>, env: Env, store: Tables, items: seq<Option<Message>>, id: string,
    pkR: seq<byte>, skS: seq<byte>, skE: seq<byte>, s: string, r: string, time: int, text: string, skR: seq<byte>
  )
    requires HashLength(p) && KeyLength(p) && AeadOpens(p) && OpensWith(env, p, skR) && |pkR| == 32
    requires forall name :: env.fetch(name).Some? ==> |env.fetch(name).value.key| == 32
    requires IsByteString(s) && IsByteString(r) && '|' !in s && '|' !in r && IsByteString(text)
    requires var t := PullAll(env, store, items).store;
             id in t.rows && id !in store.rows && IdsAreBytes(t.rows[id].msg)
    requires var sealed := Sealing(p, pkR, skS, skE, s, r, time, text);
             sealed.Ok? && PullAll(env, store, items).store.rows[id].msg.ciphertext == sealed.value.ciphertext
    ensures var m := PullAll(env, store, items).store.rows[id].msg;
            && env.fetch(m.senderName).Some?
            && var key := env.fetch(m.senderName).value.key;
            && p.dh(skR, m.encKey).Some? && p.dh(skR, key).Some?
            && var made := SealInputs(p, pkR, skS, skE, Bytes(INFO));
               var used := OpenInputs(p, m.encKey, skR, key, Bytes(INFO));
               || (&& m.senderId == s && m.recipientId == r && m.sentAtMs == time
                   && key == p.pub(skS) && p.pub(skR) == pkR && m.plaintext == text)
               || HashCollision(p, made, used)
               || AeadConfusion(p, Domain.Derive(p, made), AadOf(s, r, time),
                                Domain.Derive(p, used), AadOf(m.senderId, m.recipientId, m.sentAtMs), m.ciphertext)
  {
    var t := PullAll(env, store, items).store;
    var m := t.rows[id].msg;
    var item := SourceOf(env, store, items, id);
    var key := env.fetch(m.senderName).value.key;
    assert env.open(key, item) == OpenText(p, skR, key, item);
    OpenBindsSeal(p, pkR, skS, Bytes(INFO), AadOf(s, r, time), Bytes(text), skE,
                  m.encKey, skR, key, Bytes(INFO), AadOf(m.senderId, m.recipientId, m.sentAtMs));
    if AadOf(s, r, time) == AadOf(m.senderId, m.recipientId, m.sentAtMs) {
      AadOfInjective(s, r, time, m.senderId, m.recipientId, m.sentAtMs);
    }
    BytesInjective(TextOf(Bytes(text)), text);
  }

  /** The id of a message is not part of what is sealed: an entry delivered a second time under another
      id opens just as well, and both are stored with the same text. */
  lemma ReplayStoresTwice(
    p: Primitives<byte>, skR: seq<byte>, env: Env, store: Tables, m: Message, other: string
  )
    requires HashLength(p) && OpensWith(env, p, skR) && RouteCoherent(env)
    requires IdsAreBytes(m) && OpensAtStart(env, store, m)
    requires m.id !in store.rows && other !in store.rows && other != m.id
    ensures var t := PullAll(env, store, [Some(m), Some(m.(id := other))]).store;
            && m.id in t.rows && other in t.rows
            && !t.rows[m.id].deleted && !t.rows[other].deleted
            && t.rows[other].msg == t.rows[m.id].msg.(id := other)
  {
    var n := m.(id := other);
    var items := [Some(m), Some(n)];
    var key := env.fetch(m.senderName).value.key;
    assert OpenText(p, skR, key, n) == OpenText(p, skR, key, m);
    assert env.open(key, n) == env.open(key, m);
    OpenedIsStored(env, store, items, 0);
    OpenedIsStored(env, store, items, 1);
  }

  /** The inbox entry a stored row was made from. */
  lemma SourceOf(env: Env, s: Tables, items: seq<Option<Message>>, id: string) returns (m: Message)
    requires id in PullAll(env, s, items).store.rows && id !in s.rows
    ensures var row := PullAll(env, s, items).store.rows[id];
            && env.fetch(m.senderName).Some? && |m.encKey| == KEY_BYTES
            && env.open(env.fetch(m.senderName).value.key, m).Some?
            && row.msg == m.(plaintext := row.msg.plaintext, verified := true, revoked := false)
            && env.open(env.fetch(m.senderName).value.key, m) == Some(row.msg.plaintext)
  {
    var t := PullAll(env, s, items).store;
    PullEffect(env, s, items);
    assert MadeFrom(env, t, items, id, t.rows[id]);
    var i :| OffersAt(env, t, items, id, i) &&
      (var m := items[i].value;
       t.rows[id] == Row(Opened(m, env.open(env.fetch(m.senderName).value.key, m).value).(revoked := false), false));
    m := items[i].value;
  }
}
