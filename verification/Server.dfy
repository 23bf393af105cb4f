/** The message server: users, conversations, messages, revocations and requests in progress, over
    the digest queue of module Anchor. Every query of a request is a step of its own, so requests of
    different users interleave. */
module Server {
  import opened Wrappers
  import opened Uuid
  import Anchor
  import Verification

  type Id = string

  /** The database keeps the participants in ascending byte order. */
  datatype Conv = Conv(a: Uuid, b: Uuid)

  datatype Msg = Msg(
    conv: Id, sender: Uuid, recipient: Uuid,
    ciphertext: string, encapsulatedKey: string, sentAtMs: int,
    sentAt: int, readAt: Option<int>, original: Option<Id>,
    deletedBySender: bool, deletedByRecipient: bool
  )

  /** A send or forward request whose users have been looked up. */
  datatype Draft = Draft(
    sender: Uuid, recipient: Uuid, ciphertext: string, encapsulatedKey: string, sentAtMs: int, original: Option<Id>
  )

  /** Before the conversation SELECT; after it found nothing; with a conversation. */
  datatype Progress = Looking | Missing | Ready(conv: Id)

  datatype Request = Request(draft: Draft, progress: Progress)

  datatype State = State(
    users: map<string, Uuid>,
    convs: map<Id, Conv>,
    messages: map<Id, Msg>,
    revocations: map<Id, Uuid>,
    requests: map<Id, Request>,
    anchor: Anchor.State
  )

  datatype Op =
    | Register(username: string, user: Uuid)
    | Send(req: Id, sender: Uuid, to: string, ciphertext: string, encapsulatedKey: string, sentAtMs: int)
    | Forward(req: Id, user: Uuid, message: Id, to: string, ciphertext: string, encapsulatedKey: string, sentAtMs: int)
    | SelectConv(req: Id)
    | InsertConv(req: Id, conv: Id)
    | Commit(req: Id, message: Id, row: Id, now: int)
    | Abort(req: Id)
    | Delete(user: Uuid, message: Id)
    | Revoke(user: Uuid, message: Id)
    | MarkRead(user: Uuid, conv: Id, now: int)
    | Daemon(op: Anchor.Op)

  datatype Status = Success | Created | Forbidden | Revoked | NotFound | ServerError

  predicate IsUser(s: State, u: Uuid) {
    u in s.users.Values
  }

  predicate IsPair(c: Conv, x: Uuid, y: Uuid) {
    (c.a == x && c.b == y) || (c.a == y && c.b == x)
  }

  predicate HasConv(s: State, x: Uuid, y: Uuid) {
    exists c :: c in s.convs && IsPair(s.convs[c], x, y)
  }

  /** The order the route inserts the participants in. */
  function Participants(sender: Uuid, recipient: Uuid): Conv {
    if TextLess(Text(sender), Text(recipient)) then Conv(sender, recipient) else Conv(recipient, sender)
  }

  /** CHECK (user_a_id < user_b_id) and UNIQUE (user_a_id, user_b_id). */
  predicate Accepts(s: State, c: Conv) {
    BytesLess(c.a, c.b) && forall x :: x in s.convs ==> s.convs[x] != c
  }

  function Without<V>(m: map<Id, V>, key: Id): map<Id, V> {
    map k | k in m && k != key :: m[k]
  }

  function Deleted(m: Msg, user: Uuid): Msg {
    if m.sender == user then m.(deletedBySender := true)
    else if m.recipient == user then m.(deletedByRecipient := true)
    else m
  }

  function Read(m: Msg, user: Uuid, conv: Id, now: int): Msg {
    if m.conv == conv && m.recipient == user && m.readAt.None? then m.(readAt := Some(now)) else m
  }

  /** DELETE /messages/:id */
  function DeleteStatus(s: State, user: Uuid, message: Id): Status {
    if message !in s.messages then NotFound
    else if s.messages[message].sender == user || s.messages[message].recipient == user then Success
    else Forbidden
  }

  /** DELETE /messages/:id/revoke */
  function RevokeStatus(s: State, user: Uuid, message: Id): Status {
    if message !in s.messages then NotFound
    else if s.messages[message].sender != user then Forbidden
    else Success
  }

  /** POST /messages, up to the conversation SELECT. */
  function SendStatus(s: State, to: string): Status {
    if to !in s.users then NotFound else Success
  }

  /** POST /messages/:id/forward, up to the conversation SELECT. */
  function ForwardStatus(s: State, user: Uuid, message: Id, to: string): Status {
    if message !in s.messages then NotFound
    else if s.messages[message].sender != user && s.messages[message].recipient != user then Forbidden
    else SendStatus(s, to)
  }

  /** What the environment must provide: authenticated callers, a request that is waiting for the
      step, and ids the database has not used. */
  predicate Enabled(h: Verification.Hashing, s: State, op: Op) {
    match op
    case Register(username, user) => username !in s.users && !IsUser(s, user)
    case Send(req, sender, _, _, _, _) => req !in s.requests && IsUser(s, sender)
    case Forward(req, user, _, _, _, _, _) => req !in s.requests && IsUser(s, user)
    case SelectConv(req) => req in s.requests && s.requests[req].progress.Looking?
    case InsertConv(req, conv) => req in s.requests && s.requests[req].progress.Missing? && conv !in s.convs
    case Commit(req, message, row, now) =>
      && req in s.requests && s.requests[req].progress.Ready? && message !in s.messages && message != ""
      && Anchor.Enabled(s.anchor, Queue(h, s.requests[req].draft, message, row, now))
    case Abort(req) => req in s.requests
    case Delete(user, _) => IsUser(s, user)
    case Revoke(user, _) => IsUser(s, user)
    case MarkRead(user, _, _) => IsUser(s, user)
    case Daemon(op) => !op.Enqueue? && Anchor.Enabled(s.anchor, op)
  }

  function Queue(h: Verification.Hashing, d: Draft, message: Id, row: Id, now: int): Anchor.Op {
    Anchor.Enqueue(row, message, Verification.DigestOf(h, d.ciphertext), now)
  }

  function Post(d: Draft, conv: Id, now: int): Msg {
    Msg(conv, d.sender, d.recipient, d.ciphertext, d.encapsulatedKey, d.sentAtMs, now, None, d.original, false, false)
  }

  ghost function Apply(h: Verification.Hashing, s: State, op: Op): State
    requires Enabled(h, s, op)
  {
    match op
    case Register(username, user) => s.(users := s.users[username := user])
    case Send(req, sender, to, ciphertext, encapsulatedKey, sentAtMs) =>
      if SendStatus(s, to) != Success then s
      else s.(requests := s.requests[req :=
                Request(Draft(sender, s.users[to], ciphertext, encapsulatedKey, sentAtMs, None), Looking)])
    case Forward(req, user, message, to, ciphertext, encapsulatedKey, sentAtMs) =>
      if ForwardStatus(s, user, message, to) != Success then s
      else s.(requests := s.requests[req :=
                Request(Draft(user, s.users[to], ciphertext, encapsulatedKey, sentAtMs, Some(message)), Looking)])
    case SelectConv(req) =>
      var d := s.requests[req].draft;
      var found := if HasConv(s, d.sender, d.recipient)
                   then (var c :| c in s.convs && IsPair(s.convs[c], d.sender, d.recipient); Ready(c))
                   else Missing;
      s.(requests := s.requests[req := Request(d, found)])
    case InsertConv(req, conv) =>
      var d := s.requests[req].draft;
      var c := Participants(d.sender, d.recipient);
      if Accepts(s, c)
      then s.(convs := s.convs[conv := c], requests := s.requests[req := Request(d, Ready(conv))])
      else s.(requests := Without(s.requests, req))
    case Commit(req, message, row, now) =>
      var d := s.requests[req].draft;
      s.(messages := s.messages[message := Post(d, s.requests[req].progress.conv, now)],
         requests := Without(s.requests, req),
         anchor := Anchor.Apply(h.text, s.anchor, Queue(h, d, message, row, now)))
    case Abort(req) => s.(requests := Without(s.requests, req))
    case Delete(user, message) =>
      if DeleteStatus(s, user, message) != Success then s
      else s.(messages := s.messages[message := Deleted(s.messages[message], user)])
    case Revoke(user, message) =>
      if RevokeStatus(s, user, message) != Success || message in s.revocations then s
      else s.(revocations := s.revocations[message := user])
    case MarkRead(user, conv, now) =>
      if conv !in s.convs || (s.convs[conv].a != user && s.convs[conv].b != user) then s
      else s.(messages := map m | m in s.messages :: Read(s.messages[m], user, conv, now))
    case Daemon(op) => s.(anchor := Anchor.Apply(h.text, s.anchor, op))
  }

  predicate Init(s: State) {
    s.users == map[] && s.convs == map[] && s.messages == map[] && s.revocations == map[] && s.requests == map[]
    && Anchor.Init(s.anchor)
  }
}
