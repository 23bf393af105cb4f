/** What a send or a forward comes to: from the request, over the conversation queries, to the message in
    both parties' lists. */
module Posting {
  import opened Wrappers
  import opened Uuid
  import opened Server
  import opened ServerInvariant
  import opened Views
  import Anchor
  import Verification

  // ---- the request ----

  function Actor(op: Op): Uuid
    requires op.Send? || op.Forward?
  {
    if op.Send? then op.sender else op.user
  }

  function Original(op: Op): Option<Id>
    requires op.Send? || op.Forward?
  {
    if op.Send? then None else Some(op.message)
  }

  /** The recipient is known, and who forwards is a party to the message. */
  predicate Admitted(s: State, op: Op)
    requires op.Send? || op.Forward?
  {
    op.to in s.users && (op.Forward? ==> PartyOf(s, op.user, op.message))
  }

  /** A send or forward that is admitted leaves a request with exactly what it was given; any other
      leaves nothing. */
  lemma StartEffect(h: Verification.Hashing, s: State, op: Op)
    requires Enabled(h, s, op) && (op.Send? || op.Forward?)
    ensures var t := Apply(h, s, op);
            if Admitted(s, op) then
              && t == s.(requests := t.requests) && t.requests.Keys == s.requests.Keys + {op.req}
              && (forall r :: r in s.requests ==> t.requests[r] == s.requests[r])
              && t.requests[op.req].progress == Looking
              && IsDraftOf(t.requests[op.req].draft, s, op)
            else t == s
  {
  }

  predicate IsDraftOf(d: Draft, s: State, op: Op)
    requires (op.Send? || op.Forward?) && op.to in s.users
  {
    && d.sender == Actor(op) && d.recipient == s.users[op.to]
    && d.ciphertext == op.ciphertext && d.encapsulatedKey == op.encapsulatedKey
    && d.sentAtMs == op.sentAtMs && d.original == Original(op)
  }

  /** Who is refused, and how: an unknown recipient or message is not found, somebody else's message is
      forbidden. */
  lemma RefusedHow(s: State, user: Uuid, message: Id, to: string)
    ensures SendStatus(s, to) == (if to in s.users then Success else NotFound)
    ensures ForwardStatus(s, user, message, to) == Forbidden <==> message in s.messages && !PartyOf(s, user, message)
    ensures ForwardStatus(s, user, message, to) == NotFound <==>
            message !in s.messages || (PartyOf(s, user, message) && to !in s.users)
    ensures ForwardStatus(s, user, message, to) == Success <==> PartyOf(s, user, message) && to in s.users
  {
  }

  /** Signing up adds that user under that name; giving up on a request drops it; nothing else changes. */
  lemma RegisterAndAbort(h: Verification.Hashing, s: State, op: Op)
    requires Enabled(h, s, op) && (op.Register? || op.Abort?)
    ensures var t := Apply(h, s, op);
            if op.Register? then
              && t == s.(users := t.users) && t.users.Keys == s.users.Keys + {op.username}
              && t.users[op.username] == op.user && forall n :: n in s.users ==> t.users[n] == s.users[n]
            else
              && t == s.(requests := t.requests) && t.requests.Keys == s.requests.Keys - {op.req}
              && forall r :: r in t.requests ==> t.requests[r] == s.requests[r]
  {
  }

  predicate Restarts(op: Op, req: Id) {
    (op.Send? || op.Forward?) && op.req == req
  }

  /** Nobody changes what a request is about. */
  lemma {:induction false} DraftStays(h: Verification.Hashing, s: State, ops: seq<Op>, t: State, req: Id)
    requires Run(h, s, ops, t) && req in t.requests
    requires forall i :: 0 <= i < |ops| ==> !Restarts(ops[i], req)
    ensures req in s.requests && t.requests[req].draft == s.requests[req].draft
    decreases |ops|
  {
    if ops != [] {
      assert forall i :: 0 <= i < |ops[1..]| ==> ops[1..][i] == ops[i + 1];
      DraftStays(h, Apply(h, s, ops[0]), ops[1..], t, req);
      RequestsAfter(h, s, ops[0], req);
    }
  }

  // ---- the conversation ----

  /** The SELECT finds the pair's conversation if there is one. */
  lemma SelectEffect(h: Verification.Hashing, s: State, req: Id)
    requires Enabled(h, s, SelectConv(req))
    ensures var t := Apply(h, s, SelectConv(req)); var d := s.requests[req].draft;
            && t == s.(requests := t.requests) && req in t.requests && t.requests[req].draft == d
            && (if HasConv(s, d.sender, d.recipient)
                then t.requests[req].progress.Ready? && InConv(s, t.requests[req].progress.conv, d.sender, d.recipient)
                else t.requests[req].progress.Missing?)
  {
  }

  /** The INSERT makes the pair's conversation and readies the request, if the two are different users
      and have none yet. */
  lemma InsertMakes(h: Verification.Hashing, s: State, req: Id, conv: Id)
    requires TablesSound(s) && Enabled(h, s, InsertConv(req, conv))
    requires s.requests[req].draft.sender != s.requests[req].draft.recipient
    requires !HasConv(s, s.requests[req].draft.sender, s.requests[req].draft.recipient)
    ensures var t := Apply(h, s, InsertConv(req, conv)); var d := s.requests[req].draft;
            && t.convs.Keys == s.convs.Keys + {conv} && (forall c :: c in s.convs ==> t.convs[c] == s.convs[c])
            && InConv(t, conv, d.sender, d.recipient)
            && t.requests == s.requests[req := Request(d, Ready(conv))]
  {
    var d := s.requests[req].draft;
    AcceptsIff(s, d.sender, d.recipient);
    ParticipantsMeetCheck(d.sender, d.recipient);
    InsertAccepted(h, s, req, conv);
  }

  /** Otherwise the request fails, and the conversations stay as they are. */
  lemma InsertFails(h: Verification.Hashing, s: State, req: Id, conv: Id)
    requires TablesSound(s) && Enabled(h, s, InsertConv(req, conv))
    requires s.requests[req].draft.sender == s.requests[req].draft.recipient
             || HasConv(s, s.requests[req].draft.sender, s.requests[req].draft.recipient)
    ensures Apply(h, s, InsertConv(req, conv)) == s.(requests := Without(s.requests, req))
  {
    AcceptsIff(s, s.requests[req].draft.sender, s.requests[req].draft.recipient);
    InsertRefused(h, s, req, conv);
  }

  lemma AcceptsIff(s: State, x: Uuid, y: Uuid)
    requires TablesSound(s)
    ensures Accepts(s, Participants(x, y)) <==> x != y && !HasConv(s, x, y)
  {
    ParticipantsMeetCheck(x, y);
    if c :| c in s.convs && IsPair(s.convs[c], x, y) {
      PairHasOneOrder(s.convs[c], x, y);
    }
  }

  lemma InsertAccepted(h: Verification.Hashing, s: State, req: Id, conv: Id)
    requires Enabled(h, s, InsertConv(req, conv))
    requires Accepts(s, Participants(s.requests[req].draft.sender, s.requests[req].draft.recipient))
    ensures var t := Apply(h, s, InsertConv(req, conv)); var d := s.requests[req].draft;
            && t.convs == s.convs[conv := Participants(d.sender, d.recipient)]
            && t.requests == s.requests[req := Request(d, Ready(conv))]
  {
  }

  lemma InsertRefused(h: Verification.Hashing, s: State, req: Id, conv: Id)
    requires Enabled(h, s, InsertConv(req, conv))
    requires !Accepts(s, Participants(s.requests[req].draft.sender, s.requests[req].draft.recipient))
    ensures Apply(h, s, InsertConv(req, conv)) == s.(requests := Without(s.requests, req))
  {
  }

  // ---- the message ----

  /** A new message: just as it was sent, unread and deleted by nobody. */
  predicate IsFresh(m: Msg, d: Draft, now: int) {
    && m.sender == d.sender && m.recipient == d.recipient
    && m.ciphertext == d.ciphertext && m.encapsulatedKey == d.encapsulatedKey && m.sentAtMs == d.sentAtMs
    && m.original == d.original && m.sentAt == now
    && m.readAt.None? && !m.deletedBySender && !m.deletedByRecipient
  }

  /** One message more, and one digest row. */
  ghost predicate Adds(h: Verification.Hashing, s: State, t: State, d: Draft, message: Id, row: Id, now: int) {
    && t.users == s.users && t.convs == s.convs && t.revocations == s.revocations
    && message !in s.messages && t.messages.Keys == s.messages.Keys + {message}
    && (forall m :: m in s.messages ==> t.messages[m] == s.messages[m])
    && IsFresh(t.messages[message], d, now) && InConv(t, t.messages[message].conv, d.sender, d.recipient)
    && row !in s.anchor.queue
    && t.anchor.queue == s.anchor.queue[row := Anchor.Row(message, Verification.DigestOf(h, d.ciphertext), now, None)]
  }

  lemma CommitEffect(h: Verification.Hashing, s: State, req: Id, message: Id, row: Id, now: int)
    requires TablesSound(s) && Enabled(h, s, Commit(req, message, row, now))
    ensures var t := Apply(h, s, Commit(req, message, row, now));
            Adds(h, s, t, s.requests[req].draft, message, row, now) && req !in t.requests
  {
    var r := s.requests[req];
    assert InConv(s, r.progress.conv, r.draft.sender, r.draft.recipient);
    CommitFrame(h, s, req, message, row, now);
    PostAdds(h, s, Apply(h, s, Commit(req, message, row, now)), r, message, row, now);
  }

  lemma PostAdds(
    h: Verification.Hashing, s: State, t: State, r: Request, message: Id, row: Id, now: int
  )
    requires r.progress.Ready? && InConv(s, r.progress.conv, r.draft.sender, r.draft.recipient)
    requires t.users == s.users && t.convs == s.convs && t.revocations == s.revocations
    requires message !in s.messages && row !in s.anchor.queue
    requires t.messages == s.messages[message := Post(r.draft, r.progress.conv, now)]
    requires t.anchor.queue ==
             s.anchor.queue[row := Anchor.Row(message, Verification.DigestOf(h, r.draft.ciphertext), now, None)]
    ensures Adds(h, s, t, r.draft, message, row, now)
  {
  }

  lemma CommitFrame(h: Verification.Hashing, s: State, req: Id, message: Id, row: Id, now: int)
    requires Enabled(h, s, Commit(req, message, row, now))
    ensures var t := Apply(h, s, Commit(req, message, row, now)); var r := s.requests[req];
            && t.users == s.users && t.convs == s.convs && t.revocations == s.revocations
            && t.messages == s.messages[message := Post(r.draft, r.progress.conv, now)]
            && row !in s.anchor.queue && req !in t.requests
            && t.anchor.queue ==
               s.anchor.queue[row := Anchor.Row(message, Verification.DigestOf(h, r.draft.ciphertext), now, None)]
  {
  }

  /** Whose lists a message belongs in. */
  predicate Belongs(d: Draft, user: Uuid, box: Box) {
    (user == d.recipient && !box.Outbox?) || (user == d.sender && !box.Inbox?)
  }

  lemma ShownAfter(
    h: Verification.Hashing, s: State, t: State, d: Draft, message: Id, row: Id, now: int, user: Uuid, box: Box
  )
    requires TablesSound(s) && Adds(h, s, t, d, message, row, now) && IsUser(s, d.sender) && IsUser(s, d.recipient)
    ensures Listed(t, user, box) == Listed(s, user, box) + (if Belongs(d, user, box) then {message} else {})
  {
    forall m ensures m in Listed(t, user, box) <==>
                     m in Listed(s, user, box) || (m == message && Belongs(d, user, box)) {
      if m == message {
        NewShown(h, s, t, d, message, row, now, user, box);
      } else {
        OldShown(h, s, t, d, message, row, now, user, box, m);
      }
    }
  }

  lemma NewShown(
    h: Verification.Hashing, s: State, t: State, d: Draft, message: Id, row: Id, now: int, user: Uuid, box: Box
  )
    requires RevocationsSound(s) && Adds(h, s, t, d, message, row, now) && IsUser(s, d.sender) && IsUser(s, d.recipient)
    ensures message !in Listed(s, user, box) && (message in Listed(t, user, box) <==> Belongs(d, user, box))
  {
    assert message !in t.revocations;
    assert message in t.messages && Joined(t, t.messages[message]);
  }

  lemma OldShown(
    h: Verification.Hashing, s: State, t: State, d: Draft, message: Id, row: Id, now: int, user: Uuid, box: Box, m: Id
  )
    requires Adds(h, s, t, d, message, row, now) && m != message
    ensures m in Listed(t, user, box) <==> m in Listed(s, user, box)
  {
    assert m in t.messages <==> m in s.messages;
  }

  lemma UnreadAfter(
    h: Verification.Hashing, s: State, t: State, d: Draft, message: Id, row: Id, now: int, user: Uuid, c: Id
  )
    requires Adds(h, s, t, d, message, row, now)
    ensures Unread(t, user, c) ==
            Unread(s, user, c) + (if user == d.recipient && c == t.messages[message].conv then {message} else {})
  {
  }

  /** What the message changes in the lists and the unread count of any user. */
  ghost predicate ShownTo(s: State, t: State, d: Draft, message: Id, user: Uuid, box: Box, c: Id) {
    && message in t.messages
    && Listed(t, user, box) == Listed(s, user, box) + (if Belongs(d, user, box) then {message} else {})
    && Unread(t, user, c) == Unread(s, user, c) +
         (if user == d.recipient && c == t.messages[message].conv then {message} else {})
  }

  /** What a send or forward comes to, whatever the others did between its queries: one message more,
      as it was sent; in the recipient's inbox and the sender's outbox and in nobody else's lists; unread
      for the recipient; and everything else as it was just before. */
  lemma PostIsDelivered(
    h: Verification.Hashing, s: State, op: Op, ops: seq<Op>, u: State, t: State,
    message: Id, row: Id, now: int, user: Uuid, box: Box, c: Id
  )
    requires TablesSound(s) && Posts(h, s, op, ops, u) && Commits(h, u, op.req, message, row, now, t)
    ensures var d := u.requests[op.req].draft;
            && IsDraftOf(d, s, op) && Adds(h, u, t, d, message, row, now) && TablesSound(t)
            && ShownTo(u, t, d, message, user, box, c)
  {
    var d := u.requests[op.req].draft;
    PostIsKept(h, s, op, ops, u);
    CommitEffect(h, u, op.req, message, row, now);
    StepKeepsTables(h, u, Commit(op.req, message, row, now));
    ShownAfter(h, u, t, d, message, row, now, user, box);
    UnreadAfter(h, u, t, d, message, row, now, user, c);
  }

  /** The request is admitted, and others go on until it is to be committed. */
  ghost predicate Posts(h: Verification.Hashing, s: State, op: Op, ops: seq<Op>, u: State) {
    && (op.Send? || op.Forward?) && Enabled(h, s, op) && Admitted(s, op)
    && Run(h, Apply(h, s, op), ops, u) && op.req in u.requests
    && forall i :: 0 <= i < |ops| ==> !Restarts(ops[i], op.req)
  }

  ghost predicate Commits(
    h: Verification.Hashing, u: State, req: Id, message: Id, row: Id, now: int, t: State
  ) {
    Enabled(h, u, Commit(req, message, row, now)) && t == Apply(h, u, Commit(req, message, row, now))
  }

  lemma PostIsKept(h: Verification.Hashing, s: State, op: Op, ops: seq<Op>, u: State)
    requires TablesSound(s) && Posts(h, s, op, ops, u)
    ensures TablesSound(u) && IsDraftOf(u.requests[op.req].draft, s, op)
  {
    StartEffect(h, s, op);
    DraftStays(h, Apply(h, s, op), ops, u, op.req);
    StepKeepsTables(h, s, op);
    RunKeepsTables(h, Apply(h, s, op), ops, u);
  }

  lemma {:induction false} RunKeepsTables(h: Verification.Hashing, s: State, ops: seq<Op>, t: State)
    requires TablesSound(s) && Run(h, s, ops, t)
    ensures TablesSound(t)
    decreases |ops|
  {
    if ops != [] {
      StepKeepsTables(h, s, ops[0]);
      RunKeepsTables(h, Apply(h, s, ops[0]), ops[1..], t);
    }
  }

  /** A send to somebody else that nobody interferes with does get as far as the message: after the
      SELECT, or after the SELECT and the INSERT, its request is ready to commit. */
  lemma SendGoesThrough(h: Verification.Hashing, s: State, op: Op, conv: Id)
    requires TablesSound(s) && (op.Send? || op.Forward?) && Enabled(h, s, op) && Admitted(s, op)
    requires Actor(op) != s.users[op.to] && conv !in s.convs
    ensures Enabled(h, Apply(h, s, op), SelectConv(op.req))
    ensures var selected := Apply(h, Apply(h, s, op), SelectConv(op.req));
            && op.req in selected.requests
            && (if HasConv(s, Actor(op), s.users[op.to]) then selected.requests[op.req].progress.Ready?
                else
                  && Enabled(h, selected, InsertConv(op.req, conv))
                  && var inserted := Apply(h, selected, InsertConv(op.req, conv));
                     op.req in inserted.requests && inserted.requests[op.req].progress == Ready(conv))
  {
    StartEffect(h, s, op);
    StepKeepsTables(h, s, op);
    var started := Apply(h, s, op);
    SelectEffect(h, started, op.req);
    StepKeepsTables(h, started, SelectConv(op.req));
    var selected := Apply(h, started, SelectConv(op.req));
    if !HasConv(s, Actor(op), s.users[op.to]) {
      InsertMakes(h, selected, op.req, conv);
    }
  }
}
