/** What every run of the server keeps. */
module ServerInvariant {
  import opened Wrappers
  import opened Uuid
  import opened Server
  import Anchor
  import AnchorInvariant
  import Verification

  ghost predicate UsersSound(s: State) {
    forall x, y :: x in s.users && y in s.users && s.users[x] == s.users[y] ==> x == y
  }

  /** Participants are users in byte order, and no two conversations have the same participants. */
  ghost predicate ConvsSound(s: State) {
    && (forall c :: c in s.convs ==>
          IsUser(s, s.convs[c].a) && IsUser(s, s.convs[c].b) && BytesLess(s.convs[c].a, s.convs[c].b))
    && (forall c, d :: c in s.convs && d in s.convs && s.convs[c] == s.convs[d] ==> c == d)
  }

  ghost predicate MessagesSound(s: State) {
    forall m :: m in s.messages ==>
      m != "" && InConv(s, s.messages[m].conv, s.messages[m].sender, s.messages[m].recipient)
  }

  ghost predicate InConv(s: State, c: Id, x: Uuid, y: Uuid) {
    c in s.convs && IsPair(s.convs[c], x, y)
  }

  ghost predicate RequestsSound(s: State) {
    forall r :: r in s.requests ==>
      var d := s.requests[r].draft;
      && IsUser(s, d.sender) && IsUser(s, d.recipient)
      && (s.requests[r].progress.Ready? ==> InConv(s, s.requests[r].progress.conv, d.sender, d.recipient))
      && (d.original.Some? ==> d.original.value in s.messages)
  }

  /** Only the sender of an existing message has revoked it. */
  ghost predicate RevocationsSound(s: State) {
    forall m :: m in s.revocations ==> m in s.messages && s.revocations[m] == s.messages[m].sender
  }

  ghost predicate HasRow(s: State, m: Id) {
    exists id :: id in s.anchor.queue && s.anchor.queue[id].messageId == m
  }

  /** Each message has exactly one row in the digest queue, with the digest of its ciphertext. */
  ghost predicate RowsSound(h: Verification.Hashing, s: State) {
    && (forall id :: id in s.anchor.queue ==>
          var r := s.anchor.queue[id];
          r.messageId in s.messages && r.digest == Verification.DigestOf(h, s.messages[r.messageId].ciphertext))
    && (forall m :: m in s.messages ==> HasRow(s, m))
    && Verification.OneRowPerMessage(s.anchor)
  }

  ghost predicate TablesSound(s: State) {
    UsersSound(s) && ConvsSound(s) && MessagesSound(s) && RequestsSound(s) && RevocationsSound(s)
  }

  ghost predicate Inv(h: Verification.Hashing, s: State) {
    TablesSound(s) && RowsSound(h, s) && Anchor.Inv(h.text, s.anchor)
  }

  /** The one queue row of a message. */
  lemma RowOfMessage(h: Verification.Hashing, s: State, m: Id) returns (row: Id)
    requires RowsSound(h, s) && m in s.messages
    ensures row in s.anchor.queue && s.anchor.queue[row].messageId == m
    ensures s.anchor.queue[row].digest == Verification.DigestOf(h, s.messages[m].ciphertext)
    ensures forall other :: other in s.anchor.queue && s.anchor.queue[other].messageId == m ==> other == row
  {
    assert HasRow(s, m);
    row :| row in s.anchor.queue && s.anchor.queue[row].messageId == m;
  }

  // ---- conversations ----

  /** The route's text order always meets the database's CHECK, for distinct users. */
  lemma ParticipantsMeetCheck(x: Uuid, y: Uuid)
    ensures BytesLess(Participants(x, y).a, Participants(x, y).b) <==> x != y
    ensures IsPair(Participants(x, y), x, y) && Participants(x, y) == Participants(y, x)
  {
    TextOrderIsByteOrder(x, y);
    TextOrderIsByteOrder(y, x);
    OrderIsStrictTotal(x, y);
    OrderIsStrictTotal(y, x);
  }

  /** A pair has at most one conversation: any conversation of the pair is the one the route would insert. */
  lemma PairHasOneOrder(c: Conv, x: Uuid, y: Uuid)
    requires BytesLess(c.a, c.b) && IsPair(c, x, y)
    ensures c == Participants(x, y)
  {
    ParticipantsMeetCheck(x, y);
    TextOrderIsByteOrder(x, y);
    TextOrderIsByteOrder(y, x);
    OrderIsStrictTotal(x, y);
    OrderIsStrictTotal(y, x);
  }

  /** In every reachable state an unordered pair of users has at most one conversation, nobody has
      one with himself, and every message is in the conversation of its sender and recipient. */
  lemma OneConversationPerPair(s: State, c: Id, d: Id, x: Uuid, y: Uuid)
    requires TablesSound(s) && c in s.convs && d in s.convs && IsPair(s.convs[c], x, y) && IsPair(s.convs[d], x, y)
    ensures c == d && x != y
  {
    PairHasOneOrder(s.convs[c], x, y);
    PairHasOneOrder(s.convs[d], x, y);
    OrderIsStrictTotal(x, x);
  }

  lemma SendsToOthers(s: State, m: Id)
    requires TablesSound(s) && m in s.messages
    ensures s.messages[m].sender != s.messages[m].recipient
    ensures InConv(s, s.messages[m].conv, s.messages[m].sender, s.messages[m].recipient)
    ensures forall c :: InConv(s, c, s.messages[m].sender, s.messages[m].recipient) ==> c == s.messages[m].conv
  {
    var msg := s.messages[m];
    OneConversationPerPair(s, msg.conv, msg.conv, msg.sender, msg.recipient);
    forall c | c in s.convs && IsPair(s.convs[c], msg.sender, msg.recipient) ensures c == msg.conv {
      OneConversationPerPair(s, c, msg.conv, msg.sender, msg.recipient);
    }
  }

  // ---- preservation: the tables ----

  lemma RegisterKeepsTables(s: State, username: string, user: Uuid)
    requires TablesSound(s) && username !in s.users && !IsUser(s, user)
    ensures TablesSound(s.(users := s.users[username := user]))
  {
    var t := s.(users := s.users[username := user]);
    forall u ensures IsUser(s, u) ==> IsUser(t, u) {
      if IsUser(s, u) {
        var n :| n in s.users && s.users[n] == u;
        assert t.users[n] == u;
      }
    }
  }

  lemma InsertConvKeepsTables(s: State, req: Id, conv: Id)
    requires TablesSound(s) && req in s.requests && conv !in s.convs
    requires Accepts(s, Participants(s.requests[req].draft.sender, s.requests[req].draft.recipient))
    ensures var d := s.requests[req].draft;
            TablesSound(s.(convs := s.convs[conv := Participants(d.sender, d.recipient)],
                           requests := s.requests[req := Request(d, Ready(conv))]))
  {
    var d := s.requests[req].draft;
    ParticipantsMeetCheck(d.sender, d.recipient);
    var u := s.(convs := s.convs[conv := Participants(d.sender, d.recipient)]);
    NewConvKeepsTables(s, conv, Participants(d.sender, d.recipient));
    UpdateRequestKeepsTables(u, req, Request(d, Ready(conv)));
  }

  lemma UpdateRequestKeepsTables(s: State, req: Id, r: Request)
    requires TablesSound(s) && req in s.requests && r.draft == s.requests[req].draft
    requires r.progress.Ready? ==> InConv(s, r.progress.conv, r.draft.sender, r.draft.recipient)
    ensures TablesSound(s.(requests := s.requests[req := r]))
  {
    assert RequestsSound(s.(requests := s.requests[req := r]));
    RequestsKeepTables(s, s.requests[req := r]);
  }

  lemma NewConvKeepsTables(s: State, conv: Id, c: Conv)
    requires TablesSound(s) && conv !in s.convs && Accepts(s, c) && IsUser(s, c.a) && IsUser(s, c.b)
    ensures TablesSound(s.(convs := s.convs[conv := c]))
  {
    var t := s.(convs := s.convs[conv := c]);
    assert forall x, y, z :: InConv(s, x, y, z) ==> InConv(t, x, y, z);
    assert ConvsSound(t);
    assert MessagesSound(t);
    assert RequestsSound(t);
  }

  lemma RequestsKeepTables(s: State, requests: map<Id, Request>)
    requires TablesSound(s) && RequestsSound(s.(requests := requests))
    ensures TablesSound(s.(requests := requests))
  {
    var t := s.(requests := requests);
    assert ConvsSound(t) && MessagesSound(t) && RevocationsSound(t);
  }

  /** Looking up the conversation finds one of the pair, if there is one. */
  lemma SelectConvKeepsRequests(h: Verification.Hashing, s: State, req: Id)
    requires TablesSound(s) && Enabled(h, s, SelectConv(req))
    ensures var t := Apply(h, s, SelectConv(req));
            t == s.(requests := t.requests) && RequestsSound(t)
  {
  }

  lemma RevokeKeepsTables(s: State, user: Uuid, message: Id)
    requires TablesSound(s) && message in s.messages && s.messages[message].sender == user
    ensures TablesSound(s.(revocations := s.revocations[message := user]))
  {
    var t := s.(revocations := s.revocations[message := user]);
    assert ConvsSound(t) && MessagesSound(t) && RequestsSound(t);
  }

  lemma AnchorKeepsTables(s: State, a: Anchor.State)
    requires TablesSound(s)
    ensures TablesSound(s.(anchor := a))
  {
    var t := s.(anchor := a);
    assert ConvsSound(t) && MessagesSound(t) && RequestsSound(t) && RevocationsSound(t);
  }

  lemma PostKeepsTables(s: State, req: Id, message: Id, now: int)
    requires TablesSound(s) && req in s.requests && s.requests[req].progress.Ready?
    requires message !in s.messages && message != ""
    ensures var r := s.requests[req];
            TablesSound(s.(messages := s.messages[message := Post(r.draft, r.progress.conv, now)],
                           requests := Without(s.requests, req)))
  {
    var r := s.requests[req];
    var u := s.(messages := s.messages[message := Post(r.draft, r.progress.conv, now)]);
    assert InConv(s, r.progress.conv, r.draft.sender, r.draft.recipient);
    assert ConvsSound(u) && MessagesSound(u) && RequestsSound(u) && RevocationsSound(u);
    RequestsKeepTables(u, Without(s.requests, req));
  }

  /** Soft deletion and reading change flags only. */
  ghost predicate SameButFlags(m: Msg, n: Msg) {
    n == m.(readAt := n.readAt, deletedBySender := n.deletedBySender, deletedByRecipient := n.deletedByRecipient)
  }

  lemma FlagsKeepTables(s: State, messages: map<Id, Msg>)
    requires TablesSound(s) && messages.Keys == s.messages.Keys
    requires forall m :: m in messages ==> SameButFlags(s.messages[m], messages[m])
    ensures TablesSound(s.(messages := messages))
  {
    assert forall m :: m in s.messages <==> m in messages;
  }

  lemma StartKeepsTables(h: Verification.Hashing, s: State, op: Op)
    requires TablesSound(s) && Enabled(h, s, op) && (op.Send? || op.Forward?)
    ensures TablesSound(Apply(h, s, op))
  {
    StartFrame(h, s, op);
    if op.to in s.users { assert IsUser(s, s.users[op.to]); }
    StartKeepsRequests(h, s, op);
    RequestsKeepTables(s, Apply(h, s, op).requests);
  }

  lemma StartKeepsRequests(h: Verification.Hashing, s: State, op: Op)
    requires RequestsSound(s) && Enabled(h, s, op) && (op.Send? || op.Forward?)
    ensures RequestsSound(Apply(h, s, op))
  {
    if op.to in s.users { assert IsUser(s, s.users[op.to]); }
  }

  lemma ConvStepKeepsTables(h: Verification.Hashing, s: State, op: Op)
    requires TablesSound(s) && Enabled(h, s, op) && (op.SelectConv? || op.InsertConv? || op.Abort?)
    ensures TablesSound(Apply(h, s, op))
  {
    match op
    case SelectConv(req) =>
      SelectConvKeepsRequests(h, s, req);
      RequestsKeepTables(s, Apply(h, s, op).requests);
    case InsertConv(req, conv) =>
      var d := s.requests[req].draft;
      if Accepts(s, Participants(d.sender, d.recipient)) {
        InsertConvKeepsTables(s, req, conv);
      } else {
        RequestsKeepTables(s, Without(s.requests, req));
      }
    case Abort(req) => RequestsKeepTables(s, Without(s.requests, req));
  }

  lemma CommitKeepsTables(h: Verification.Hashing, s: State, req: Id, message: Id, row: Id, now: int)
    requires TablesSound(s) && Enabled(h, s, Commit(req, message, row, now))
    ensures TablesSound(Apply(h, s, Commit(req, message, row, now)))
  {
    PostKeepsTables(s, req, message, now);
    var u := s.(messages := s.messages[message := Post(s.requests[req].draft, s.requests[req].progress.conv, now)],
                requests := Without(s.requests, req));
    AnchorKeepsTables(u, Apply(h, s, Commit(req, message, row, now)).anchor);
  }

  lemma FlagStepKeepsTables(h: Verification.Hashing, s: State, op: Op)
    requires TablesSound(s) && Enabled(h, s, op) && (op.Delete? || op.MarkRead?)
    ensures TablesSound(Apply(h, s, op))
  {
    FlagStepFrame(h, s, op);
    FlagsKeepTables(s, Apply(h, s, op).messages);
  }

  lemma FlagStepFrame(h: Verification.Hashing, s: State, op: Op)
    requires Enabled(h, s, op) && (op.Delete? || op.MarkRead?)
    ensures var t := Apply(h, s, op);
            && t == s.(messages := t.messages) && t.messages.Keys == s.messages.Keys
            && forall m :: m in t.messages ==> SameButFlags(s.messages[m], t.messages[m])
  {
  }

  lemma RevokeStepKeepsTables(h: Verification.Hashing, s: State, user: Uuid, message: Id)
    requires TablesSound(s) && Enabled(h, s, Revoke(user, message))
    ensures TablesSound(Apply(h, s, Revoke(user, message)))
  {
    if RevokeStatus(s, user, message) == Success { RevokeKeepsTables(s, user, message); }
  }

  /** The tables keep their constraints under every step. */
  lemma StepKeepsTables(h: Verification.Hashing, s: State, op: Op)
    requires TablesSound(s) && Enabled(h, s, op)
    ensures TablesSound(Apply(h, s, op))
  {
    if op.Send? || op.Forward? {
      StartKeepsTables(h, s, op);
    } else if op.SelectConv? || op.InsertConv? || op.Abort? {
      ConvStepKeepsTables(h, s, op);
    } else if op.Delete? || op.MarkRead? {
      FlagStepKeepsTables(h, s, op);
    } else if op.Revoke? {
      RevokeStepKeepsTables(h, s, op.user, op.message);
    } else if op.Register? {
      RegisterKeepsTables(s, op.username, op.user);
    } else if op.Commit? {
      CommitKeepsTables(h, s, op.req, op.message, op.row, op.now);
    } else {
      AnchorKeepsTables(s, Apply(h, s, op).anchor);
    }
  }

  // ---- preservation: messages and their queue rows ----

  lemma RowsStay(h: Verification.Hashing, s: State, t: State)
    requires RowsSound(h, s)
    requires t.messages.Keys == s.messages.Keys
    requires forall m :: m in s.messages ==> t.messages[m].ciphertext == s.messages[m].ciphertext
    requires t.anchor.queue.Keys == s.anchor.queue.Keys
    requires forall id :: id in s.anchor.queue ==> t.anchor.queue[id].messageId == s.anchor.queue[id].messageId
                                                   && t.anchor.queue[id].digest == s.anchor.queue[id].digest
    ensures RowsSound(h, t)
  {
    assert forall id :: id in t.anchor.queue <==> id in s.anchor.queue;
    assert forall m :: m in t.messages <==> m in s.messages;
    forall m | m in t.messages ensures HasRow(t, m) {
      assert HasRow(s, m);
    }
    assert Verification.OneRowPerMessage(t.anchor);
  }

  lemma CommitKeepsRows(h: Verification.Hashing, s: State, req: Id, message: Id, row: Id, now: int)
    requires RowsSound(h, s) && Enabled(h, s, Commit(req, message, row, now))
    ensures RowsSound(h, Apply(h, s, Commit(req, message, row, now)))
  {
    var t := Apply(h, s, Commit(req, message, row, now));
    forall m | m in t.messages ensures HasRow(t, m) {
      if m == message {
        assert t.anchor.queue[row].messageId == message;
      } else {
        assert HasRow(s, m);
        var id :| id in s.anchor.queue && s.anchor.queue[id].messageId == m;
        assert t.anchor.queue[id].messageId == m;
      }
    }
  }

  lemma FlagsKeepRows(h: Verification.Hashing, s: State, messages: map<Id, Msg>)
    requires RowsSound(h, s) && messages.Keys == s.messages.Keys
    requires forall m :: m in messages ==> SameButFlags(s.messages[m], messages[m])
    ensures RowsSound(h, s.(messages := messages))
  {
    assert forall m :: m in s.messages <==> m in messages;
    RowsStay(h, s, s.(messages := messages));
  }

  lemma DaemonKeepsRows(h: Verification.Hashing, s: State, op: Anchor.Op)
    requires RowsSound(h, s) && Anchor.Enabled(s.anchor, op) && !op.Enqueue?
    ensures RowsSound(h, s.(anchor := Anchor.Apply(h.text, s.anchor, op)))
  {
    DaemonFrame(h.text, s.anchor, op);
    RowsStay(h, s, s.(anchor := Anchor.Apply(h.text, s.anchor, op)));
  }

  lemma DaemonFrame(keccak: string -> string, s: Anchor.State, op: Anchor.Op)
    requires Anchor.Enabled(s, op) && !op.Enqueue?
    ensures var t := Anchor.Apply(keccak, s, op);
            && t.queue.Keys == s.queue.Keys
            && forall id :: id in s.queue ==>
                 t.queue[id].messageId == s.queue[id].messageId && t.queue[id].digest == s.queue[id].digest
  {
  }

  lemma FlagStepKeepsRows(h: Verification.Hashing, s: State, op: Op)
    requires RowsSound(h, s) && Enabled(h, s, op) && (op.Delete? || op.MarkRead?)
    ensures RowsSound(h, Apply(h, s, op))
  {
    FlagStepFrame(h, s, op);
    FlagsKeepRows(h, s, Apply(h, s, op).messages);
  }

  lemma OtherStepKeepsRows(h: Verification.Hashing, s: State, op: Op)
    requires RowsSound(h, s) && Enabled(h, s, op) && !op.Commit? && !op.Daemon? && !op.Delete? && !op.MarkRead?
    ensures RowsSound(h, Apply(h, s, op))
  {
    OtherStepFrame(h, s, op);
    RowsDependOnTables(h, s, Apply(h, s, op));
  }

  lemma OtherStepFrame(h: Verification.Hashing, s: State, op: Op)
    requires Enabled(h, s, op) && !op.Commit? && !op.Daemon? && !op.Delete? && !op.MarkRead?
    ensures Apply(h, s, op).messages == s.messages && Apply(h, s, op).anchor == s.anchor
    ensures op.Revoke? || Apply(h, s, op).revocations == s.revocations
  {
    if op.Send? || op.Forward? {
      StartFrame(h, s, op);
    } else if op.SelectConv? || op.InsertConv? {
      ConvStepFrame(h, s, op);
    }
  }

  lemma StartFrame(h: Verification.Hashing, s: State, op: Op)
    requires Enabled(h, s, op) && (op.Send? || op.Forward?)
    ensures Apply(h, s, op) == s.(requests := Apply(h, s, op).requests)
  {
  }

  lemma ConvStepFrame(h: Verification.Hashing, s: State, op: Op)
    requires Enabled(h, s, op) && (op.SelectConv? || op.InsertConv?)
    ensures Apply(h, s, op) == s.(requests := Apply(h, s, op).requests, convs := Apply(h, s, op).convs)
  {
  }

  lemma RowsDependOnTables(h: Verification.Hashing, s: State, t: State)
    requires RowsSound(h, s) && t.messages == s.messages && t.anchor == s.anchor
    ensures RowsSound(h, t)
  {
    RowsStay(h, s, t);
  }

  /** Messages and queue rows stay in step. */
  lemma StepKeepsRows(h: Verification.Hashing, s: State, op: Op)
    requires RowsSound(h, s) && Enabled(h, s, op)
    ensures RowsSound(h, Apply(h, s, op))
  {
    if op.Commit? {
      CommitKeepsRows(h, s, op.req, op.message, op.row, op.now);
    } else if op.Daemon? {
      DaemonKeepsRows(h, s, op.op);
    } else if op.Delete? || op.MarkRead? {
      FlagStepKeepsRows(h, s, op);
    } else {
      OtherStepKeepsRows(h, s, op);
    }
  }

  /** Every step of any user, request or daemon keeps the invariant. */
  lemma StepKeepsInv(h: Verification.Hashing, s: State, op: Op)
    requires Inv(h, s) && Enabled(h, s, op)
    ensures Inv(h, Apply(h, s, op))
  {
    StepKeepsTables(h, s, op);
    StepKeepsRows(h, s, op);
    StepKeepsAnchor(h, s, op);
  }

  lemma StepKeepsAnchor(h: Verification.Hashing, s: State, op: Op)
    requires Anchor.Inv(h.text, s.anchor) && Enabled(h, s, op)
    ensures Anchor.Inv(h.text, Apply(h, s, op).anchor)
  {
    match op
    case Commit(req, message, row, now) =>
      AnchorInvariant.StepKeepsInv(h.text, s.anchor, Queue(h, s.requests[req].draft, message, row, now));
    case Daemon(aop) => AnchorInvariant.StepKeepsInv(h.text, s.anchor, aop);
    case _ =>
  }

  ghost predicate Run(h: Verification.Hashing, s: State, ops: seq<Op>, t: State)
    decreases |ops|
  {
    if ops == [] then t == s
    else Enabled(h, s, ops[0]) && Run(h, Apply(h, s, ops[0]), ops[1..], t)
  }

  lemma {:induction false} RunKeepsInv(h: Verification.Hashing, s: State, ops: seq<Op>, t: State)
    requires Inv(h, s) && Run(h, s, ops, t)
    ensures Inv(h, t)
    decreases |ops|
  {
    if ops != [] {
      StepKeepsInv(h, s, ops[0]);
      RunKeepsInv(h, Apply(h, s, ops[0]), ops[1..], t);
    }
  }

  /** No message is ever lost or altered in anything but its flags. */
  ghost predicate MessagesStay(s: State, t: State) {
    forall m :: m in s.messages ==> m in t.messages && SameButFlags(s.messages[m], t.messages[m])
  }

  lemma StepKeepsMessages(h: Verification.Hashing, s: State, op: Op)
    requires Enabled(h, s, op)
    ensures MessagesStay(s, Apply(h, s, op))
  {
    if op.Delete? || op.MarkRead? {
      FlagStepFrame(h, s, op);
    } else if op.Commit? || op.Daemon? {
    } else {
      OtherStepFrame(h, s, op);
    }
  }

  lemma {:induction false} RunKeepsMessages(h: Verification.Hashing, s: State, ops: seq<Op>, t: State)
    requires Run(h, s, ops, t)
    ensures MessagesStay(s, t)
    decreases |ops|
  {
    if ops != [] {
      StepKeepsMessages(h, s, ops[0]);
      RunKeepsMessages(h, Apply(h, s, ops[0]), ops[1..], t);
    }
  }

  // ---- forwards ----

  predicate PartyOf(s: State, user: Uuid, m: Id) {
    m in s.messages && (s.messages[m].sender == user || s.messages[m].recipient == user)
  }

  ghost predicate MayForward(s: State, user: Uuid, original: Option<Id>) {
    original.Some? ==> PartyOf(s, user, original.value)
  }

  /** Whoever forwards a message sent or received it. */
  ghost predicate ForwardsSound(s: State) {
    && (forall m :: m in s.messages ==> MayForward(s, s.messages[m].sender, s.messages[m].original))
    && (forall r :: r in s.requests ==> MayForward(s, s.requests[r].draft.sender, s.requests[r].draft.original))
  }

  /** Every request was there before with the same draft, or is the one being started. */
  lemma RequestsAfter(h: Verification.Hashing, s: State, op: Op, r: Id)
    requires Enabled(h, s, op) && r in Apply(h, s, op).requests
    ensures var t := Apply(h, s, op);
            || (r in s.requests && t.requests[r].draft == s.requests[r].draft)
            || (op.Send? && op.req == r && t.requests[r].draft.original.None?)
            || (op.Forward? && op.req == r && op.message in s.messages && t.requests[r].draft.sender == op.user
                && t.requests[r].draft.original == Some(op.message) && PartyOf(s, op.user, op.message))
  {
    if op.Send? || op.Forward? {
      RequestsAfterStart(h, s, op, r);
    } else if op.SelectConv? || op.InsertConv? {
      RequestsAfterConvStep(h, s, op, r);
    }
  }

  lemma RequestsAfterConvStep(h: Verification.Hashing, s: State, op: Op, r: Id)
    requires Enabled(h, s, op) && r in Apply(h, s, op).requests && (op.SelectConv? || op.InsertConv?)
    ensures r in s.requests && Apply(h, s, op).requests[r].draft == s.requests[r].draft
  {
    if op.SelectConv? {
      SelectConvKeepsDrafts(h, s, op.req, r);
    } else {
      InsertConvKeepsDrafts(h, s, op.req, op.conv, r);
    }
  }

  lemma SelectConvKeepsDrafts(h: Verification.Hashing, s: State, req: Id, r: Id)
    requires Enabled(h, s, SelectConv(req)) && r in Apply(h, s, SelectConv(req)).requests
    ensures r in s.requests && Apply(h, s, SelectConv(req)).requests[r].draft == s.requests[r].draft
  {
  }

  lemma InsertConvKeepsDrafts(h: Verification.Hashing, s: State, req: Id, conv: Id, r: Id)
    requires Enabled(h, s, InsertConv(req, conv)) && r in Apply(h, s, InsertConv(req, conv)).requests
    ensures r in s.requests && Apply(h, s, InsertConv(req, conv)).requests[r].draft == s.requests[r].draft
  {
    InsertConvRequests(h, s, req, conv);
  }

  lemma InsertConvRequests(h: Verification.Hashing, s: State, req: Id, conv: Id)
    requires Enabled(h, s, InsertConv(req, conv))
    ensures var t := Apply(h, s, InsertConv(req, conv));
            || t.requests == s.requests[req := Request(s.requests[req].draft, Ready(conv))]
            || t.requests == Without(s.requests, req)
  {
    var d := s.requests[req].draft;
    if Accepts(s, Participants(d.sender, d.recipient)) {
      assert Apply(h, s, InsertConv(req, conv)).requests == s.requests[req := Request(d, Ready(conv))];
    }
  }

  lemma RequestsAfterStart(h: Verification.Hashing, s: State, op: Op, r: Id)
    requires Enabled(h, s, op) && r in Apply(h, s, op).requests && (op.Send? || op.Forward?)
    ensures var t := Apply(h, s, op);
            || (r in s.requests && t.requests[r].draft == s.requests[r].draft)
            || (op.Send? && op.req == r && t.requests[r].draft.original.None?)
            || (op.Forward? && op.req == r && op.message in s.messages && t.requests[r].draft.sender == op.user
                && t.requests[r].draft.original == Some(op.message) && PartyOf(s, op.user, op.message))
  {
  }

  lemma MessagesAfter(h: Verification.Hashing, s: State, op: Op, m: Id)
    requires Enabled(h, s, op) && m in Apply(h, s, op).messages
    ensures var t := Apply(h, s, op);
            || (m in s.messages && SameButFlags(s.messages[m], t.messages[m]))
            || (op.Commit? && t.messages[m].sender == s.requests[op.req].draft.sender
                && t.messages[m].original == s.requests[op.req].draft.original)
  {
    if op.Delete? || op.MarkRead? {
      FlagStepFrame(h, s, op);
    } else if !op.Commit? && !op.Daemon? {
      OtherStepFrame(h, s, op);
    }
  }

  lemma StepKeepsForwards(h: Verification.Hashing, s: State, op: Op)
    requires ForwardsSound(s) && Enabled(h, s, op)
    ensures ForwardsSound(Apply(h, s, op))
  {
    var t := Apply(h, s, op);
    StepKeepsMessages(h, s, op);
    assert forall u, m :: PartyOf(s, u, m) ==> PartyOf(t, u, m);
    forall r | r in t.requests ensures MayForward(t, t.requests[r].draft.sender, t.requests[r].draft.original) {
      RequestsAfter(h, s, op, r);
    }
    forall m | m in t.messages ensures MayForward(t, t.messages[m].sender, t.messages[m].original) {
      MessagesAfter(h, s, op, m);
    }
  }

  lemma {:induction false} RunKeepsForwards(h: Verification.Hashing, s: State, ops: seq<Op>, t: State)
    requires ForwardsSound(s) && Run(h, s, ops, t)
    ensures ForwardsSound(t)
    decreases |ops|
  {
    if ops != [] {
      StepKeepsForwards(h, s, ops[0]);
      RunKeepsForwards(h, Apply(h, s, ops[0]), ops[1..], t);
    }
  }

  /** From the empty database on. */
  lemma ReachableHasInv(h: Verification.Hashing, s: State, ops: seq<Op>, t: State)
    requires Init(s) && Run(h, s, ops, t)
    ensures Inv(h, t)
  {
    AnchorInvariant.InitHasInv(h.text, s.anchor);
    RunKeepsInv(h, s, ops, t);
  }
}
