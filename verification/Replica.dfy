/** One user's client beside the server: any run of server steps by anybody, interleaved with the
    steps of this user's client, and what a sync makes of the local store. */
module Replica {
  import opened Wrappers
  import opened Uuid
  import opened Inbox
  import Server
  import ServerInvariant
  import Views
  import Verification
  import opened Store
  import opened Sync

  /** `inflight` is the inbox a sync has fetched and not yet processed. */
  datatype System = System(server: Server.State, store: Tables, inflight: Option<seq<Option<Message>>>)

  /** Client steps follow the server's answer, which may be older than the server's present state;
      an answer that is lost is a client step that does not happen. */
  datatype Op =
    | OnServer(op: Server.Op)
    | FetchInbox(ids: seq<string>, items: seq<Option<Message>>)
    | Pull(env: Env)
    | PullRevoked(list: seq<Option<string>>)
    | SentHere(m: Message)
    | DeletedHere(id: string)
    | RevokedHere(id: string)
    | Trusted(u: User)
    | Rotated(u: User)

  predicate Party(s: Server.State, me: Uuid, id: string) {
    id in s.messages && (s.messages[id].sender == me || s.messages[id].recipient == me)
  }

  /** The server hides the message from the user because the user deleted it. */
  predicate HiddenBy(s: Server.State, me: Uuid, id: string) {
    && id in s.messages
    && ((s.messages[id].sender == me && s.messages[id].deletedBySender) ||
        (s.messages[id].recipient == me && s.messages[id].deletedByRecipient))
  }

  /** The client's reading of the answer: every entry parses to the message of its id, or not at all. */
  ghost predicate ParsedFrom(ids: seq<string>, items: seq<Option<Message>>) {
    |items| == |ids| && forall i :: 0 <= i < |ids| && items[i].Some? ==> items[i].value.id == ids[i]
  }

  /** GET /messages/revoked */
  ghost predicate IsRevokedAnswer(s: Server.State, me: Uuid, list: seq<Option<string>>) {
    && (forall i :: 0 <= i < |list| ==> list[i].Some?)
    && forall id :: ListedIn(list, id) <==> id in Views.RevokedFor(s, me)
  }

  ghost predicate Enabled(h: Verification.Hashing, me: Uuid, y: System, op: Op) {
    match op
    case OnServer(sop) => Server.Enabled(h, y.server, sop)
    case FetchInbox(ids, items) => y.inflight.None? && IsInboxAnswer(y.server, me, ids) && ParsedFrom(ids, items)
    case Pull(_) => y.inflight.Some?
    case PullRevoked(list) => y.inflight.None? && IsRevokedAnswer(y.server, me, list)
    case SentHere(m) => y.inflight.None? && m.id in y.server.messages && y.server.messages[m.id].sender == me
    case DeletedHere(id) => y.inflight.None? && HiddenBy(y.server, me, id)
    case RevokedHere(id) => y.inflight.None? && id in y.server.revocations
    case Trusted(_) => y.inflight.None?
    case Rotated(_) => y.inflight.None?
  }

  ghost function Apply(h: Verification.Hashing, me: Uuid, y: System, op: Op): System
    requires Enabled(h, me, y, op)
  {
    match op
    case OnServer(sop) => y.(server := Server.Apply(h, y.server, sop))
    case FetchInbox(_, items) => y.(inflight := Some(items))
    case Pull(env) => y.(store := PullAll(env, y.store, y.inflight.value).store, inflight := None)
    case PullRevoked(list) => y.(store := RevokeAll(y.store, list))
    case SentHere(m) => y.(store := Saved(y.store, m))
    case DeletedHere(id) => y.(store := MarkedDeleted(y.store, id))
    case RevokedHere(id) => y.(store := MarkedRevoked(y.store, id))
    case Trusted(u) => y.(store := LookupOrPin(y.store, u).0)
    case Rotated(u) => y.(store := Pinned(y.store, u))
  }

  // ---- when the client may take a step ----

  /** A 200 to DELETE /messages/:id lets the client set its tombstone. */
  lemma DeleteAnswered(h: Verification.Hashing, me: Uuid, y: System, id: string)
    requires y.inflight.None? && Server.Enabled(h, y.server, Server.Delete(me, id))
    requires Server.DeleteStatus(y.server, me, id) == Server.Success
    ensures Enabled(h, me, Apply(h, me, y, OnServer(Server.Delete(me, id))), DeletedHere(id))
  {
  }

  /** A 200 to DELETE /messages/:id/revoke lets it blank its copy. */
  lemma RevokeAnswered(h: Verification.Hashing, me: Uuid, y: System, id: string)
    requires y.inflight.None? && Server.Enabled(h, y.server, Server.Revoke(me, id))
    requires Server.RevokeStatus(y.server, me, id) == Server.Success
    ensures Enabled(h, me, Apply(h, me, y, OnServer(Server.Revoke(me, id))), RevokedHere(id))
  {
  }

  /** A 201 to its own POST /messages lets it save the message under the id it was given. */
  lemma PostAnswered(h: Verification.Hashing, me: Uuid, y: System, op: Server.Op, m: Message)
    requires y.inflight.None? && op.Commit? && Server.Enabled(h, y.server, op)
    requires y.server.requests[op.req].draft.sender == me && m.id == op.message
    ensures Enabled(h, me, Apply(h, me, y, OnServer(op)), SentHere(m))
  {
  }

  /** What these steps do to the store. */
  lemma HereEffect(h: Verification.Hashing, me: Uuid, y: System, op: Op)
    requires Enabled(h, me, y, op)
    requires op.DeletedHere? || op.RevokedHere? || op.SentHere? || op.Trusted? || op.Rotated?
    ensures var z := Apply(h, me, y, op);
            && z.server == y.server && z.inflight == y.inflight
            && (op.DeletedHere? ==> OnlyDeletes(y.store, z.store, op.id))
            && (op.RevokedHere? ==> OnlyRevokes(y.store, z.store, op.id))
            && (op.SentHere? ==> OnlySaves(y.store, z.store, op.m))
            && (op.Trusted? ==> OnlyPins(y.store, z.store, op.u.username) && PinsKept(y.store, z.store)
                                && (op.u.username !in y.store.pins ==> z.store.pins[op.u.username] == op.u))
            && (op.Rotated? ==> OnlyPins(y.store, z.store, op.u.username) && z.store.pins[op.u.username] == op.u)
  {
    match op
    case DeletedHere(id) => DeletedEffect(y.store, id);
    case RevokedHere(id) => RevokedEffect(y.store, id);
    case SentHere(m) => SavedEffect(y.store, m);
    case Trusted(u) => LookupOrPinEvolves(y.store, u);
    case Rotated(u) =>
  }

  // ---- the invariant ----

  ghost predicate RowSound(s: Server.State, me: Uuid, id: string, row: Row) {
    && row.msg.id == id && Party(s, me, id)
    && (row.deleted ==> HiddenBy(s, me, id))
    && (row.msg.revoked ==> id in s.revocations && row.msg.plaintext == "")
  }

  ghost predicate RowsSound(s: Server.State, me: Uuid, store: Tables) {
    forall id :: id in store.rows ==> RowSound(s, me, id, store.rows[id])
  }

  /** A fetched inbox is about messages to the user that he has not deleted here. */
  ghost predicate InflightSound(s: Server.State, me: Uuid, store: Tables, items: seq<Option<Message>>) {
    forall i :: 0 <= i < |items| && items[i].Some? ==>
      Party(s, me, items[i].value.id) && (items[i].value.id in store.rows ==> !store.rows[items[i].value.id].deleted)
  }

  ghost predicate Inv(me: Uuid, y: System) {
    && ServerInvariant.TablesSound(y.server)
    && RowsSound(y.server, me, y.store)
    && (y.inflight.Some? ==> InflightSound(y.server, me, y.store, y.inflight.value))
  }

  /** What the server never takes back. */
  ghost predicate ServerGrows(s: Server.State, t: Server.State, me: Uuid) {
    && (forall id :: Party(s, me, id) ==> Party(t, me, id))
    && (forall id :: HiddenBy(s, me, id) ==> HiddenBy(t, me, id))
    && (forall id :: id in s.revocations ==> id in t.revocations)
  }

  lemma ServerStepGrows(h: Verification.Hashing, s: Server.State, op: Server.Op, me: Uuid)
    requires Server.Enabled(h, s, op)
    ensures ServerGrows(s, Server.Apply(h, s, op), me)
  {
    if op.Delete? || op.MarkRead? {
      DeleteOrReadGrows(h, s, op, me);
    } else if op.Commit? || op.Daemon? {
      CommitGrows(h, s, op, me);
    } else if op.Revoke? {
      RevokeGrows(h, s, op, me);
    } else {
      ServerInvariant.OtherStepFrame(h, s, op);
    }
  }

  lemma CommitGrows(h: Verification.Hashing, s: Server.State, op: Server.Op, me: Uuid)
    requires Server.Enabled(h, s, op) && (op.Commit? || op.Daemon?)
    ensures ServerGrows(s, Server.Apply(h, s, op), me)
  {
  }

  lemma RevokeGrows(h: Verification.Hashing, s: Server.State, op: Server.Op, me: Uuid)
    requires Server.Enabled(h, s, op) && op.Revoke?
    ensures ServerGrows(s, Server.Apply(h, s, op), me)
  {
    ServerInvariant.OtherStepFrame(h, s, op);
  }

  lemma DeleteOrReadGrows(h: Verification.Hashing, s: Server.State, op: Server.Op, me: Uuid)
    requires Server.Enabled(h, s, op) && (op.Delete? || op.MarkRead?)
    ensures ServerGrows(s, Server.Apply(h, s, op), me)
  {
  }

  lemma RowsSurvive(s: Server.State, t: Server.State, me: Uuid, y: System)
    requires ServerGrows(s, t, me) && RowsSound(s, me, y.store)
    requires y.inflight.Some? ==> InflightSound(s, me, y.store, y.inflight.value)
    ensures RowsSound(t, me, y.store)
    ensures y.inflight.Some? ==> InflightSound(t, me, y.store, y.inflight.value)
  {
    forall id | id in y.store.rows ensures RowSound(t, me, id, y.store.rows[id]) {
      assert RowSound(s, me, id, y.store.rows[id]);
    }
  }

  lemma FetchedIsSound(me: Uuid, y: System, ids: seq<string>, items: seq<Option<Message>>)
    requires RowsSound(y.server, me, y.store) && IsInboxAnswer(y.server, me, ids) && ParsedFrom(ids, items)
    ensures InflightSound(y.server, me, y.store, items)
  {
    forall i | 0 <= i < |items| && items[i].Some?
      ensures Party(y.server, me, ids[i]) && (ids[i] in y.store.rows ==> !y.store.rows[ids[i]].deleted)
    {
      assert ids[i] in Views.Listed(y.server, me, Views.Inbox);
      if ids[i] in y.store.rows { assert RowSound(y.server, me, ids[i], y.store.rows[ids[i]]); }
    }
  }

  lemma PullKeepsRows(s: Server.State, me: Uuid, env: Env, store: Tables, items: seq<Option<Message>>)
    requires RowsSound(s, me, store) && InflightSound(s, me, store, items)
    ensures RowsSound(s, me, PullAll(env, store, items).store)
  {
    var t := PullAll(env, store, items).store;
    PullEffect(env, store, items);
    forall id | id in t.rows ensures RowSound(s, me, id, t.rows[id]) {
      if id in store.rows {
        assert RowSound(s, me, id, store.rows[id]);
      } else {
        assert MadeFrom(env, t, items, id, t.rows[id]);
      }
    }
  }

  lemma RevokedKeepsRows(s: Server.State, me: Uuid, store: Tables, list: seq<Option<string>>)
    requires RowsSound(s, me, store) && IsRevokedAnswer(s, me, list)
    ensures RowsSound(s, me, RevokeAll(store, list))
  {
    RevokeEffect(store, list);
    var t := RevokeAll(store, list);
    forall id | id in t.rows ensures RowSound(s, me, id, t.rows[id]) {
      assert RowSound(s, me, id, store.rows[id]);
      assert ListedIn(list, id) <==> id in Views.RevokedFor(s, me);
    }
  }

  lemma LocalStepKeepsRows(h: Verification.Hashing, me: Uuid, y: System, op: Op)
    requires RowsSound(y.server, me, y.store) && Enabled(h, me, y, op)
    requires op.SentHere? || op.DeletedHere? || op.RevokedHere? || op.Trusted? || op.Rotated?
    ensures RowsSound(y.server, me, Apply(h, me, y, op).store)
  {
    var t := Apply(h, me, y, op).store;
    forall id | id in t.rows ensures RowSound(y.server, me, id, t.rows[id]) {
      if id in y.store.rows { assert RowSound(y.server, me, id, y.store.rows[id]); }
    }
  }

  lemma StepKeepsInv(h: Verification.Hashing, me: Uuid, y: System, op: Op)
    requires Inv(me, y) && Enabled(h, me, y, op)
    ensures Inv(me, Apply(h, me, y, op))
  {
    if op.OnServer? {
      ServerInvariant.StepKeepsTables(h, y.server, op.op);
      ServerStepGrows(h, y.server, op.op, me);
      RowsSurvive(y.server, Server.Apply(h, y.server, op.op), me, y);
    } else if op.FetchInbox? {
      FetchedIsSound(me, y, op.ids, op.items);
    } else if op.Pull? {
      PullKeepsRows(y.server, me, op.env, y.store, y.inflight.value);
    } else if op.PullRevoked? {
      RevokedKeepsRows(y.server, me, y.store, op.list);
    } else {
      LocalStepKeepsRows(h, me, y, op);
    }
  }

  ghost predicate Run(h: Verification.Hashing, me: Uuid, y: System, ops: seq<Op>, z: System)
    decreases |ops|
  {
    if ops == [] then z == y
    else Enabled(h, me, y, ops[0]) && Run(h, me, Apply(h, me, y, ops[0]), ops[1..], z)
  }

  /** Over every interleaving of server and client steps: cached rows are about the user's own
      messages, locally deleted ones are hidden by the server, locally revoked ones are revoked. */
  lemma {:induction false} RunKeepsInv(h: Verification.Hashing, me: Uuid, y: System, ops: seq<Op>, z: System)
    requires Inv(me, y) && Run(h, me, y, ops, z)
    ensures Inv(me, z)
    decreases |ops|
  {
    if ops != [] {
      StepKeepsInv(h, me, y, ops[0]);
      RunKeepsInv(h, me, Apply(h, me, y, ops[0]), ops[1..], z);
    }
  }

  lemma InitHasInv(me: Uuid, y: System)
    requires Server.Init(y.server) && y.store == Tables(map[], map[]) && y.inflight.None?
    ensures Inv(me, y)
  {
  }

  // ---- convergence ----

  /** The store after a whole sync. */
  function Synced(env: Env, store: Tables, items: seq<Option<Message>>, list: seq<Option<string>>): Tables {
    RevokeAll(PullAll(env, store, items).store, list)
  }

  /** After a sync during which the server stood still, whatever happened before: every visible local
      row is revoked exactly when the server has it revoked; every listed message that opens under
      its sender's pin is visible; nothing else was added; and the number reported as new is the
      number of rows inserted. */
  lemma SyncConverges(
    h: Verification.Hashing, me: Uuid, start: System, ops: seq<Op>, y: System,
    env: Env, ids: seq<string>, items: seq<Option<Message>>, list: seq<Option<string>>
  )
    requires Inv(me, start) && Run(h, me, start, ops, y) && y.inflight.None?
    requires IsInboxAnswer(y.server, me, ids) && ParsedFrom(ids, items) && IsRevokedAnswer(y.server, me, list)
    ensures var t := Synced(env, y.store, items, list);
            && (forall id :: id in t.rows && !t.rows[id].deleted ==>
                  (t.rows[id].msg.revoked <==> id in y.server.revocations))
            && (forall id :: id in t.rows && t.rows[id].msg.revoked ==> t.rows[id].msg.plaintext == "")
            && (forall i :: 0 <= i < |items| && items[i].Some? && Accepted(env, t, items[i].value) ==>
                  ids[i] in t.rows && !t.rows[ids[i]].deleted)
            && (forall id :: id in t.rows <==> id in y.store.rows || Offers(env, t, items, id))
            && PullAll(env, y.store, items).saved == |t.rows| - |y.store.rows|
  {
    RunKeepsInv(h, me, start, ops, y);
    var p := PullAll(env, y.store, items).store;
    var t := RevokeAll(p, list);
    FetchedIsSound(me, y, ids, items);
    PullKeepsRows(y.server, me, env, y.store, items);
    PullEffect(env, y.store, items);
    RevokeEffect(p, list);
    RevokedKeepsRows(y.server, me, p, list);
    RevocationsAgree(me, y.server, p, list);
    OffersIgnoreRevocation(env, p, t, items);
    OffersAreVisible(me, y, env, ids, items, p);
    SavedIsExact(me, y, env, items);
    assert |t.rows| == |t.rows.Keys| && |p.rows| == |p.rows.Keys|;
    forall i | 0 <= i < |items| && items[i].Some? && Accepted(env, t, items[i].value)
      ensures ids[i] in t.rows && !t.rows[ids[i]].deleted
    {
      assert OffersAt(env, p, items, ids[i], i);
    }
  }

  lemma RevocationsAgree(me: Uuid, s: Server.State, p: Tables, list: seq<Option<string>>)
    requires ServerInvariant.TablesSound(s) && RowsSound(s, me, p) && IsRevokedAnswer(s, me, list)
    ensures var t := RevokeAll(p, list);
            && RowsSound(s, me, t)
            && forall id :: id in t.rows && !t.rows[id].deleted ==> (t.rows[id].msg.revoked <==> id in s.revocations)
  {
    RevokeEffect(p, list);
    RevokedKeepsRows(s, me, p, list);
    var t := RevokeAll(p, list);
    forall id | id in t.rows && !t.rows[id].deleted ensures t.rows[id].msg.revoked <==> id in s.revocations {
      assert RowSound(s, me, id, p.rows[id]) && RowSound(s, me, id, t.rows[id]);
      assert ListedIn(list, id) <==> id in Views.RevokedFor(s, me);
    }
  }

  lemma OffersIgnoreRevocation(env: Env, p: Tables, t: Tables, items: seq<Option<Message>>)
    requires t.pins == p.pins
    ensures forall id, i :: OffersAt(env, t, items, id, i) == OffersAt(env, p, items, id, i)
    ensures forall id :: Offers(env, t, items, id) == Offers(env, p, items, id)
  {
    forall id ensures Offers(env, t, items, id) == Offers(env, p, items, id) {
      if Offers(env, t, items, id) { var i :| OffersAt(env, t, items, id, i); assert OffersAt(env, p, items, id, i); }
      if Offers(env, p, items, id) { var i :| OffersAt(env, p, items, id, i); assert OffersAt(env, t, items, id, i); }
    }
  }

  lemma OffersAreVisible(me: Uuid, y: System, env: Env, ids: seq<string>, items: seq<Option<Message>>, p: Tables)
    requires ParsedFrom(ids, items) && InflightSound(y.server, me, y.store, items) && PullResult(env, y.store, items, p)
    ensures forall id, i :: OffersAt(env, p, items, id, i) ==> id in p.rows && !p.rows[id].deleted
  {
    forall id, i | OffersAt(env, p, items, id, i) ensures id in p.rows && !p.rows[id].deleted {
      assert Offers(env, p, items, id);
      DeletedBefore(env, y.store, items, p, id);
    }
  }

  lemma SavedIsExact(me: Uuid, y: System, env: Env, items: seq<Option<Message>>)
    requires InflightSound(y.server, me, y.store, items)
    ensures PullAll(env, y.store, items).saved == |PullAll(env, y.store, items).store.rows| - |y.store.rows|
  {
    SavedCount(env, y.store, items);
    var t := PullAll(env, y.store, items).store;
    forall id, i | OffersAt(env, t, items, id, i) ensures id in y.store.rows ==> !y.store.rows[id].deleted {
    }
  }

  /** Syncing again on the same answers changes nothing. */
  lemma SyncIsIdempotent(env: Env, store: Tables, items: seq<Option<Message>>, list: seq<Option<string>>)
    ensures var t := Synced(env, store, items, list); Synced(env, t, items, list) == t
  {
    var p := PullAll(env, store, items).store;
    var t := RevokeAll(p, list);
    PullEffect(env, store, items);
    RevokeEffect(p, list);
    forall i | 0 <= i < |items| ensures Settled(env, t, items[i]) {
      if items[i].Some? && Accepted(env, t, items[i].value) {
        assert Looked(env, p, items[i].value) && Accepted(env, p, items[i].value);
        assert OffersAt(env, p, items, items[i].value.id, i);
        assert Offers(env, p, items, items[i].value.id);
      } else if items[i].Some? {
        assert Looked(env, p, items[i].value);
      }
    }
    SettledPullIsIdle(env, t, items);
    RevokeIsIdempotent(p, list);
  }
}
