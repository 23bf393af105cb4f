/** The client's local store: cached messages with tombstones, and pinned keys. */
module Store {
  import opened Octets
  import Cuts
  import opened Wrappers

  datatype Message = Message(
    id: string,
    senderId: string, senderName: string,
    recipientId: string, recipientName: string,
    encKey: seq<byte>, ciphertext: seq<byte>,
    sentAtMs: int, forwarded: bool, original: string,
    plaintext: string, verified: bool, revoked: bool
  )

  /** A row of the messages table. */
  datatype Row = Row(msg: Message, deleted: bool)

  datatype User = User(userId: string, username: string, key: seq<byte>, keyVersion: int)

  datatype Tables = Tables(rows: map<string, Row>, pins: map<string, User>)

  /** INSERT OR IGNORE: an existing row, visible or not, is left alone. The `revoked` column is not
      among those inserted. */
  function Saved(s: Tables, m: Message): Tables {
    if m.id in s.rows then s else s.(rows := s.rows[m.id := Row(m.(revoked := false), false)])
  }

  function MarkedDeleted(s: Tables, id: string): Tables {
    if id in s.rows then s.(rows := s.rows[id := s.rows[id].(deleted := true)]) else s
  }

  function Blanked(m: Message): Message {
    m.(plaintext := "", revoked := true)
  }

  function MarkedRevoked(s: Tables, id: string): Tables {
    if id in s.rows then s.(rows := s.rows[id := s.rows[id].(msg := Blanked(s.rows[id].msg))]) else s
  }

  /** INSERT OR REPLACE */
  function Pinned(s: Tables, u: User): Tables {
    s.(pins := s.pins[u.username := u])
  }

  function Get(s: Tables, id: string): Option<Message> {
    if id in s.rows && !s.rows[id].deleted then Some(s.rows[id].msg) else None
  }

  function Visible(s: Tables): set<string> {
    set id | id in s.rows && !s.rows[id].deleted
  }

  ghost predicate Keyed(s: Tables) {
    forall id :: id in s.rows ==> s.rows[id].msg.id == id
  }

  predicate DistinctIds(ms: seq<Message>) {
    forall i, j :: 0 <= i < j < |ms| ==> ms[i].id != ms[j].id
  }

  function Ids(ms: seq<Message>): set<string> {
    set i | 0 <= i < |ms| :: ms[i].id
  }

  /** The messages of some visible rows, each once. */
  predicate Holds(s: Tables, ms: seq<Message>) {
    DistinctIds(ms) && forall i :: 0 <= i < |ms| ==> Get(s, ms[i].id) == Some(ms[i])
  }

  predicate NewestFirst(ms: seq<Message>) {
    forall i, j :: 0 <= i < j < |ms| ==> ms[i].sentAtMs >= ms[j].sentAtMs
  }

  // ---- trust on first use ----

  /** `lookup_or_pin`: the tables afterwards, and the user to trust, or None when the key changed. */
  function LookupOrPin(s: Tables, fetched: User): (Tables, Option<User>) {
    if fetched.username !in s.pins then (Pinned(s, fetched), Some(fetched))
    else if s.pins[fetched.username].key == fetched.key then (s, Some(s.pins[fetched.username]))
    else (s, None)
  }

  // ---- what no operation undoes ----

  /** A row never goes away; of its fields only `deleted` and `revoked` change, from false to true,
      and `plaintext`, which is blanked when and only when `revoked` is set. */
  ghost predicate RowEvolves(a: Row, b: Row) {
    && (a.deleted ==> b.deleted)
    && (b.msg == a.msg || b.msg == Blanked(a.msg))
  }

  ghost predicate RowsEvolve(s: Tables, t: Tables) {
    forall id :: id in s.rows ==> id in t.rows && RowEvolves(s.rows[id], t.rows[id])
  }

  ghost predicate PinsKept(s: Tables, t: Tables) {
    forall name :: name in s.pins ==> name in t.pins && t.pins[name] == s.pins[name]
  }

  ghost predicate Evolves(s: Tables, t: Tables) {
    RowsEvolve(s, t) && PinsKept(s, t) && (Keyed(s) ==> Keyed(t))
  }

  lemma EvolvesTransitive(s: Tables, t: Tables, u: Tables)
    requires Evolves(s, t) && Evolves(t, u)
    ensures Evolves(s, u)
  {
    forall id | id in s.rows ensures id in u.rows && RowEvolves(s.rows[id], u.rows[id]) {
      assert RowEvolves(s.rows[id], t.rows[id]) && RowEvolves(t.rows[id], u.rows[id]);
    }
    forall name | name in s.pins ensures name in u.pins && u.pins[name] == s.pins[name] {
      assert name in t.pins;
    }
  }

  // No operation makes a deleted row visible, takes back a revocation, restores or changes a
  // plaintext, or touches an existing pin.

  lemma SavedEvolves(s: Tables, m: Message)
    ensures Evolves(s, Saved(s, m))
  {
  }

  lemma MarkedDeletedEvolves(s: Tables, id: string)
    ensures Evolves(s, MarkedDeleted(s, id))
  {
  }

  lemma MarkedRevokedEvolves(s: Tables, id: string)
    ensures Evolves(s, MarkedRevoked(s, id))
  {
  }

  lemma LookupOrPinEvolves(s: Tables, u: User)
    ensures Evolves(s, LookupOrPin(s, u).0)
  {
  }

  // ---- what each operation does, said on the tables ----

  /** The row becomes a tombstone with its message in it; nothing else changes. */
  ghost predicate OnlyDeletes(s: Tables, t: Tables, id: string) {
    && t.pins == s.pins && t.rows.Keys == s.rows.Keys
    && (forall x :: x in s.rows && x != id ==> t.rows[x] == s.rows[x])
    && (id in s.rows ==> t.rows[id].msg == s.rows[id].msg && t.rows[id].deleted)
    && Get(t, id) == None && Visible(t) == Visible(s) - {id}
  }

  /** The row loses its text and is marked revoked; nothing else changes. */
  ghost predicate OnlyRevokes(s: Tables, t: Tables, id: string) {
    && t.pins == s.pins && t.rows.Keys == s.rows.Keys
    && (forall x :: x in s.rows && x != id ==> t.rows[x] == s.rows[x])
    && (id in s.rows ==>
          t.rows[id] == Row(s.rows[id].msg.(plaintext := "", revoked := true), s.rows[id].deleted))
    && Visible(t) == Visible(s)
  }

  /** The message is there, visible and unrevoked, if its id is new; nothing else changes. */
  ghost predicate OnlySaves(s: Tables, t: Tables, m: Message) {
    && t.pins == s.pins && t.rows.Keys == s.rows.Keys + {m.id}
    && (forall x :: x in s.rows ==> t.rows[x] == s.rows[x])
    && (m.id !in s.rows ==> Get(t, m.id) == Some(m.(revoked := false)))
  }

  /** The name has a pin; rows and all other pins are as before. */
  ghost predicate OnlyPins(s: Tables, t: Tables, name: string) {
    && t.rows == s.rows && t.pins.Keys == s.pins.Keys + {name}
    && forall x :: x in s.pins && x != name ==> t.pins[x] == s.pins[x]
  }

  lemma DeletedEffect(s: Tables, id: string)
    ensures OnlyDeletes(s, MarkedDeleted(s, id), id)
  {
  }

  lemma RevokedEffect(s: Tables, id: string)
    ensures OnlyRevokes(s, MarkedRevoked(s, id), id)
  {
  }

  lemma SavedEffect(s: Tables, m: Message)
    ensures OnlySaves(s, Saved(s, m), m)
  {
  }

  /** Everything the client ever does to its store. */
  datatype Op = Save(m: Message) | Delete(id: string) | Revoke(id: string) | Trust(u: User) | Rotate(u: User)

  function Apply(s: Tables, op: Op): Tables {
    match op
    case Save(m) => Saved(s, m)
    case Delete(id) => MarkedDeleted(s, id)
    case Revoke(id) => MarkedRevoked(s, id)
    case Trust(u) => LookupOrPin(s, u).0
    case Rotate(u) => Pinned(s, u)
  }

  function RunAll(s: Tables, ops: seq<Op>): Tables
    decreases |ops|
  {
    if ops == [] then s else RunAll(Apply(s, ops[0]), ops[1..])
  }

  predicate Rotates(ops: seq<Op>, name: string) {
    exists i :: 0 <= i < |ops| && ops[i].Rotate? && ops[i].u.username == name
  }

  lemma RowsEvolveTransitive(s: Tables, t: Tables, u: Tables)
    requires RowsEvolve(s, t) && RowsEvolve(t, u)
    ensures RowsEvolve(s, u)
  {
    forall id | id in s.rows ensures id in u.rows && RowEvolves(s.rows[id], u.rows[id]) {
      assert RowEvolves(s.rows[id], t.rows[id]) && RowEvolves(t.rows[id], u.rows[id]);
    }
  }

  /** Tombstones absorb, over every run; a pin changes only by a rotation of that very name. */
  lemma {:induction false} RunEvolves(s: Tables, ops: seq<Op>)
    ensures RowsEvolve(s, RunAll(s, ops)) && (Keyed(s) ==> Keyed(RunAll(s, ops)))
    ensures forall name :: name in s.pins && !Rotates(ops, name) ==>
              name in RunAll(s, ops).pins && RunAll(s, ops).pins[name] == s.pins[name]
    decreases |ops|
  {
    if ops != [] {
      var t := Apply(s, ops[0]);
      OpEvolves(s, ops[0]);
      RunEvolves(t, ops[1..]);
      RowsEvolveTransitive(s, t, RunAll(t, ops[1..]));
      forall name | !Rotates(ops, name) ensures !Rotates(ops[1..], name) {
        assert forall i :: 0 <= i < |ops[1..]| ==> ops[1..][i] == ops[i + 1];
      }
    }
  }

  lemma OpEvolves(s: Tables, op: Op)
    ensures RowsEvolve(s, Apply(s, op)) && (Keyed(s) ==> Keyed(Apply(s, op)))
    ensures forall name :: name in s.pins && !(op.Rotate? && op.u.username == name) ==>
              name in Apply(s, op).pins && Apply(s, op).pins[name] == s.pins[name]
  {
    match op
    case Save(m) => SavedEvolves(s, m);
    case Delete(id) => MarkedDeletedEvolves(s, id);
    case Revoke(id) => MarkedRevokedEvolves(s, id);
    case Trust(u) => LookupOrPinEvolves(s, u);
    case Rotate(u) =>
  }

  lemma {:induction false} LatestExists(s: Tables, ids: set<string>)
    requires ids != {} && ids <= s.rows.Keys
    ensures exists id :: id in ids && forall x :: x in ids ==> s.rows[id].msg.sentAtMs >= s.rows[x].msg.sentAtMs
  {
    var x :| x in ids;
    var rest := ids - {x};
    if rest == {} {
      assert ids == {x};
    } else {
      LatestExists(s, rest);
      var y :| y in rest && forall z :: z in rest ==> s.rows[y].msg.sentAtMs >= s.rows[z].msg.sentAtMs;
      var best := if s.rows[x].msg.sentAtMs >= s.rows[y].msg.sentAtMs then x else y;
      forall z | z in ids ensures s.rows[best].msg.sentAtMs >= s.rows[z].msg.sentAtMs {
        assert z == x || z in rest;
      }
    }
  }

  lemma IdsAppend(ms: seq<Message>, m: Message)
    ensures Ids(ms + [m]) == Ids(ms) + {m.id}
  {
    var key := (row: Message) => row.id;
    Cuts.KeysAppend(ms, m, key);
    assert Ids(ms + [m]) == Cuts.Keys(ms + [m], key) && Ids(ms) == Cuts.Keys(ms, key);
  }

  lemma HoldsAppend(s: Tables, ms: seq<Message>, id: string)
    requires Keyed(s) && Holds(s, ms) && id in Visible(s) && id !in Ids(ms)
    ensures Holds(s, ms + [s.rows[id].msg]) && Ids(ms + [s.rows[id].msg]) == Ids(ms) + {id}
  {
    IdsAppend(ms, s.rows[id].msg);
    assert forall i :: 0 <= i < |ms| ==> ms[i].id in Ids(ms);
  }

  /** The cursor's progress: `result` lists, newest first, the visible rows that are not `left`. */
  ghost predicate Collected(s: Tables, result: seq<Message>, left: set<string>) {
    && left <= Visible(s) && Ids(result) == Visible(s) - left
    && Holds(s, result)
    && NewestFirst(result)
    && forall i, id :: 0 <= i < |result| && id in left ==> result[i].sentAtMs >= s.rows[id].msg.sentAtMs
  }

  lemma CollectNext(s: Tables, result: seq<Message>, left: set<string>, id: string)
    requires Keyed(s) && Collected(s, result, left) && id in left
    requires forall x :: x in left ==> s.rows[id].msg.sentAtMs >= s.rows[x].msg.sentAtMs
    ensures Collected(s, result + [s.rows[id].msg], left - {id})
  {
    HoldsAppend(s, result, id);
  }

  class LocalStore {
    var rows: map<string, Row>
    var pins: map<string, User>

    function Value(): Tables
      reads this
    {
      Tables(rows, pins)
    }

    constructor ()
      ensures Value() == Tables(map[], map[])
    {
      rows, pins := map[], map[];
    }

    method SaveMessage(m: Message)
      modifies this
      ensures Value() == Saved(old(Value()), m) && Evolves(old(Value()), Value())
      ensures OnlySaves(old(Value()), Value(), m)
    {
      SavedEffect(Value(), m);
      SavedEvolves(Value(), m);
      if m.id !in rows {
        rows := rows[m.id := Row(m.(revoked := false), false)];
      }
    }

    method GetMessage(id: string) returns (m: Option<Message>)
      ensures m == Get(Value(), id)
    {
      m := None;
      if id in rows && !rows[id].deleted {
        m := Some(rows[id].msg);
      }
    }

    /** SELECT ... WHERE deleted = 0 ORDER BY sent_at_ms DESC; ties in any order. */
    method ListMessages() returns (result: seq<Message>)
      requires Keyed(Value())
      ensures Holds(Value(), result) && Ids(result) == Visible(Value()) && NewestFirst(result)
    {
      result := [];
      var left := Visible(Value());
      while left != {}
        invariant Collected(Value(), result, left)
        decreases |left|
      {
        LatestExists(Value(), left);
        var id :| id in left && forall x :: x in left ==> rows[id].msg.sentAtMs >= rows[x].msg.sentAtMs;
        CollectNext(Value(), result, left, id);
        result := result + [rows[id].msg];
        left := left - {id};
      }
    }

    method MarkDeleted(id: string)
      modifies this
      ensures Value() == MarkedDeleted(old(Value()), id) && Evolves(old(Value()), Value())
      ensures OnlyDeletes(old(Value()), Value(), id)
    {
      DeletedEffect(Value(), id);
      MarkedDeletedEvolves(Value(), id);
      if id in rows {
        rows := rows[id := rows[id].(deleted := true)];
      }
    }

    method MarkRevoked(id: string)
      modifies this
      ensures Value() == MarkedRevoked(old(Value()), id) && Evolves(old(Value()), Value())
      ensures OnlyRevokes(old(Value()), Value(), id)
    {
      RevokedEffect(Value(), id);
      MarkedRevokedEvolves(Value(), id);
      if id in rows {
        rows := rows[id := rows[id].(msg := Blanked(rows[id].msg))];
      }
    }

    method SavePin(u: User)
      modifies this
      ensures Value() == Pinned(old(Value()), u)
      ensures rows == old(rows) && u.username in pins && pins[u.username] == u
      ensures forall name :: name != u.username ==>
                (name in pins <==> name in old(pins)) && (name in pins ==> pins[name] == old(pins)[name])
    {
      pins := pins[u.username := u];
    }

    method GetPin(username: string) returns (u: Option<User>)
      ensures u == if username in pins then Some(pins[username]) else None
    {
      u := if username in pins then Some(pins[username]) else None;
    }
  }

  class TrustStore {
    const store: LocalStore

    constructor (store: LocalStore)
      ensures this.store == store
    {
      this.store := store;
    }

    /** Pin on first contact, accept a matching key, refuse a changed one. */
    method LookupOrPinKey(fetched: User) returns (trusted: Option<User>)
      modifies store
      ensures (store.Value(), trusted) == LookupOrPin(old(store.Value()), fetched)
      ensures Evolves(old(store.Value()), store.Value())
      ensures trusted.Some? ==>
                fetched.username in store.pins && store.pins[fetched.username].key == trusted.value.key == fetched.key
    {
      LookupOrPinEvolves(store.Value(), fetched);
      var existing := store.GetPin(fetched.username);
      if existing.None? {
        store.SavePin(fetched);
        return Some(fetched);
      }
      trusted := if existing.value.key == fetched.key then existing else None;
    }
  }
}
