/** `Client::sync`: pull the inbox, open and store what is new, then null what was revoked. */
module Sync {
  import opened Octets
  import opened Wrappers
  import opened Store

  const KEY_BYTES := 32

  /** What the world answers during one sync: the key route (None when the lookup fails), and the
      opening of a message under a sender key, with the associated data rebuilt from its fields. */
  datatype Env = Env(fetch: string -> Option<User>, open: (seq<byte>, Message) -> Option<string>)

  /** The state of the inbox loop: the store, the per-call cache of senders, and the counters. */
  datatype Progress = Progress(store: Tables, cache: map<string, User>, saved: nat, skipped: nat)

  /** `lookup_user`: the key route, then trust on first use. */
  function LookUp(env: Env, s: Tables, name: string): (Tables, Option<User>) {
    match env.fetch(name)
    case None => (s, None)
    case Some(fetched) => LookupOrPin(s, fetched)
  }

  /** `lookup_user` behind the cache; only successes are cached. */
  function FindSender(env: Env, y: Progress, name: string): (Progress, Option<User>) {
    if name in y.cache then (y, Some(y.cache[name]))
    else
      var (store, trusted) := LookUp(env, y.store, name);
      match trusted
      case None => (y.(store := store), None)
      case Some(u) => (y.(store := store, cache := y.cache[name := u]), trusted)
  }

  function Opened(m: Message, plaintext: string): Message {
    m.(plaintext := plaintext, verified := true)
  }

  /** One inbox item; None stands for JSON that does not parse as a message. */
  function Step(env: Env, y: Progress, item: Option<Message>): Progress {
    match item
    case None => y.(skipped := y.skipped + 1)
    case Some(m) =>
      var (z, sender) := FindSender(env, y, m.senderName);
      if sender.None? || |m.encKey| != KEY_BYTES then z.(skipped := z.skipped + 1)
      else
        match env.open(sender.value.key, m)
        case None => z.(skipped := z.skipped + 1)
        case Some(plaintext) =>
          if Get(z.store, m.id).Some? then z
          else z.(store := Saved(z.store, Opened(m, plaintext)), saved := z.saved + 1)
  }

  function PullAll(env: Env, s: Tables, items: seq<Option<Message>>): Progress {
    if items == [] then Progress(s, map[], 0, 0)
    else Step(env, PullAll(env, s, items[..|items| - 1]), items[|items| - 1])
  }

  /** One revoked id. */
  function RevokeOne(s: Tables, id: string): Tables {
    if Get(s, id).Some? && !Get(s, id).value.revoked then MarkedRevoked(s, id) else s
  }

  /** The revoked list; an entry that is not a string ends the pass. */
  function RevokeAll(s: Tables, ids: seq<Option<string>>): Tables
    decreases |ids|
  {
    if ids == [] || ids[0].None? then s else RevokeAll(RevokeOne(s, ids[0].value), ids[1..])
  }

  // ---- what a pull does ----

  /** The key of the message's sender is settled: whoever the key route names has a pin. */
  ghost predicate Looked(env: Env, s: Tables, m: Message) {
    env.fetch(m.senderName).Some? ==> env.fetch(m.senderName).value.username in s.pins
  }

  /** The message opens under its sender's pin. */
  predicate Accepted(env: Env, s: Tables, m: Message) {
    match env.fetch(m.senderName)
    case None => false
    case Some(u) =>
      && u.username in s.pins && s.pins[u.username].key == u.key
      && |m.encKey| == KEY_BYTES
      && env.open(u.key, m).Some?
  }

  /** What is cached is pinned. */
  ghost predicate CacheSound(env: Env, y: Progress) {
    forall n :: n in y.cache ==>
      match env.fetch(n)
      case None => false
      case Some(u) => u.username in y.store.pins && y.store.pins[u.username].key == u.key == y.cache[n].key
  }

  lemma StepEffect(env: Env, y: Progress, item: Option<Message>)
    requires CacheSound(env, y)
    ensures var z := Step(env, y, item);
            && CacheSound(env, z) && Evolves(y.store, z.store)
            && (forall id :: id in y.store.rows ==> z.store.rows[id] == y.store.rows[id])
            && (item.None? ==> z.store == y.store && z.saved == y.saved)
            && (item.Some? ==>
                 var m := item.value;
                 && Looked(env, z.store, m)
                 && z.store.rows.Keys == y.store.rows.Keys + (if Accepted(env, z.store, m) then {m.id} else {})
                 && z.saved == y.saved + (if Accepted(env, z.store, m) && Get(y.store, m.id).None? then 1 else 0)
                 && (m.id in z.store.rows && m.id !in y.store.rows ==>
                      var text := env.open(env.fetch(m.senderName).value.key, m).value;
                      z.store.rows[m.id] == Row(Opened(m, text).(revoked := false), false)))
  {
    if item.Some? {
      var m := item.value;
      FindSenderEffect(env, y, m.senderName);
      var (z, sender) := FindSender(env, y, m.senderName);
      if Accepted(env, z.store, m) {
        var readable := Opened(m, env.open(sender.value.key, m).value);
        SavedEvolves(z.store, readable);
        EvolvesTransitive(y.store, z.store, Saved(z.store, readable));
      }
    }
  }

  lemma FindSenderEffect(env: Env, y: Progress, name: string)
    requires CacheSound(env, y)
    ensures var (z, sender) := FindSender(env, y, name);
            && CacheSound(env, z) && Evolves(y.store, z.store) && z.store.rows == y.store.rows
            && z.saved == y.saved && z.skipped == y.skipped
            && (env.fetch(name).Some? ==> env.fetch(name).value.username in z.store.pins)
            && (sender.Some? <==> env.fetch(name).Some? &&
                                  z.store.pins[env.fetch(name).value.username].key == env.fetch(name).value.key)
            && (sender.Some? ==> sender.value.key == env.fetch(name).value.key)
  {
    if name !in y.cache && env.fetch(name).Some? {
      LookupOrPinEvolves(y.store, env.fetch(name).value);
    }
  }

  lemma AcceptedStable(env: Env, s: Tables, t: Tables, m: Message)
    requires Looked(env, s, m) && PinsKept(s, t)
    ensures Looked(env, t, m) && Accepted(env, t, m) == Accepted(env, s, m)
  {
  }

  /** Item i is a message with this id that opens under its sender's pin. */
  ghost predicate OffersAt(env: Env, s: Tables, items: seq<Option<Message>>, id: string, i: int) {
    0 <= i < |items| && items[i].Some? && items[i].value.id == id && Accepted(env, s, items[i].value)
  }

  ghost predicate Offers(env: Env, s: Tables, items: seq<Option<Message>>, id: string) {
    exists i :: OffersAt(env, s, items, id, i)
  }

  /** The row a pull makes of a message it opened. */
  ghost predicate MadeFrom(env: Env, s: Tables, items: seq<Option<Message>>, id: string, row: Row) {
    exists i :: OffersAt(env, s, items, id, i) &&
      var m := items[i].value;
      row == Row(Opened(m, env.open(env.fetch(m.senderName).value.key, m).value).(revoked := false), false)
  }

  /** The result of a pull, said without its loop: the old rows as they were, and one visible row
      with the decrypted text for every other message that opens under its sender's pin. */
  ghost predicate PullResult(env: Env, s: Tables, items: seq<Option<Message>>, t: Tables) {
    && Evolves(s, t)
    && (forall i :: 0 <= i < |items| && items[i].Some? ==> Looked(env, t, items[i].value))
    && (forall id :: id in s.rows ==> id in t.rows && t.rows[id] == s.rows[id])
    && (forall id :: id in t.rows <==> id in s.rows || Offers(env, t, items, id))
    && (forall id :: id in t.rows && id !in s.rows ==> MadeFrom(env, t, items, id, t.rows[id]))
  }

  lemma OffersGrow(env: Env, t: Tables, u: Tables, items: seq<Option<Message>>, item: Option<Message>, id: string)
    requires PinsKept(t, u) && (forall i :: 0 <= i < |items| && items[i].Some? ==> Looked(env, t, items[i].value))
    requires item.Some? ==> Looked(env, u, item.value)
    ensures Offers(env, u, items + [item], id) <==>
            Offers(env, t, items, id) || (item.Some? && item.value.id == id && Accepted(env, u, item.value))
    ensures forall row :: MadeFrom(env, t, items, id, row) ==> MadeFrom(env, u, items + [item], id, row)
  {
    var all := items + [item];
    forall i | 0 <= i < |items|
      ensures OffersAt(env, u, all, id, i) == OffersAt(env, t, items, id, i)
    {
      assert all[i] == items[i];
      if items[i].Some? { AcceptedStable(env, t, u, items[i].value); }
    }
    if item.Some? && item.value.id == id && Accepted(env, u, item.value) {
      assert OffersAt(env, u, all, id, |items|);
    }
    if Offers(env, t, items, id) {
      var i :| OffersAt(env, t, items, id, i);
      assert OffersAt(env, u, all, id, i);
    }
    forall row | MadeFrom(env, t, items, id, row) ensures MadeFrom(env, u, all, id, row) {
      var i :| OffersAt(env, t, items, id, i) &&
        (var m := items[i].value;
         row == Row(Opened(m, env.open(env.fetch(m.senderName).value.key, m).value).(revoked := false), false));
      assert OffersAt(env, u, all, id, i);
    }
  }

  lemma {:induction false} PullEffect(env: Env, s: Tables, items: seq<Option<Message>>)
    ensures CacheSound(env, PullAll(env, s, items))
    ensures PullResult(env, s, items, PullAll(env, s, items).store)
  {
    if items != [] {
      var front, item := items[..|items| - 1], items[|items| - 1];
      PullEffect(env, s, front);
      assert items == front + [item];
      PullNext(env, s, front, PullAll(env, s, front), item);
    }
  }

  lemma PullNext(env: Env, s: Tables, front: seq<Option<Message>>, y: Progress, item: Option<Message>)
    requires CacheSound(env, y) && PullResult(env, s, front, y.store)
    ensures CacheSound(env, Step(env, y, item)) && PullResult(env, s, front + [item], Step(env, y, item).store)
  {
    var z := Step(env, y, item);
    StepEffect(env, y, item);
    EvolvesTransitive(s, y.store, z.store);
    var items := front + [item];
    forall i | 0 <= i < |items| && items[i].Some? ensures Looked(env, z.store, items[i].value) {
      if i < |front| { AcceptedStable(env, y.store, z.store, front[i].value); }
    }
    forall id ensures id in z.store.rows <==> id in s.rows || Offers(env, z.store, items, id)
              ensures id in z.store.rows && id !in s.rows ==> MadeFrom(env, z.store, items, id, z.store.rows[id]) {
      PullNextRow(env, s, front, y, item, id);
    }
  }

  lemma PullNextRow(
    env: Env, s: Tables, front: seq<Option<Message>>, y: Progress, item: Option<Message>, id: string
  )
    requires CacheSound(env, y) && PullResult(env, s, front, y.store)
    ensures var t := Step(env, y, item).store;
            && (id in t.rows <==> id in s.rows || Offers(env, t, front + [item], id))
            && (id in t.rows && id !in s.rows ==> MadeFrom(env, t, front + [item], id, t.rows[id]))
  {
    var t := Step(env, y, item).store;
    StepEffect(env, y, item);
    OffersGrow(env, y.store, t, front, item, id);
    if id in y.store.rows && id !in s.rows {
      assert MadeFrom(env, y.store, front, id, y.store.rows[id]);
    } else if id in t.rows && id !in s.rows {
      assert OffersAt(env, t, front + [item], id, |front|);
    }
  }

  // ---- the count of new messages ----

  /** Some message that opens is one the user deleted locally. */
  ghost predicate OffersDeleted(env: Env, s: Tables, t: Tables, items: seq<Option<Message>>) {
    exists id :: id in s.rows && s.rows[id].deleted && Offers(env, t, items, id)
  }

  /** `saved` counts the rows that were inserted, and each locally deleted message that is offered
      again as well, since the existence check does not see deleted rows. */
  lemma {:induction false} SavedCount(env: Env, s: Tables, items: seq<Option<Message>>)
    ensures var y := PullAll(env, s, items);
            && y.saved >= |y.store.rows| - |s.rows|
            && (y.saved == |y.store.rows| - |s.rows| <==> !OffersDeleted(env, s, y.store, items))
  {
    var y := PullAll(env, s, items);
    if items == [] {
      assert !OffersDeleted(env, s, y.store, items);
    } else {
      var front, item := items[..|items| - 1], items[|items| - 1];
      SavedCount(env, s, front);
      PullEffect(env, s, front);
      assert items == front + [item];
      SavedCountNext(env, s, front, PullAll(env, s, front), item);
    }
  }

  lemma OffersDeletedGrow(env: Env, s: Tables, front: seq<Option<Message>>, y: Progress, item: Option<Message>)
    requires CacheSound(env, y) && PullResult(env, s, front, y.store)
    ensures var z := Step(env, y, item);
            OffersDeleted(env, s, z.store, front + [item]) <==>
            || OffersDeleted(env, s, y.store, front)
            || (item.Some? && Accepted(env, z.store, item.value)
                && item.value.id in s.rows && s.rows[item.value.id].deleted)
  {
    var z := Step(env, y, item);
    StepEffect(env, y, item);
    forall id ensures Offers(env, z.store, front + [item], id) <==>
        Offers(env, y.store, front, id) || (item.Some? && item.value.id == id && Accepted(env, z.store, item.value))
    {
      OffersGrow(env, y.store, z.store, front, item, id);
    }
  }

  /** A row is deleted after a pull only if it was before. */
  lemma DeletedBefore(env: Env, s: Tables, items: seq<Option<Message>>, t: Tables, id: string)
    requires PullResult(env, s, items, t) && id in t.rows
    ensures t.rows[id].deleted <==> id in s.rows && s.rows[id].deleted
  {
    if id !in s.rows { assert MadeFrom(env, t, items, id, t.rows[id]); }
  }

  predicate Takes(env: Env, z: Progress, item: Option<Message>) {
    item.Some? && Accepted(env, z.store, item.value)
  }

  lemma StepCounts(env: Env, y: Progress, item: Option<Message>)
    requires CacheSound(env, y)
    ensures var z := Step(env, y, item);
            && z.saved == y.saved + (if Takes(env, z, item) && Get(y.store, item.value.id).None? then 1 else 0)
            && |z.store.rows| ==
               |y.store.rows| + (if Takes(env, z, item) && item.value.id !in y.store.rows then 1 else 0)
  {
    var z := Step(env, y, item);
    StepEffect(env, y, item);
    if item.Some? { RowsGrow(y.store, z.store, item.value.id, Takes(env, z, item)); }
  }

  lemma RowsGrow(s: Tables, t: Tables, id: string, added: bool)
    requires t.rows.Keys == s.rows.Keys + (if added then {id} else {})
    ensures |t.rows| == |s.rows| + (if added && id !in s.rows then 1 else 0)
  {
    assert |t.rows| == |t.rows.Keys| && |s.rows| == |s.rows.Keys|;
    if added && id !in s.rows {
      assert |s.rows.Keys + {id}| == |s.rows.Keys| + 1;
    } else {
      assert t.rows.Keys == s.rows.Keys;
    }
  }

  lemma SavedCountNext(env: Env, s: Tables, front: seq<Option<Message>>, y: Progress, item: Option<Message>)
    requires CacheSound(env, y) && PullResult(env, s, front, y.store)
    requires y.saved >= |y.store.rows| - |s.rows|
    requires y.saved == |y.store.rows| - |s.rows| <==> !OffersDeleted(env, s, y.store, front)
    ensures var z := Step(env, y, item);
            && z.saved >= |z.store.rows| - |s.rows|
            && (z.saved == |z.store.rows| - |s.rows| <==> !OffersDeleted(env, s, z.store, front + [item]))
  {
    StepCounts(env, y, item);
    OffersDeletedGrow(env, s, front, y, item);
    if Takes(env, Step(env, y, item), item) && item.value.id in y.store.rows {
      DeletedBefore(env, s, front, y.store, item.value.id);
    } else if item.Some? && item.value.id in s.rows {
      assert item.value.id in y.store.rows;
    }
  }

  /** The entries that open under their sender's pin. */
  ghost function Taken(env: Env, t: Tables, items: seq<Option<Message>>): set<int> {
    set i | 0 <= i < |items| && items[i].Some? && Accepted(env, t, items[i].value)
  }

  /** `skipped` counts every other entry. */
  lemma {:induction false} SkippedCount(env: Env, s: Tables, items: seq<Option<Message>>)
    ensures var y := PullAll(env, s, items); y.skipped + |Taken(env, y.store, items)| == |items|
  {
    var y := PullAll(env, s, items);
    if items == [] {
      assert Taken(env, y.store, items) == {};
    } else {
      var front, item := items[..|items| - 1], items[|items| - 1];
      SkippedCount(env, s, front);
      PullEffect(env, s, front);
      assert items == front + [item];
      SkippedNext(env, s, front, PullAll(env, s, front), item);
    }
  }

  lemma SkippedNext(env: Env, s: Tables, front: seq<Option<Message>>, y: Progress, item: Option<Message>)
    requires CacheSound(env, y) && PullResult(env, s, front, y.store)
    requires y.skipped + |Taken(env, y.store, front)| == |front|
    ensures var z := Step(env, y, item); z.skipped + |Taken(env, z.store, front + [item])| == |front| + 1
  {
    StepEffect(env, y, item);
    SkippedStep(env, y, item);
    TakenNext(env, y.store, Step(env, y, item).store, front, item);
  }

  lemma TakenNext(env: Env, t: Tables, u: Tables, front: seq<Option<Message>>, item: Option<Message>)
    requires PinsKept(t, u) && (forall i :: 0 <= i < |front| && front[i].Some? ==> Looked(env, t, front[i].value))
    ensures |Taken(env, u, front + [item])| ==
            |Taken(env, t, front)| + (if item.Some? && Accepted(env, u, item.value) then 1 else 0)
  {
    var items := front + [item];
    forall i | 0 <= i < |front| ensures i in Taken(env, u, items) <==> i in Taken(env, t, front) {
      if front[i].Some? { AcceptedStable(env, t, u, front[i].value); }
    }
    assert items[|front|] == item;
    if item.Some? && Accepted(env, u, item.value) {
      assert Taken(env, u, items) == Taken(env, t, front) + {|front|};
    } else {
      assert Taken(env, u, items) == Taken(env, t, front);
    }
  }

  lemma SkippedStep(env: Env, y: Progress, item: Option<Message>)
    requires CacheSound(env, y)
    ensures var z := Step(env, y, item); z.skipped == y.skipped + (if Takes(env, z, item) then 0 else 1)
  {
    if item.Some? { FindSenderEffect(env, y, item.value.senderName); }
  }

  // ---- pins during a pull ----

  /** The key route names the user it was asked for. */
  ghost predicate RouteCoherent(env: Env) {
    forall name :: env.fetch(name).Some? ==> env.fetch(name).value.username == name
  }

  /** Pins come from before or from the key route. */
  ghost predicate PinsFrom(env: Env, s: Tables, t: Tables) {
    forall name :: name in t.pins ==>
      (name in s.pins && t.pins[name] == s.pins[name]) || Some(t.pins[name]) == env.fetch(name)
  }

  lemma {:induction false} PullPinsFrom(env: Env, s: Tables, items: seq<Option<Message>>)
    requires RouteCoherent(env)
    ensures PinsFrom(env, s, PullAll(env, s, items).store)
  {
    if items != [] {
      var front, item := items[..|items| - 1], items[|items| - 1];
      PullPinsFrom(env, s, front);
      StepPinsFrom(env, s, PullAll(env, s, front), item);
    }
  }

  lemma StepPinsFrom(env: Env, s: Tables, y: Progress, item: Option<Message>)
    requires RouteCoherent(env) && PinsFrom(env, s, y.store)
    ensures PinsFrom(env, s, Step(env, y, item).store)
  {
    if item.Some? {
      FindPinsFrom(env, s, y, item.value.senderName);
      assert Step(env, y, item).store.pins == FindSender(env, y, item.value.senderName).0.store.pins;
    }
  }

  lemma FindPinsFrom(env: Env, s: Tables, y: Progress, name: string)
    requires RouteCoherent(env) && PinsFrom(env, s, y.store)
    ensures PinsFrom(env, s, FindSender(env, y, name).0.store)
  {
  }

  /** What can be said of a message before the pull: its sender is known, any pin of the sender agrees
      with the key route, and the message opens under that key. */
  predicate OpensAtStart(env: Env, s: Tables, m: Message) {
    match env.fetch(m.senderName)
    case None => false
    case Some(u) =>
      && (u.username in s.pins ==> s.pins[u.username].key == u.key)
      && |m.encKey| == KEY_BYTES
      && env.open(u.key, m).Some?
  }

  lemma AcceptedFromStart(env: Env, s: Tables, t: Tables, m: Message)
    requires RouteCoherent(env) && PinsKept(s, t) && PinsFrom(env, s, t) && Looked(env, t, m)
    ensures Accepted(env, t, m) <==> OpensAtStart(env, s, m)
  {
  }

  /** The condition of `SavedCount`, told beforehand: with a key route that names whom it was asked
      for, `saved` is the number of rows inserted exactly when no entry that will open is one the user
      deleted locally. */
  lemma SavedCountAhead(env: Env, s: Tables, items: seq<Option<Message>>)
    requires RouteCoherent(env)
    ensures var y := PullAll(env, s, items);
            y.saved == |y.store.rows| - |s.rows| <==>
            forall i :: 0 <= i < |items| && items[i].Some? && OpensAtStart(env, s, items[i].value) ==>
              items[i].value.id in s.rows ==> !s.rows[items[i].value.id].deleted
  {
    var t := PullAll(env, s, items).store;
    SavedCount(env, s, items);
    PullEffect(env, s, items);
    PullPinsFrom(env, s, items);
    forall i | 0 <= i < |items| && items[i].Some?
      ensures OffersAt(env, t, items, items[i].value.id, i) <==> OpensAtStart(env, s, items[i].value)
    {
      AcceptedFromStart(env, s, t, items[i].value);
    }
    if i :| 0 <= i < |items| && items[i].Some? && OpensAtStart(env, s, items[i].value)
            && items[i].value.id in s.rows && s.rows[items[i].value.id].deleted {
      assert OffersAt(env, t, items, items[i].value.id, i);
      assert Offers(env, t, items, items[i].value.id);
    }
  }

  // ---- repeating a sync ----

  /** Nothing is left to do for the item. */
  ghost predicate Settled(env: Env, t: Tables, item: Option<Message>) {
    item.Some? ==> Looked(env, t, item.value) && (Accepted(env, t, item.value) ==> item.value.id in t.rows)
  }

  lemma {:induction false} SettledPullIsIdle(env: Env, t: Tables, items: seq<Option<Message>>)
    requires forall i :: 0 <= i < |items| ==> Settled(env, t, items[i])
    ensures PullAll(env, t, items).store == t && CacheSound(env, PullAll(env, t, items))
  {
    if items != [] {
      var front, item := items[..|items| - 1], items[|items| - 1];
      SettledPullIsIdle(env, t, front);
      var y := PullAll(env, t, front);
      assert Settled(env, t, item);
      StepEffect(env, y, item);
      SettledStepIsIdle(env, y, item);
    }
  }

  lemma SettledStepIsIdle(env: Env, y: Progress, item: Option<Message>)
    requires CacheSound(env, y) && Settled(env, y.store, item)
    ensures Step(env, y, item).store == y.store
  {
    if item.Some? {
      var m := item.value;
      FindSenderEffect(env, y, m.senderName);
      assert FindSender(env, y, m.senderName).0.store == y.store;
    }
  }

  /** Pulling the same inbox again changes neither the messages nor the pins. */
  lemma PullIsIdempotent(env: Env, s: Tables, items: seq<Option<Message>>)
    ensures var t := PullAll(env, s, items).store; PullAll(env, t, items).store == t
  {
    PullEffect(env, s, items);
    var t := PullAll(env, s, items).store;
    forall i | 0 <= i < |items| ensures Settled(env, t, items[i]) {
      if items[i].Some? && Accepted(env, t, items[i].value) {
        assert OffersAt(env, t, items, items[i].value.id, i);
      }
    }
    SettledPullIsIdle(env, t, items);
  }

  // ---- the revocation pass ----

  /** The id is listed before the first entry that is not a string. */
  predicate ListedIn(ids: seq<Option<string>>, id: string)
    decreases |ids|
  {
    ids != [] && ids[0].Some? && (ids[0].value == id || ListedIn(ids[1..], id))
  }

  /** Exactly the visible, listed rows are blanked; everything else is as before. */
  lemma {:induction false} RevokeEffect(s: Tables, ids: seq<Option<string>>)
    ensures var t := RevokeAll(s, ids);
            && t.rows.Keys == s.rows.Keys && t.pins == s.pins && Evolves(s, t)
            && forall id :: id in s.rows ==>
                 t.rows[id] == if !s.rows[id].deleted && !s.rows[id].msg.revoked && ListedIn(ids, id)
                               then s.rows[id].(msg := Blanked(s.rows[id].msg)) else s.rows[id]
    decreases |ids|
  {
    if ids != [] && ids[0].Some? {
      var u := RevokeOne(s, ids[0].value);
      RevokeOneEffect(s, ids[0].value);
      RevokeEffect(u, ids[1..]);
      EvolvesTransitive(s, u, RevokeAll(u, ids[1..]));
    }
  }

  lemma RevokeOneEffect(s: Tables, id: string)
    ensures var t := RevokeOne(s, id);
            && t.rows.Keys == s.rows.Keys && t.pins == s.pins && Evolves(s, t)
            && forall x :: x in s.rows ==>
                 t.rows[x] == if !s.rows[x].deleted && !s.rows[x].msg.revoked && x == id
                              then s.rows[x].(msg := Blanked(s.rows[x].msg)) else s.rows[x]
  {
    MarkedRevokedEvolves(s, id);
  }

  /** The visible rows whose text one of the listed ids takes away. */
  function NewlyRevoked(s: Tables, t: Tables): set<string> {
    set id | id in s.rows && id in t.rows && t.rows[id].msg.revoked && !s.rows[id].msg.revoked
  }

  lemma RevokeOneCounts(s: Tables, t: Tables, id: string)
    requires s.rows.Keys == t.rows.Keys && forall x :: x in s.rows && s.rows[x].msg.revoked ==> t.rows[x].msg.revoked
    requires id in t.rows && !t.rows[id].msg.revoked
    ensures |NewlyRevoked(s, MarkedRevoked(t, id))| == |NewlyRevoked(s, t)| + 1
    ensures MarkedRevoked(t, id).rows.Keys == t.rows.Keys
  {
    assert NewlyRevoked(s, MarkedRevoked(t, id)) == NewlyRevoked(s, t) + {id};
  }

  lemma RevokeIsIdempotent(s: Tables, ids: seq<Option<string>>)
    ensures var t := RevokeAll(s, ids); RevokeAll(t, ids) == t
  {
    var t := RevokeAll(s, ids);
    RevokeEffect(s, ids);
    RevokeEffect(t, ids);
    assert RevokeAll(t, ids).rows == t.rows;
  }
}
