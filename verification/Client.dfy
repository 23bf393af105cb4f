/** The session object of the command-line client. What the server and the terminal answer are
    arguments; the methods change the local store. */
module Client {
  import opened Wrappers
  import opened Store
  import opened Sync
  import opened Threads
  import opened Sorting

  class Client {
    const store: LocalStore
    const trust: TrustStore
    var loggedIn: bool
    var userId: string
    var username: string

    ghost predicate Valid()
      reads this, store
    {
      trust.store == store && Keyed(store.Value())
    }

    constructor ()
      ensures Valid() && fresh(store) && !loggedIn && store.Value() == Tables(map[], map[])
    {
      var s := new LocalStore();
      store := s;
      trust := new TrustStore(s);
      loggedIn, userId, username := false, "", "";
    }

    /** `login`: `answered` is the user id of a 200 answer. The id is taken over before the keystore
        is unlocked, so a wrong password leaves it set without a session. */
    method Login(name: string, keystoreExists: bool, answered: Option<string>, unlocked: bool) returns (rc: int)
      modifies this
      ensures rc == 0 <==> keystoreExists && answered.Some? && unlocked
      ensures rc == 0 ==> loggedIn && username == name
      ensures rc != 0 ==> loggedIn == old(loggedIn) && username == old(username)
      ensures userId == if keystoreExists && answered.Some? then answered.value else old(userId)
    {
      if !keystoreExists || answered.None? {
        return 1;
      }
      userId := answered.value;
      if !unlocked {
        return 1;
      }
      username, loggedIn := name, true;
      rc := 0;
    }

    method Logout() returns (rc: int)
      modifies this
      ensures rc == (if old(loggedIn) then 0 else 1) && !loggedIn
      ensures old(loggedIn) ==> userId == "" && username == ""
    {
      if !loggedIn {
        return 1;
      }
      loggedIn, userId, username := false, "", "";
      rc := 0;
    }

    /** `lookup_user`: key route, then trust on first use. */
    method LookupUser(env: Env, name: string) returns (u: Option<User>)
      requires Valid()
      modifies store
      ensures Valid() && Evolves(old(store.Value()), store.Value())
      ensures (store.Value(), u) == LookUp(env, old(store.Value()), name)
    {
      var fetched := env.fetch(name);
      if fetched.None? {
        return None;
      }
      u := trust.LookupOrPinKey(fetched.value);
    }

    /** The sender of an inbox message, from the per-call cache or by lookup. */
    method SenderOf(env: Env, cache: map<string, User>, name: string, ghost y: Progress)
      returns (u: Option<User>, cache': map<string, User>)
      requires Valid() && y.store == store.Value() && y.cache == cache
      modifies store
      ensures Valid()
      ensures FindSender(env, y, name) == (y.(store := store.Value(), cache := cache'), u)
    {
      if name in cache {
        return Some(cache[name]), cache;
      }
      u := LookupUser(env, name);
      cache' := if u.Some? then cache[name := u.value] else cache;
    }

    /** The body of the inbox loop. */
    method PullOne(env: Env, item: Option<Message>, cache: map<string, User>, saved: nat, skipped: nat)
      returns (cache': map<string, User>, saved': nat, skipped': nat)
      requires Valid()
      modifies store
      ensures Valid()
      ensures Progress(store.Value(), cache', saved', skipped') ==
              Step(env, Progress(old(store.Value()), cache, saved, skipped), item)
    {
      cache', saved', skipped' := cache, saved, skipped;
      if item.None? {
        skipped' := skipped + 1;
        return;
      }
      var m := item.value;
      var sender;
      sender, cache' := SenderOf(env, cache, m.senderName, Progress(store.Value(), cache, saved, skipped));
      if sender.None? || |m.encKey| != KEY_BYTES {
        skipped' := skipped + 1;
        return;
      }
      var plaintext := env.open(sender.value.key, m);
      if plaintext.None? {
        skipped' := skipped + 1;
        return;
      }
      var existing := store.GetMessage(m.id);
      if existing.Some? {
        return;
      }
      store.SaveMessage(Opened(m, plaintext.value));
      saved' := saved + 1;
    }

    /** The revocation pass. */
    method RevokeListed(ids: seq<Option<string>>) returns (revoked: nat)
      requires Valid()
      modifies store
      ensures Valid() && store.Value() == RevokeAll(old(store.Value()), ids)
      ensures revoked == |NewlyRevoked(old(store.Value()), store.Value())|
    {
      revoked := 0;
      var i := 0;
      ghost var s := store.Value();
      assert NewlyRevoked(s, s) == {};
      while i < |ids| && ids[i].Some?
        invariant i <= |ids| && Valid()
        invariant RevokeAll(store.Value(), ids[i..]) == RevokeAll(s, ids)
        invariant s.rows.Keys == store.rows.Keys
        invariant forall x :: x in s.rows && s.rows[x].msg.revoked ==> store.rows[x].msg.revoked
        invariant revoked == |NewlyRevoked(s, store.Value())|
      {
        var id := ids[i].value;
        assert ids[i..][0] == ids[i] && ids[i..][1..] == ids[i + 1..];
        var existing := store.GetMessage(id);
        if existing.Some? && !existing.value.revoked {
          RevokeOneCounts(s, store.Value(), id);
          store.MarkRevoked(id);
          revoked := revoked + 1;
        }
        i := i + 1;
      }
    }

    /** `sync`: the inbox and the revoked list as the server answered them, None for a failed request. */
    method SyncNow(env: Env, inbox: Option<seq<Option<Message>>>, revokedIds: Option<seq<Option<string>>>)
      returns (rc: int, saved: nat, skipped: nat)
      requires Valid()
      modifies store
      ensures Valid()
      ensures !loggedIn || inbox.None? ==> rc == 1 && store.Value() == old(store.Value())
      ensures loggedIn && inbox.Some? ==>
                var pulled := PullAll(env, old(store.Value()), inbox.value);
                && rc == 0 && saved == pulled.saved && skipped == pulled.skipped
                && store.Value() == if revokedIds.None? then pulled.store else RevokeAll(pulled.store, revokedIds.value)
    {
      saved, skipped := 0, 0;
      if !loggedIn || inbox.None? {
        return 1, 0, 0;
      }
      var items := inbox.value;
      var cache: map<string, User> := map[];
      for i := 0 to |items|
        invariant Valid()
        invariant Progress(store.Value(), cache, saved, skipped) == PullAll(env, old(store.Value()), items[..i])
      {
        assert items[..i + 1][..i] == items[..i];
        cache, saved, skipped := PullOne(env, items[i], cache, saved, skipped);
      }
      assert items[..|items|] == items;
      if revokedIds.Some? {
        var revoked := RevokeListed(revokedIds.value);
      }
      rc := 0;
    }

    /** `send_message` after sealing: `posted` is the id the server returned, None when it refused. */
    method SendMessage(env: Env, recipient: string, draft: Message, posted: Option<string>) returns (rc: int)
      requires Valid()
      modifies store
      ensures Valid() && Evolves(old(store.Value()), store.Value())
      ensures var (looked, u) := LookUp(env, old(store.Value()), recipient);
              && (rc == 0 <==> loggedIn && u.Some? && posted.Some?)
              && store.Value() == if !loggedIn then old(store.Value())
                                  else if rc == 0 then Saved(looked, draft.(id := posted.value)) else looked
      ensures rc == 0 ==> OnlySaves(LookUp(env, old(store.Value()), recipient).0, store.Value(),
                                    draft.(id := posted.value))
    {
      if !loggedIn {
        return 1;
      }
      var u := LookupUser(env, recipient);
      if u.None? || posted.None? {
        return 1;
      }
      ghost var mid := store.Value();
      store.SaveMessage(draft.(id := posted.value));
      EvolvesTransitive(old(store.Value()), mid, store.Value());
      rc := 0;
    }

    method DeleteMessage(id: string, status: int) returns (rc: int)
      requires Valid()
      modifies store
      ensures Valid()
      ensures rc == 0 ==> OnlyDeletes(old(store.Value()), store.Value(), id)
      ensures rc != 0 ==> store.Value() == old(store.Value())
      ensures store.Value() == if rc == 0 then MarkedDeleted(old(store.Value()), id) else old(store.Value())
      ensures rc == 0 <==> loggedIn && status == 200
    {
      if loggedIn && status == 200 {
        store.MarkDeleted(id);
        return 0;
      }
      rc := 1;
    }

    /** `revoke_message`: only a visible message sent under the current name, and only once the
        server has confirmed. */
    method RevokeMessage(id: string, status: int) returns (rc: int)
      requires Valid()
      modifies store
      ensures Valid()
      ensures rc == 0 <==> loggedIn && status == 200 && Get(old(store.Value()), id).Some?
                           && Get(old(store.Value()), id).value.senderName == username
      ensures store.Value() == if rc == 0 then MarkedRevoked(old(store.Value()), id) else old(store.Value())
      ensures rc == 0 ==> OnlyRevokes(old(store.Value()), store.Value(), id)
    {
      if !loggedIn {
        return 1;
      }
      var m := store.GetMessage(id);
      if m.None? || m.value.senderName != username || status != 200 {
        return 1;
      }
      store.MarkRevoked(id);
      rc := 0;
    }

    /** `confirm_rotation`: pins without asking when there is no pin, does nothing when the key
        matches, and otherwise overwrites only on a yes. */
    method ConfirmRotation(name: string, fetched: Option<User>, answer: Option<string>) returns (rc: int)
      requires Valid()
      modifies store
      ensures Valid() && store.rows == old(store.rows)
      ensures rc == 0 <==>
                fetched.Some? && (name in old(store.pins) && old(store.pins)[name].key != fetched.value.key ==>
                                    answer.Some? && answer.value in {"y", "Y", "yes", "Yes"})
      ensures var confirmed := answer.Some? && answer.value in {"y", "Y", "yes", "Yes"};
              store.pins == if fetched.Some? && (name !in old(store.pins) ||
                                                 (old(store.pins)[name].key != fetched.value.key && confirmed))
                            then old(store.pins)[fetched.value.username := fetched.value] else old(store.pins)
    {
      if fetched.None? {
        return 1;
      }
      var pin := store.GetPin(name);
      if pin.None? {
        store.SavePin(fetched.value);
        return 0;
      }
      if pin.value.key == fetched.value.key {
        return 0;
      }
      if answer.None? ||
         (answer.value != "y" && answer.value != "Y" && answer.value != "yes" && answer.value != "Yes") {
        return 1;
      }
      store.SavePin(fetched.value);
      rc := 0;
    }

    method ListThread(peer: string) returns (thread: seq<Message>)
      requires Valid()
      ensures IsThread(store.Value(), username, peer, thread)
    {
      var all := store.ListMessages();
      thread := [];
      ghost var s := store.Value();
      for i := 0 to |all|
        invariant Holds(s, thread) && Ids(thread) == Ids(all[..i]) * ThreadIds(s, username, peer)
      {
        var m := all[i];
        assert all[..i + 1] == all[..i] + [m];
        IdsAppend(all[..i], m);
        assert Get(s, m.id) == Some(m);
        if InThread(username, peer, m) {
          assert m.id !in Ids(all[..i]);
          HoldsAppend(s, thread, m.id);
          thread := thread + [m];
        }
      }
      assert all[..|all|] == all;
      assert Ids(thread) == ThreadIds(s, username, peer);
      var time := (m: Message) => m.sentAtMs;
      SortSorts(thread, time);
      PermutationHolds(s, thread, Sort(thread, time));
      thread := Sort(thread, time);
      assert OldestFirst(thread) by {
        forall i, j | 0 <= i < j < |thread| ensures thread[i].sentAtMs <= thread[j].sentAtMs {
          assert time(thread[i]) <= time(thread[j]);
        }
      }
    }

    method ListConversations() returns (convs: seq<ConvSummary>)
      requires Valid()
      ensures IsConvList(store.Value(), username, convs)
    {
      var all := store.ListMessages();
      var byPeer: map<string, ConvSummary> := map[];
      ghost var s := store.Value();
      for i := 0 to |all|
        invariant Grouped(username, all[..i], byPeer)
      {
        assert all[..i + 1] == all[..i] + [all[i]];
        GroupNext(username, all[..i], byPeer, all[i]);
        byPeer := Regroup(username, byPeer, all[i]);
      }
      assert all[..|all|] == all;
      assert forall p :: p in byPeer ==> byPeer[p].peer == p by {
        forall p | p in byPeer ensures byPeer[p].peer == p { assert GroupedAt(username, all, byPeer, p); }
      }
      convs := Flatten(byPeer);
      forall p ensures p in byPeer <==> ThreadIds(s, username, p) != {}
               ensures p in byPeer ==> Summarises(s, username, byPeer[p]) {
        GroupedSummarises(s, username, all, byPeer, p);
      }
      forall i | 0 <= i < |convs| ensures convs[i].peer in byPeer && Summarises(s, username, convs[i]) {
        assert GroupedAt(username, all, byPeer, convs[i].peer);
      }
    }

    /** The map's entries, in any order, then sorted newest first. */
    method Flatten(byPeer: map<string, ConvSummary>) returns (convs: seq<ConvSummary>)
      requires forall p :: p in byPeer ==> byPeer[p].peer == p
      ensures ListsEntries(byPeer, convs)
    {
      var flat: seq<ConvSummary> := [];
      var left := byPeer.Keys;
      while left != {}
        invariant left <= byPeer.Keys && NoRepeats(flat)
        invariant forall c :: c in flat <==> c.peer !in left && IsEntry(byPeer, c)
        decreases |left|
      {
        var p :| p in left;
        flat := flat + [byPeer[p]];
        left := left - {p};
      }
      SortedEntries(byPeer, flat);
      convs := Sort(flat, Recency);
    }
  }
}
