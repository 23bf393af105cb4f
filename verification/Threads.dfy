/** Threads and conversation summaries over the local store, and the chat loop's change detector. */
module Threads {
  import opened Wrappers
  import opened Store
  import opened Sorting
  import Cuts

  datatype ConvSummary = ConvSummary(peer: string, lastSentAtMs: int, count: nat)

  /** `list_conversations`: whom a message is grouped under. */
  function PeerOf(me: string, m: Message): Option<string> {
    if m.senderName == me then Some(m.recipientName)
    else if m.recipientName == me then Some(m.senderName)
    else None
  }

  /** `list_thread`: the messages between the two, in either direction. */
  predicate InThread(me: string, peer: string, m: Message) {
    (m.senderName == me && m.recipientName == peer) || (m.senderName == peer && m.recipientName == me)
  }

  /** The two classifications are the same one. */
  lemma PeerIffInThread(me: string, peer: string, m: Message)
    ensures PeerOf(me, m) == Some(peer) <==> InThread(me, peer, m)
  {
  }

  function ThreadIds(s: Tables, me: string, peer: string): set<string> {
    set id | id in s.rows && !s.rows[id].deleted && InThread(me, peer, s.rows[id].msg)
  }

  predicate OldestFirst(ms: seq<Message>) {
    forall i, j :: 0 <= i < j < |ms| ==> ms[i].sentAtMs <= ms[j].sentAtMs
  }

  /** A possible result of `list_thread`: exactly the visible messages with the peer, oldest first;
      messages of the same time in any order. */
  predicate IsThread(s: Tables, me: string, peer: string, thread: seq<Message>) {
    Holds(s, thread) && Ids(thread) == ThreadIds(s, me, peer) && OldestFirst(thread)
  }

  lemma IdsSize(ms: seq<Message>)
    requires DistinctIds(ms)
    ensures |Ids(ms)| == |ms|
  {
    var key := (m: Message) => m.id;
    Cuts.KeysSize(ms, key);
    assert Ids(ms) == Cuts.Keys(ms, key);
  }

  /** Sorting keeps what a list holds. */
  lemma PermutationHolds(s: Tables, a: seq<Message>, b: seq<Message>)
    requires Holds(s, a) && multiset(a) == multiset(b)
    ensures Holds(s, b) && Ids(b) == Ids(a)
  {
    assert NoRepeats(a) by {
      forall i, j | 0 <= i < j < |a| ensures a[i] != a[j] { assert a[i].id != a[j].id; }
    }
    PermutationNoRepeats(a, b);
    forall i | 0 <= i < |b| ensures Get(s, b[i].id) == Some(b[i]) {
      assert b[i] in a;
    }
    forall i, j | 0 <= i < j < |b| ensures b[i].id != b[j].id {
      assert b[i] != b[j];
      assert Get(s, b[i].id) == Some(b[i]) && Get(s, b[j].id) == Some(b[j]);
    }
    forall id ensures id in Ids(a) <==> id in Ids(b) {
      if id in Ids(a) {
        var i :| 0 <= i < |a| && a[i].id == id;
        assert a[i] in b;
        var j :| 0 <= j < |b| && b[j] == a[i];
      }
      if id in Ids(b) {
        var i :| 0 <= i < |b| && b[i].id == id;
        assert b[i] in a;
        var j :| 0 <= j < |a| && a[j] == b[i];
      }
    }
  }

  // ---- summaries ----

  /** The number of messages of the list that belong to the peer. */
  function CountOf(me: string, peer: string, ms: seq<Message>): nat {
    if ms == [] then 0
    else CountOf(me, peer, ms[..|ms| - 1]) + (if PeerOf(me, ms[|ms| - 1]) == Some(peer) then 1 else 0)
  }

  lemma {:induction false} CountIsSize(s: Tables, me: string, peer: string, ms: seq<Message>)
    requires Holds(s, ms)
    ensures CountOf(me, peer, ms) == |ThreadIds(s, me, peer) * Ids(ms)|
  {
    if ms == [] {
      assert ThreadIds(s, me, peer) * Ids(ms) == {};
    } else {
      var front, last := ms[..|ms| - 1], ms[|ms| - 1];
      assert ms == front + [last];
      CountIsSize(s, me, peer, front);
      CountNext(s, me, peer, front, last);
    }
  }

  lemma CountNext(s: Tables, me: string, peer: string, front: seq<Message>, last: Message)
    requires Holds(s, front + [last])
    ensures |ThreadIds(s, me, peer) * Ids(front + [last])| ==
            |ThreadIds(s, me, peer) * Ids(front)| + (if PeerOf(me, last) == Some(peer) then 1 else 0)
  {
    var ms, t := front + [last], ThreadIds(s, me, peer);
    IdsAppend(front, last);
    PeerIffInThread(me, peer, last);
    assert ms[|front|] == last && Get(s, last.id) == Some(last);
    assert last.id !in Ids(front) by { assert forall i :: 0 <= i < |front| ==> ms[i] == front[i]; }
    if PeerOf(me, last) == Some(peer) {
      assert t * Ids(ms) == t * Ids(front) + {last.id};
    } else {
      assert t * Ids(ms) == t * Ids(front);
    }
  }

  /** The latest time of the peer's messages in the list, and 0 when there is none later: the summary
      starts at 0 and only ever takes a larger time. */
  ghost predicate IsLast(me: string, peer: string, ms: seq<Message>, t: int) {
    && t >= 0
    && (forall i :: 0 <= i < |ms| && PeerOf(me, ms[i]) == Some(peer) ==> ms[i].sentAtMs <= t)
    && (t == 0 || exists i :: 0 <= i < |ms| && PeerOf(me, ms[i]) == Some(peer) && ms[i].sentAtMs == t)
  }

  /** The map after grouping a list. */
  ghost predicate Grouped(me: string, ms: seq<Message>, byPeer: map<string, ConvSummary>) {
    forall p :: GroupedAt(me, ms, byPeer, p)
  }

  lemma IsLastNext(me: string, peer: string, ms: seq<Message>, t: int, m: Message)
    requires IsLast(me, peer, ms, t)
    ensures PeerOf(me, m) == Some(peer) ==> IsLast(me, peer, ms + [m], if m.sentAtMs > t then m.sentAtMs else t)
    ensures PeerOf(me, m) != Some(peer) ==> IsLast(me, peer, ms + [m], t)
  {
    var all := ms + [m];
    assert all[|ms|] == m;
    assert forall i :: 0 <= i < |ms| ==> all[i] == ms[i];
  }

  lemma {:induction false} NoneYet(me: string, peer: string, ms: seq<Message>)
    requires CountOf(me, peer, ms) == 0
    ensures forall i :: 0 <= i < |ms| ==> PeerOf(me, ms[i]) != Some(peer)
    ensures IsLast(me, peer, ms, 0)
  {
    if ms != [] {
      NoneYet(me, peer, ms[..|ms| - 1]);
      assert forall i :: 0 <= i < |ms| - 1 ==> ms[..|ms| - 1][i] == ms[i];
    }
  }

  /** The loop body of the grouping: the entry is created empty on first use. */
  function Regroup(me: string, byPeer: map<string, ConvSummary>, m: Message): map<string, ConvSummary> {
    match PeerOf(me, m)
    case None => byPeer
    case Some(p) =>
      var was := if p in byPeer then byPeer[p] else ConvSummary(p, 0, 0);
      byPeer[p := ConvSummary(p, if m.sentAtMs > was.lastSentAtMs then m.sentAtMs else was.lastSentAtMs, was.count + 1)]
  }

  ghost predicate GroupedAt(me: string, ms: seq<Message>, byPeer: map<string, ConvSummary>, p: string) {
    && (p in byPeer <==> CountOf(me, p, ms) > 0)
    && (p in byPeer ==>
          byPeer[p].peer == p && byPeer[p].count == CountOf(me, p, ms) && IsLast(me, p, ms, byPeer[p].lastSentAtMs))
  }

  lemma GroupNextAt(me: string, ms: seq<Message>, byPeer: map<string, ConvSummary>, m: Message, p: string)
    requires GroupedAt(me, ms, byPeer, p)
    ensures GroupedAt(me, ms + [m], Regroup(me, byPeer, m), p)
  {
    var all := ms + [m];
    assert all[..|all| - 1] == ms && all[|all| - 1] == m;
    if p in byPeer {
      IsLastNext(me, p, ms, byPeer[p].lastSentAtMs, m);
    } else {
      NoneYet(me, p, ms);
      IsLastNext(me, p, ms, 0, m);
    }
  }

  lemma GroupNext(me: string, ms: seq<Message>, byPeer: map<string, ConvSummary>, m: Message)
    requires Grouped(me, ms, byPeer)
    ensures Grouped(me, ms + [m], Regroup(me, byPeer, m))
  {
    forall p ensures GroupedAt(me, ms + [m], Regroup(me, byPeer, m), p) {
      assert GroupedAt(me, ms, byPeer, p);
      GroupNextAt(me, ms, byPeer, m, p);
    }
  }

  predicate IsEntry(byPeer: map<string, ConvSummary>, c: ConvSummary) {
    c.peer in byPeer && byPeer[c.peer] == c
  }

  function Recency(c: ConvSummary): int {
    -c.lastSentAtMs
  }

  /** The values of the map, each once, newest first. */
  ghost predicate ListsEntries(byPeer: map<string, ConvSummary>, convs: seq<ConvSummary>) {
    && (forall i, j :: 0 <= i < j < |convs| ==> convs[i].peer != convs[j].peer)
    && (forall i, j :: 0 <= i < j < |convs| ==> convs[i].lastSentAtMs >= convs[j].lastSentAtMs)
    && (forall i :: 0 <= i < |convs| ==> IsEntry(byPeer, convs[i]))
    && (forall p :: p in byPeer ==> exists i :: 0 <= i < |convs| && convs[i].peer == p)
  }

  lemma SortedEntries(byPeer: map<string, ConvSummary>, flat: seq<ConvSummary>)
    requires NoRepeats(flat) && (forall c :: c in flat <==> IsEntry(byPeer, c))
    requires forall p :: p in byPeer ==> byPeer[p].peer == p
    ensures ListsEntries(byPeer, Sort(flat, Recency))
  {
    var convs := Sort(flat, Recency);
    SortSorts(flat, Recency);
    PermutationNoRepeats(flat, convs);
    forall i, j | 0 <= i < j < |convs|
      ensures convs[i].peer != convs[j].peer && convs[i].lastSentAtMs >= convs[j].lastSentAtMs
    {
      assert Recency(convs[i]) <= Recency(convs[j]);
      assert IsEntry(byPeer, convs[i]) && IsEntry(byPeer, convs[j]) && convs[i] != convs[j];
    }
    forall p | p in byPeer ensures exists i :: 0 <= i < |convs| && convs[i].peer == p {
      assert IsEntry(byPeer, byPeer[p]) && byPeer[p] in convs;
      var i :| 0 <= i < |convs| && convs[i] == byPeer[p];
    }
  }

  /** A possible result of `list_conversations`: one summary for each peer with a thread, with the
      thread's length and latest time, newest first. */
  ghost predicate IsConvList(s: Tables, me: string, convs: seq<ConvSummary>) {
    && (forall i, j :: 0 <= i < j < |convs| ==> convs[i].peer != convs[j].peer)
    && (forall i, j :: 0 <= i < j < |convs| ==> convs[i].lastSentAtMs >= convs[j].lastSentAtMs)
    && (forall p :: ThreadIds(s, me, p) != {} <==> exists i :: 0 <= i < |convs| && convs[i].peer == p)
    && (forall i :: 0 <= i < |convs| ==> Summarises(s, me, convs[i]))
  }

  ghost predicate Summarises(s: Tables, me: string, c: ConvSummary) {
    var ids := ThreadIds(s, me, c.peer);
    && c.count == |ids|
    && c.lastSentAtMs >= 0
    && (forall id :: id in ids ==> s.rows[id].msg.sentAtMs <= c.lastSentAtMs)
    && (c.lastSentAtMs == 0 || exists id :: id in ids && s.rows[id].msg.sentAtMs == c.lastSentAtMs)
  }

  lemma GroupedSummarises(s: Tables, me: string, all: seq<Message>, byPeer: map<string, ConvSummary>, p: string)
    requires Holds(s, all) && Ids(all) == Visible(s) && Grouped(me, all, byPeer)
    ensures p in byPeer <==> ThreadIds(s, me, p) != {}
    ensures p in byPeer ==> Summarises(s, me, byPeer[p])
  {
    CountIsSize(s, me, p, all);
    assert GroupedAt(me, all, byPeer, p);
    var ids := ThreadIds(s, me, p);
    assert ids * Ids(all) == ids;
    if p in byPeer {
      forall id | id in ids ensures s.rows[id].msg.sentAtMs <= byPeer[p].lastSentAtMs {
        assert id in Ids(all);
        var i :| 0 <= i < |all| && all[i].id == id;
        assert Get(s, all[i].id) == Some(all[i]);
        PeerIffInThread(me, p, all[i]);
      }
      if byPeer[p].lastSentAtMs != 0 {
        var i :| 0 <= i < |all| && PeerOf(me, all[i]) == Some(p) && all[i].sentAtMs == byPeer[p].lastSentAtMs;
        PeerIffInThread(me, p, all[i]);
        assert Get(s, all[i].id) == Some(all[i]) && all[i].id in ids;
      }
    }
  }

  /** The summary of a peer is the summary of the thread: its length, and the time of its last
      message, or 0 for a thread that ends before the epoch. */
  lemma SummaryAgreesWithThread(s: Tables, me: string, convs: seq<ConvSummary>, i: nat, thread: seq<Message>)
    requires IsConvList(s, me, convs) && i < |convs| && IsThread(s, me, convs[i].peer, thread)
    ensures convs[i].count == |thread| > 0
    ensures convs[i].lastSentAtMs == if thread[|thread| - 1].sentAtMs >= 0 then thread[|thread| - 1].sentAtMs else 0
  {
    var c := convs[i];
    assert Summarises(s, me, c);
    IdsSize(thread);
    assert ThreadIds(s, me, c.peer) != {};
    var last := thread[|thread| - 1];
    assert last.id in Ids(thread) && Get(s, last.id) == Some(last);
    if c.lastSentAtMs != 0 {
      var id :| id in ThreadIds(s, me, c.peer) && s.rows[id].msg.sentAtMs == c.lastSentAtMs;
      assert id in Ids(thread);
      var k :| 0 <= k < |thread| && thread[k].id == id;
      assert Get(s, thread[k].id) == Some(thread[k]);
    }
  }

  function SumCounts(convs: seq<ConvSummary>): nat {
    if convs == [] then 0 else convs[0].count + SumCounts(convs[1..])
  }

  function Mine(s: Tables, me: string): set<string> {
    set id | id in s.rows && !s.rows[id].deleted && PeerOf(me, s.rows[id].msg).Some?
  }

  ghost function IdsOfPeers(s: Tables, me: string, convs: seq<ConvSummary>): set<string> {
    set id | id in s.rows && !s.rows[id].deleted &&
             exists i :: 0 <= i < |convs| && PeerOf(me, s.rows[id].msg) == Some(convs[i].peer)
  }

  lemma {:induction false} SumIsSize(s: Tables, me: string, convs: seq<ConvSummary>)
    requires forall i, j :: 0 <= i < j < |convs| ==> convs[i].peer != convs[j].peer
    requires forall i :: 0 <= i < |convs| ==> Summarises(s, me, convs[i])
    ensures SumCounts(convs) == |IdsOfPeers(s, me, convs)|
  {
    if convs == [] {
      assert IdsOfPeers(s, me, convs) == {};
    } else {
      var first, rest := convs[0], convs[1..];
      assert forall i :: 0 <= i < |rest| ==> rest[i] == convs[i + 1];
      SumIsSize(s, me, rest);
      assert Summarises(s, me, first);
      PeersSplit(s, me, convs);
      var here, others := ThreadIds(s, me, first.peer), IdsOfPeers(s, me, rest);
      assert |here + others| == |here| + |others|;
    }
  }

  lemma PeersSplit(s: Tables, me: string, convs: seq<ConvSummary>)
    requires convs != [] && forall i, j :: 0 <= i < j < |convs| ==> convs[i].peer != convs[j].peer
    ensures IdsOfPeers(s, me, convs) == ThreadIds(s, me, convs[0].peer) + IdsOfPeers(s, me, convs[1..])
    ensures ThreadIds(s, me, convs[0].peer) !! IdsOfPeers(s, me, convs[1..])
  {
    var rest := convs[1..];
    assert forall i :: 0 <= i < |rest| ==> rest[i] == convs[i + 1];
    forall id | id in s.rows
      ensures id in IdsOfPeers(s, me, convs) <==> id in ThreadIds(s, me, convs[0].peer) || id in IdsOfPeers(s, me, rest)
      ensures id in ThreadIds(s, me, convs[0].peer) ==> id !in IdsOfPeers(s, me, rest)
    {
      PeerIffInThread(me, convs[0].peer, s.rows[id].msg);
      if id in IdsOfPeers(s, me, convs) && id !in ThreadIds(s, me, convs[0].peer) {
        var i :| 0 <= i < |convs| && PeerOf(me, s.rows[id].msg) == Some(convs[i].peer);
        assert rest[i - 1] == convs[i];
      }
    }
  }

  /** The counts add up to the visible messages the user is a party to. */
  lemma CountsAddUp(s: Tables, me: string, convs: seq<ConvSummary>)
    requires IsConvList(s, me, convs)
    ensures SumCounts(convs) == |Mine(s, me)|
  {
    SumIsSize(s, me, convs);
    forall id ensures id in IdsOfPeers(s, me, convs) <==> id in Mine(s, me) {
      if id in Mine(s, me) {
        var p := PeerOf(me, s.rows[id].msg).value;
        PeerIffInThread(me, p, s.rows[id].msg);
        assert id in ThreadIds(s, me, p);
      }
    }
    assert IdsOfPeers(s, me, convs) == Mine(s, me);
  }

  // ---- the change detector ----

  /** `format_thread_line`, with the rendering of numbers and dates as functions. */
  function Line(number: nat -> string, date: int -> string, me: string, index: nat, m: Message): string {
    number(index) + ". [" + (if m.senderName == me then "you" else m.senderName) + " " + date(m.sentAtMs) + "] "
    + (if m.revoked then "(message revoked)" else m.plaintext)
  }

  /** A revoked message shows no text, whatever is stored; any other shows exactly its text; and only
      the user's own are shown as his. */
  lemma LineShows(number: nat -> string, date: int -> string, me: string, index: nat, m: Message, text: string)
    ensures m.revoked ==>
              && Line(number, date, me, index, m) == Line(number, date, me, index, m.(plaintext := text))
              && EndsWith(Line(number, date, me, index, m), "] " + "(message revoked)")
    ensures !m.revoked ==> EndsWith(Line(number, date, me, index, m), "] " + m.plaintext)
    ensures m.senderName == me ==> number(index) + ". [you " <= Line(number, date, me, index, m)
    ensures m.senderName != me ==> number(index) + ". [" + m.senderName + " " <= Line(number, date, me, index, m)
  {
    var who := if m.senderName == me then "you" else m.senderName;
    var head := number(index) + ". [" + who + " " + date(m.sentAtMs);
    var shown := if m.revoked then "(message revoked)" else m.plaintext;
    assert Line(number, date, me, index, m) == head + ("] " + shown);
    assert head == (number(index) + ". [" + who + " ") + date(m.sentAtMs);
    assert number(index) + ". [" + "you" + " " == number(index) + ". [you ";
    EndsWithAppended(head, "] " + shown);
  }

  predicate EndsWith(s: string, end: string) {
    |end| <= |s| && s[|s| - |end|..] == end
  }

  lemma EndsWithAppended(s: string, end: string)
    ensures EndsWith(s + end, end)
  {
  }

  predicate SameMark(a: Message, b: Message) {
    a.id == b.id && a.revoked == b.revoked
  }

  /** `thread_changed` compares sizes, ids and revocation flags only. */
  method ThreadChanged(a: seq<Message>, b: seq<Message>) returns (changed: bool)
    ensures changed <==> |a| != |b| || exists i :: 0 <= i < |a| && !SameMark(a[i], b[i])
  {
    if |a| != |b| {
      return true;
    }
    for i := 0 to |a|
      invariant forall k :: 0 <= k < i ==> SameMark(a[k], b[k])
    {
      if a[i].id != b[i].id || a[i].revoked != b[i].revoked {
        assert !SameMark(a[i], b[i]);
        return true;
      }
    }
    changed := false;
  }

  /** The detector is sound: when it reports no change between two listings of a thread, however the
      store was changed in between, every rendered line is the same. */
  lemma NoChangeMeansSameLines(
    number: nat -> string, date: int -> string, me: string, peer: string,
    s: Tables, ops: seq<Op>, a: seq<Message>, b: seq<Message>
  )
    requires IsThread(s, me, peer, a) && IsThread(RunAll(s, ops), me, peer, b)
    requires |a| == |b| && forall i :: 0 <= i < |a| ==> SameMark(a[i], b[i])
    ensures forall i :: 0 <= i < |a| ==> Line(number, date, me, i + 1, a[i]) == Line(number, date, me, i + 1, b[i])
  {
    RunEvolves(s, ops);
    var t := RunAll(s, ops);
    forall i | 0 <= i < |a| ensures Line(number, date, me, i + 1, a[i]) == Line(number, date, me, i + 1, b[i]) {
      assert Get(s, a[i].id) == Some(a[i]) && Get(t, b[i].id) == Some(b[i]);
      assert SameMark(a[i], b[i]) && RowEvolves(s.rows[a[i].id], t.rows[a[i].id]);
    }
  }
}
