/** The digest daemon and the contract it writes to, as the program has them: objects updated in
    place. Whatever the chain and the database report, the daemon's calls are a run of the protocol
    of module Anchor, and so keep its invariant. */
module DigestService {
  import opened Wrappers
  import opened Anchor
  import opened AnchorInvariant
  import Cuts

  // ---- the contract ----

  class MessageDigest {
    const owner: Id
    var batches: map<nat, string>
    var batchCount: nat

    ghost predicate Valid()
      reads this
    {
      forall i: nat :: i in batches <==> i < batchCount
    }

    /** All batch hashes, in the order they were recorded. */
    ghost function Hashes(): (hs: seq<string>)
      requires Valid()
      reads this
      ensures |hs| == batchCount && forall i :: 0 <= i < batchCount ==> hs[i] == batches[i]
    {
      seq(batchCount, i requires 0 <= i < batchCount reads this requires Valid() => batches[i])
    }

    constructor (sender: Id)
      ensures Valid() && owner == sender && Hashes() == []
    {
      owner := sender;
      batches := map[];
      batchCount := 0;
    }

    /** The log only grows, by the hash the owner sent; anyone else's call reverts. */
    method RecordDigest(sender: Id, batchHash: string) returns (logs: Option<seq<Log>>)
      requires Valid()
      modifies this
      ensures Valid()
      ensures sender != owner ==> logs == None && Hashes() == old(Hashes())
      ensures sender == owner ==> Hashes() == old(Hashes()) + [batchHash]
      ensures sender == owner ==> logs.Some? && FirstTopic(logs.value) == Some(batchHash)
      ensures sender == owner ==> logs == Some([Log(CONTRACT, [DIGEST_RECORDED, batchHash])])
    {
      if sender != owner {
        return None;
      }
      batches := batches[batchCount := batchHash];
      batchCount := batchCount + 1;
      LowerContract();
      logs := Some([Log(CONTRACT, [DIGEST_RECORDED, batchHash])]);
    }
  }

  // ---- what chain and database do with a flush ----

  /** What becomes of a submission: reported, rightly or not, or given up on while unconfirmed. */
  datatype Sending = Reported(outcome: Outcome) | Abandoned

  /** What is in store for one attempt, as far as it gets. */
  datatype Fates = Fates(sending: Sending, insert: Outcome, stamp: Outcome)

  predicate Works(f: Fates) {
    f.sending == Reported(Done) && f.insert.Done? && f.stamp.Done?
  }

  /** A step of the flush itself. */
  datatype Act = Begins | Sends(sending: Sending) | Inserts(outcome: Outcome) | Stamps(outcome: Outcome) | Crashes

  function ActOf(op: Op): seq<Act> {
    match op
    case Begin(_) => [Begins]
    case Submit(_, outcome) => [Sends(Reported(outcome))]
    case GiveUp(_) => [Sends(Abandoned)]
    case Insert(_, outcome) => [Inserts(outcome)]
    case Stamp(outcome) => [Stamps(outcome)]
    case Crash => [Crashes]
    case _ => []
  }

  function Acts(ops: seq<Op>): seq<Act> {
    if ops == [] then [] else ActOf(ops[0]) + Acts(ops[1..])
  }

  /** An attempt goes on for as long as nothing is reported to have failed. */
  function AttemptActs(f: Fates): seq<Act> {
    if f.sending != Reported(Done) then [Sends(f.sending)]
    else if !f.insert.Done? then [Sends(f.sending), Inserts(f.insert)]
    else [Sends(f.sending), Inserts(f.insert), Stamps(f.stamp)]
  }

  /** A flush goes on to the first attempt that works. */
  function FlushActs(fates: seq<Fates>): seq<Act> {
    if fates == [] then []
    else AttemptActs(fates[0]) + (if Works(fates[0]) then [] else FlushActs(fates[1..]))
  }

  lemma {:induction false} ActsAppend(a: seq<Op>, b: seq<Op>)
    ensures Acts(a + b) == Acts(a) + Acts(b)
  {
    if a == [] {
      assert a + b == b;
    } else {
      ActsAppend(a[1..], b);
      assert (a + b)[1..] == a[1..] + b;
    }
  }

  /** A run of the protocol, with these steps of the flush and any steps of others between them. */
  ghost predicate RunsTo(keccak: string -> string, s: State, acts: seq<Act>, t: State) {
    exists ops :: Run(keccak, s, ops, t) && Acts(ops) == acts
  }

  lemma RunsSelf(keccak: string -> string, s: State)
    ensures RunsTo(keccak, s, [], s)
  {
    assert Run(keccak, s, [], s) && Acts([]) == [];
  }

  lemma RunsOn(keccak: string -> string, s: State, a: seq<Act>, t: State, b: seq<Act>, u: State)
    requires RunsTo(keccak, s, a, t) && RunsTo(keccak, t, b, u)
    ensures RunsTo(keccak, s, a + b, u)
  {
    var x :| Run(keccak, s, x, t) && Acts(x) == a;
    var y :| Run(keccak, t, y, u) && Acts(y) == b;
    RunAppend(keccak, s, x, t, y, u);
    ActsAppend(x, y);
  }

  lemma RunsOne(keccak: string -> string, t: State, op: Op)
    requires Enabled(t, op)
    ensures RunsTo(keccak, t, ActOf(op), Apply(keccak, t, op))
  {
    var u := Apply(keccak, t, op);
    assert Run(keccak, u, [], u);
    assert [op][1..] == [] && Acts([]) == [];
    assert Run(keccak, t, [op], u) && Acts([op]) == ActOf(op);
  }

  /** A step of somebody else. */
  lemma RunsBeside(keccak: string -> string, s: State, t: State, op: Op)
    requires RunsTo(keccak, s, [], t) && Enabled(t, op) && ActOf(op) == []
    ensures RunsTo(keccak, s, [], Apply(keccak, t, op))
  {
    RunsOne(keccak, t, op);
    RunsOn(keccak, s, [], t, [], Apply(keccak, t, op));
  }

  lemma RunsMeansReaches(keccak: string -> string, s: State, acts: seq<Act>, t: State)
    requires RunsTo(keccak, s, acts, t)
    ensures Reaches(keccak, s, t)
  {
    var ops :| Run(keccak, s, ops, t) && Acts(ops) == acts;
  }

  // ---- the daemon ----

  lemma {:induction false} FreshIdExists(used: set<Id>)
    ensures exists id: Id :: id !in used
  {
    var n := LongestId(used);
    var id := seq(n + 1, _ => 'x');
    assert |id| == n + 1;
    assert id !in used;
  }

  lemma {:induction false} LongestId(used: set<Id>) returns (n: nat)
    ensures forall id :: id in used ==> |id| <= n
  {
    if used == {} {
      n := 0;
    } else {
      var x :| x in used;
      var m := LongestId(used - {x});
      n := if |x| > m then |x| else m;
      forall id | id in used ensures |id| <= n {
        assert id == x || id in used - {x};
      }
    }
  }

  class Service {
    const keccak: string -> string
    const wallet: Id
    const contract: MessageDigest
    var queue: map<Id, Row>
    var records: seq<Record>
    var receipts: map<Id, seq<Log>>
    var pending: map<Id, string>
    ghost var flushed: map<Id, seq<Item>>

    ghost predicate Valid()
      reads this, contract
    {
      contract.Valid() && wallet == contract.owner
    }

    /** The protocol state, given how far the flush has come. */
    ghost function View(flush: Flush): State
      requires Valid()
      reads this, contract
    {
      State(queue, records, contract.Hashes(), receipts, flush, flushed, pending)
    }

    constructor (keccak: string -> string, wallet: Id)
      ensures Valid() && fresh(contract)
      ensures Init(View(Idle)) && this.keccak == keccak
    {
      this.keccak := keccak;
      this.wallet := wallet;
      contract := new MessageDigest(wallet);
      queue, records, receipts, flushed, pending := map[], [], map[], map[], map[];
    }

    /** While the daemon waits, other processes queue digests and send transactions, and transactions
        it has given up on are confirmed after all. */
    method OthersRun(ghost flush: Flush)
      requires Valid()
      modifies this`queue, this`receipts, this`pending, contract
      ensures Valid() && RunsTo(keccak, old(View(flush)), [], View(flush))
    {
      RunsSelf(keccak, View(flush));
      var steps: int := *;
      while steps > 0
        invariant Valid() && RunsTo(keccak, old(View(flush)), [], View(flush))
      {
        var id: Id, messageId: Id, digest: string, at: int, logs: seq<Log> := *, *, *, *, *;
        if id !in queue && IsHash(digest) {
          RunsBeside(keccak, old(View(flush)), View(flush), Enqueue(id, messageId, digest, at));
          queue := queue[id := Row(messageId, digest, at, None)];
        } else if id in pending && id !in receipts {
          ConfirmLate(flush, old(View(flush)), id);
        } else if id !in pending && id !in receipts && IsForeign(logs) {
          RunsBeside(keccak, old(View(flush)), View(flush), Foreign(id, logs));
          receipts := receipts[id := logs];
        }
        steps := steps - 1;
      }
    }

    method ConfirmLate(ghost flush: Flush, ghost from: State, id: Id)
      requires Valid() && RunsTo(keccak, from, [], View(flush)) && id in pending && id !in receipts
      modifies this`receipts, this`pending, contract
      ensures Valid() && RunsTo(keccak, from, [], View(flush))
    {
      RunsBeside(keccak, from, View(flush), Confirm(id));
      var logs := contract.RecordDigest(wallet, pending[id]);
      receipts := receipts[id := logs.value];
      pending := map x | x in pending && x != id :: pending[x];
    }

    /** SELECT ... WHERE batch_id IS NULL ORDER BY queued_at ASC */
    method SelectPending() returns (rows: seq<Item>)
      ensures IsListing(queue, Pending(queue), rows)
    {
      rows := [];
      var left := Pending(queue);
      while left != {}
        invariant Selected(queue, rows, left)
        decreases |left|
      {
        EarliestExists(queue, left);
        var id :| id in left && forall x :: x in left ==> queue[id].queuedAt <= queue[x].queuedAt;
        SelectNext(queue, rows, left, id);
        rows := rows + [Item(id, queue[id].digest)];
        left := left - {id};
      }
    }

    /** One submission of the batch hash: None when the attempt has to be given up, because nothing was
        sent, or because waiting failed for a transaction that is or will be confirmed. */
    method SubmitHash(ghost rows: seq<Item>, ghost attempt: nat, batchHash: string, fate: Sending)
      returns (tx: Option<Id>)
      requires Valid() && batchHash == BatchHash(keccak, rows) && attempt <= MAX_ATTEMPTS
      modifies this`receipts, this`pending, contract
      ensures Valid()
      ensures tx.Some? <==> fate == Reported(Done)
      ensures RunsTo(keccak, old(View(Working(rows, attempt, Ready))), [Sends(fate)],
                View(match tx case Some(id) => Working(rows, attempt, Sent(batchHash, id))
                              case None => Retry(Working(rows, attempt, Ready))))
    {
      ghost var from := View(Working(rows, attempt, Ready));
      FreshIdExists(receipts.Keys + pending.Keys);
      var id: Id :| id !in receipts && id !in pending;
      if fate.Abandoned? {
        RunsOne(keccak, from, GiveUp(id));
        pending := pending[id := batchHash];
        return None;
      }
      RunsOne(keccak, from, Submit(id, fate.outcome));
      if !fate.outcome.Failed? {
        var logs := contract.RecordDigest(wallet, batchHash);
        receipts := receipts[id := logs.value];
      }
      tx := if fate.outcome.Done? then Some(id) else None;
    }

    method InsertRecord(ghost rows: seq<Item>, ghost attempt: nat, batchHash: string, tx: Id, outcome: Outcome)
      returns (batch: Option<Id>)
      requires Valid() && attempt <= MAX_ATTEMPTS
      modifies this`records, this`flushed
      ensures Valid()
      ensures batch.Some? <==> outcome.Done?
      ensures RunsTo(keccak, old(View(Working(rows, attempt, Sent(batchHash, tx)))), [Inserts(outcome)],
                View(match batch case Some(id) => Working(rows, attempt, Recorded(id))
                                 case None => Retry(Working(rows, attempt, Sent(batchHash, tx)))))
    {
      ghost var from := View(Working(rows, attempt, Sent(batchHash, tx)));
      var used := set i | 0 <= i < |records| :: records[i].batch;
      FreshIdExists(used);
      var id: Id :| id !in used;
      RunsOne(keccak, from, Insert(id, outcome));
      if !outcome.Failed? {
        records := records + [Record(id, batchHash, tx)];
        flushed := flushed[id := rows];
      }
      batch := if outcome.Done? then Some(id) else None;
    }

    /** UPDATE digest_queue SET batch_id = $1 WHERE id = ANY($2): it does not ask whether the rows
        are still unstamped. */
    method StampRows(rows: seq<Item>, ghost attempt: nat, batch: Id, outcome: Outcome) returns (ok: bool)
      requires Valid() && attempt <= MAX_ATTEMPTS
      modifies this`queue
      ensures Valid()
      ensures ok <==> outcome.Done?
      ensures RunsTo(keccak, old(View(Working(rows, attempt, Recorded(batch)))), [Stamps(outcome)],
                View(if ok then Idle else Retry(Working(rows, attempt, Recorded(batch)))))
      ensures ok ==> forall id :: id in queue && id in Ids(rows) ==> queue[id].batch == Some(batch)
    {
      ghost var from := View(Working(rows, attempt, Recorded(batch)));
      RunsOne(keccak, from, Stamp(outcome));
      if !outcome.Failed? {
        queue := Stamped(queue, rows, batch);
      }
      ok := outcome.Done?;
    }

    /** The database half of an attempt. */
    method RecordAndStamp(
      ghost from: State, rows: seq<Item>, ghost attempt: nat, batchHash: string, tx: Id, f: Fates
    ) returns (ok: bool, ghost progress: Flush)
      requires Valid() && attempt <= MAX_ATTEMPTS && f.sending == Reported(Done)
      requires RunsTo(keccak, from, [Sends(f.sending)], View(Working(rows, attempt, Sent(batchHash, tx))))
      modifies this`queue, this`receipts, this`pending, this`records, this`flushed, contract
      ensures Valid() && RunsTo(keccak, from, AttemptActs(f), View(progress))
      ensures ok <==> Works(f)
      ensures progress == if ok then Idle else Retry(Working(rows, attempt, Ready))
      ensures ok ==> forall id :: id in queue && id in Ids(rows) ==> queue[id].batch.Some?
    {
      progress := Working(rows, attempt, Sent(batchHash, tx));
      ghost var s := View(progress);
      OthersRun(progress);
      RunsOn(keccak, from, [Sends(f.sending)], s, [], View(progress));
      s := View(progress);
      var batch := InsertRecord(rows, attempt, batchHash, tx, f.insert);
      ok := false;
      progress := if batch.Some? then Working(rows, attempt, Recorded(batch.value)) else Retry(progress);
      RunsOn(keccak, from, [Sends(f.sending)] + [], s, [Inserts(f.insert)], View(progress));
      if batch.Some? {
        ok, progress := StampRecorded(from, rows, attempt, batch.value, f);
      }
    }

    method StampRecorded(ghost from: State, rows: seq<Item>, ghost attempt: nat, batch: Id, f: Fates)
      returns (ok: bool, ghost progress: Flush)
      requires Valid() && attempt <= MAX_ATTEMPTS && f.sending == Reported(Done) && f.insert.Done?
      requires RunsTo(keccak, from, [Sends(f.sending), Inserts(f.insert)],
                 View(Working(rows, attempt, Recorded(batch))))
      modifies this`queue, this`receipts, this`pending, contract
      ensures Valid() && RunsTo(keccak, from, AttemptActs(f), View(progress))
      ensures ok <==> Works(f)
      ensures progress == if ok then Idle else Retry(Working(rows, attempt, Ready))
      ensures ok ==> forall id :: id in queue && id in Ids(rows) ==> queue[id].batch.Some?
    {
      ghost var before := [Sends(f.sending), Inserts(f.insert)];
      progress := Working(rows, attempt, Recorded(batch));
      ghost var s := View(progress);
      OthersRun(progress);
      RunsOn(keccak, from, before, s, [], View(progress));
      s := View(progress);
      ok := StampRows(rows, attempt, batch, f.stamp);
      progress := if ok then Idle else Retry(progress);
      RunsOn(keccak, from, before + [], s, [Stamps(f.stamp)], View(progress));
      assert before + [] + [Stamps(f.stamp)] == AttemptActs(f);
    }

    /** One attempt: hash, submit, record, stamp. It succeeds exactly when all three do. */
    method Attempt(rows: seq<Item>, ghost attempt: nat, f: Fates) returns (ok: bool, ghost progress: Flush)
      requires Valid() && attempt <= MAX_ATTEMPTS
      modifies this, contract
      ensures Valid() && RunsTo(keccak, old(View(Working(rows, attempt, Ready))), AttemptActs(f), View(progress))
      ensures ok <==> Works(f)
      ensures progress == if ok then Idle else Retry(Working(rows, attempt, Ready))
      ensures ok ==> forall id :: id in queue && id in Ids(rows) ==> queue[id].batch.Some?
    {
      ghost var start := Working(rows, attempt, Ready);
      ghost var from := View(start);
      OthersRun(start);
      ghost var s := View(start);
      var batchHash := keccak(Join(Digests(rows)));
      var tx := SubmitHash(rows, attempt, batchHash, f.sending);
      ok, progress := false, Retry(start);
      if tx.Some? {
        RunsOn(keccak, from, [], s, [Sends(f.sending)], View(Working(rows, attempt, Sent(batchHash, tx.value))));
        ok, progress := RecordAndStamp(from, rows, attempt, batchHash, tx.value, f);
      } else {
        RunsOn(keccak, from, [], s, [Sends(f.sending)], View(progress));
      }
    }

    /** `flushWithRetry`: up to five attempts, each of which starts over from the hash, until one works. */
    method FlushWithRetry(rows: seq<Item>, attempt: nat, fates: seq<Fates>) returns (ok: bool)
      requires Valid() && 1 <= attempt <= MAX_ATTEMPTS && |fates| == MAX_ATTEMPTS + 1 - attempt
      modifies this, contract
      ensures Valid()
      ensures ok <==> exists i :: 0 <= i < |fates| && Works(fates[i])
      ensures RunsTo(keccak, old(View(Working(rows, attempt, Ready))), FlushActs(fates), View(Idle))
      ensures ok ==> forall id :: id in queue && id in Ids(rows) ==> queue[id].batch.Some?
      decreases MAX_ATTEMPTS - attempt
    {
      ghost var from := View(Working(rows, attempt, Ready));
      ghost var progress;
      ok, progress := Attempt(rows, attempt, fates[0]);
      if !ok && attempt < MAX_ATTEMPTS {
        ghost var s := View(progress);
        ok := FlushWithRetry(rows, attempt + 1, fates[1..]);
        RunsOn(keccak, from, AttemptActs(fates[0]), s, FlushActs(fates[1..]), View(Idle));
        WorksLater(fates);
      } else {
        assert ok || fates[1..] == [];
        assert FlushActs(fates) == AttemptActs(fates[0]);
      }
    }

    /** `flushDigestBatch`: a whole flush, started with none in progress. It takes exactly the steps that
        chain and database leave it, does nothing when no row is pending, stamps every row that was
        pending when one of the five attempts works, and keeps the invariant. */
    method FlushDigestBatch(fates: seq<Fates>)
      requires Valid() && Inv(keccak, View(Idle)) && |fates| == 5
      modifies this, contract
      ensures Valid() && Inv(keccak, View(Idle)) && Grows(old(View(Idle)), View(Idle))
      ensures old(Pending(queue)) == {} ==> View(Idle) == old(View(Idle))
      ensures old(Pending(queue)) != {} ==>
                && RunsTo(keccak, old(View(Idle)), [Begins] + FlushActs(fates), View(Idle))
                && ((exists i :: 0 <= i < 5 && Works(fates[i])) ==>
                      forall id :: id in old(Pending(queue)) ==> id in queue && queue[id].batch.Some?)
    {
      ghost var from := View(Idle);
      var rows := SelectPending();
      if rows == [] {
        return;
      }
      assert rows[0].id in Pending(queue);
      RunsOne(keccak, from, Begin(rows));
      ghost var begun := View(Working(rows, 1, Ready));
      var ok := FlushWithRetry(rows, 1, fates);
      RunsOn(keccak, from, [Begins], begun, FlushActs(fates), View(Idle));
      RunsMeansReaches(keccak, from, [Begins] + FlushActs(fates), View(Idle));
      ReachesKeepsInv(keccak, from, View(Idle));
    }
  }

  lemma WorksLater(fates: seq<Fates>)
    requires fates != [] && !Works(fates[0])
    ensures (exists i :: 0 <= i < |fates| && Works(fates[i])) <==>
            exists i :: 0 <= i < |fates[1..]| && Works(fates[1..][i])
  {
    if i :| 0 <= i < |fates| && Works(fates[i]) {
      assert fates[1..][i - 1] == fates[i];
    }
  }

  /** With every submission failing, a flush submits five times and does nothing else. */
  lemma FiveAttempts(fates: seq<Fates>)
    requires |fates| == 5 && forall i :: 0 <= i < 5 ==> fates[i].sending == Reported(Failed)
    ensures FlushActs(fates) == seq(5, _ => Sends(Reported(Failed)))
  {
    NoneWorks(fates);
  }

  lemma {:induction false} NoneWorks(fates: seq<Fates>)
    requires forall i :: 0 <= i < |fates| ==> fates[i].sending == Reported(Failed)
    ensures FlushActs(fates) == seq(|fates|, _ => Sends(Reported(Failed)))
  {
    if fates != [] { NoneWorks(fates[1..]); }
  }

  lemma {:induction false} EarliestExists(queue: map<Id, Row>, ids: set<Id>)
    requires ids != {} && ids <= queue.Keys
    ensures exists id :: id in ids && forall x :: x in ids ==> queue[id].queuedAt <= queue[x].queuedAt
  {
    var x :| x in ids;
    var rest := ids - {x};
    if rest == {} {
      assert ids == {x};
    } else {
      EarliestExists(queue, rest);
      var y :| y in rest && forall z :: z in rest ==> queue[y].queuedAt <= queue[z].queuedAt;
      var best := if queue[x].queuedAt <= queue[y].queuedAt then x else y;
      forall z | z in ids ensures queue[best].queuedAt <= queue[z].queuedAt {
        assert z == x || z in rest;
      }
    }
  }

  /** The cursor's progress: `rows` are the earliest unstamped rows, without those `left`. */
  ghost predicate Selected(queue: map<Id, Row>, rows: seq<Item>, left: set<Id>) {
    && left <= Pending(queue) && Ids(rows) == Pending(queue) - left
    && Ordered(queue, rows)
    && forall i, id :: 0 <= i < |rows| && id in left ==> queue[rows[i].id].queuedAt <= queue[id].queuedAt
  }

  lemma SelectNext(queue: map<Id, Row>, rows: seq<Item>, left: set<Id>, id: Id)
    requires Selected(queue, rows, left) && id in left
    requires forall x :: x in left ==> queue[id].queuedAt <= queue[x].queuedAt
    ensures Selected(queue, rows + [Item(id, queue[id].digest)], left - {id})
  {
    OrderedAppend(queue, rows, id);
  }

  lemma OrderedAppend(queue: map<Id, Row>, rows: seq<Item>, id: Id)
    requires Ordered(queue, rows) && id in queue && id !in Ids(rows)
    requires forall i :: 0 <= i < |rows| ==> queue[rows[i].id].queuedAt <= queue[id].queuedAt
    ensures var all := rows + [Item(id, queue[id].digest)];
            Ordered(queue, all) && Ids(all) == Ids(rows) + {id}
  {
    IdsAppend(rows, Item(id, queue[id].digest));
    assert forall i :: 0 <= i < |rows| ==> rows[i].id in Ids(rows);
  }

  lemma IdsAppend(rows: seq<Item>, item: Item)
    ensures Ids(rows + [item]) == Ids(rows) + {item.id}
  {
    var key := (row: Item) => row.id;
    Cuts.KeysAppend(rows, item, key);
    assert Ids(rows + [item]) == Cuts.Keys(rows + [item], key) && Ids(rows) == Cuts.Keys(rows, key);
  }
}
