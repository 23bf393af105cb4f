/** Every step of the anchoring protocol keeps the invariant, so every run does. */
module AnchorInvariant {
  import opened Wrappers
  import opened Anchor

  /** Nothing that was queued, logged, recorded or flushed is ever lost or rewritten. */
  ghost predicate Grows(s: State, t: State) {
    && (forall id :: id in s.queue ==> id in t.queue && t.queue[id].digest == s.queue[id].digest
                                       && t.queue[id].queuedAt == s.queue[id].queuedAt
                                       && t.queue[id].messageId == s.queue[id].messageId)
    && (forall tx :: tx in s.receipts ==> tx in t.receipts && t.receipts[tx] == s.receipts[tx])
    && s.contract <= t.contract
    && s.records <= t.records
    && (forall b :: b in s.flushed ==> b in t.flushed && t.flushed[b] == s.flushed[b])
  }

  lemma ApplyGrows(keccak: string -> string, s: State, op: Op)
    requires Enabled(s, op) && (forall b :: b in s.flushed <==> IsBatch(s, b))
    ensures Grows(s, Apply(keccak, s, op))
  {
  }

  /** What a step of the flush leaves behind where no later step sees to it: a crash forgets the flush and
      nothing else; a transaction given up on waits with the hash it was sent with. */
  lemma CrashAndGiveUp(keccak: string -> string, s: State, op: Op)
    requires Enabled(s, op) && (op.Crash? || op.GiveUp?)
    ensures var t := Apply(keccak, s, op);
            && t.queue == s.queue && t.records == s.records && t.contract == s.contract && t.receipts == s.receipts
            && (op.Crash? ==> t.flush.Idle? && t.pending == s.pending)
            && (op.GiveUp? ==>
                  && t.pending.Keys == s.pending.Keys + {op.tx}
                  && t.pending[op.tx] == keccak(Join(Digests(s.flush.rows)))
                  && forall x :: x in s.pending ==> t.pending[x] == s.pending[x])
  {
  }

  lemma OrderedStays(s: State, t: State, rows: seq<Item>)
    requires Grows(s, t) && Ordered(s.queue, rows)
    ensures Ordered(t.queue, rows)
  {
  }

  lemma OnChainStays(s: State, t: State, tx: Id, hash: string)
    requires Grows(s, t) && OnChain(s, tx, hash)
    ensures OnChain(t, tx, hash)
  {
    assert hash in t.contract[..|s.contract|];
  }

  lemma RecordStays(keccak: string -> string, s: State, t: State, r: Record)
    requires Grows(s, t) && RecordSound(keccak, s, r)
    ensures RecordSound(keccak, t, r)
  {
    OrderedStays(s, t, s.flushed[r.batch]);
    OnChainStays(s, t, r.tx, r.hash);
  }

  lemma RecordsStay(keccak: string -> string, s: State, t: State)
    requires Grows(s, t) && RecordsSound(keccak, s)
    ensures forall i :: 0 <= i < |s.records| ==> RecordSound(keccak, t, t.records[i])
  {
    forall i | 0 <= i < |s.records| ensures RecordSound(keccak, t, t.records[i]) {
      assert t.records[i] == s.records[i];
      RecordStays(keccak, s, t, s.records[i]);
    }
  }

  /** Steps that leave the batches, the records and the flush as they are. */
  lemma QuietStepKeepsSound(keccak: string -> string, s: State, t: State)
    requires Sound(keccak, s) && Grows(s, t)
    requires t.records == s.records && t.flushed == s.flushed
    requires t.flush == s.flush || t.flush.Idle?
    requires forall id :: id in t.queue ==>
               if id in s.queue then t.queue[id] == s.queue[id]
               else t.queue[id].batch.None? && IsHash(t.queue[id].digest)
    requires LogsSound(t)
    ensures Sound(keccak, t)
  {
    RecordsStay(keccak, s, t);
    forall b ensures Members(t.queue, b) == Members(s.queue, b) && IsBatch(t, b) == IsBatch(s, b) {
    }
    if t.flush.Working? {
      OrderedStays(s, t, s.flush.rows);
      if s.flush.stage.Sent? { OnChainStays(s, t, s.flush.stage.tx, s.flush.stage.hash); }
    }
  }

  lemma IdleKeepsSound(keccak: string -> string, s: State)
    requires Sound(keccak, s)
    ensures Sound(keccak, s.(flush := Idle))
  {
    QuietStepKeepsSound(keccak, s, s.(flush := Idle));
  }

  lemma BeginKeepsSound(keccak: string -> string, s: State, rows: seq<Item>)
    requires Sound(keccak, s) && Enabled(s, Begin(rows))
    ensures Sound(keccak, Apply(keccak, s, Begin(rows)))
  {
    var t := Apply(keccak, s, Begin(rows));
    assert forall i :: 0 <= i < |t.records| ==> RecordSound(keccak, t, t.records[i]) by {
      RecordsStay(keccak, s, t);
    }
    assert forall b :: IsBatch(t, b) == IsBatch(s, b);
  }

  /** An attempt that gives up leaves the rows as it found them. */
  lemma RetryKeepsSound(keccak: string -> string, s: State)
    requires Sound(keccak, s) && s.flush.Working?
    ensures Sound(keccak, s.(flush := Retry(s.flush)))
  {
    var t := s.(flush := Retry(s.flush));
    RecordsStay(keccak, s, t);
    assert forall b :: IsBatch(t, b) == IsBatch(s, b);
  }

  /** Only the stage changes. */
  lemma StageKeepsSound(keccak: string -> string, s: State, stage: Stage)
    requires Sound(keccak, s) && s.flush.Working?
    requires FlushSound(keccak, s.(flush := s.flush.(stage := stage)))
    ensures Sound(keccak, s.(flush := s.flush.(stage := stage)))
  {
    var t := s.(flush := s.flush.(stage := stage));
    RecordsStay(keccak, s, t);
    assert forall b :: IsBatch(t, b) == IsBatch(s, b);
  }

  lemma SubmitKeepsSound(keccak: string -> string, s: State, tx: Id, outcome: Outcome)
    requires Sound(keccak, s) && Enabled(s, Submit(tx, outcome))
    ensures Sound(keccak, Apply(keccak, s, Submit(tx, outcome)))
  {
    var hash := BatchHash(keccak, s.flush.rows);
    var logs := DigestRecorded(hash);
    var sent := s.(contract := s.contract + [hash], receipts := s.receipts[tx := logs]);
    LowerContract();
    assert FirstTopic(logs) == Some(hash);
    if outcome.Failed? {
      RetryKeepsSound(keccak, s);
    } else {
      assert hash in sent.contract by { assert sent.contract[|s.contract|] == hash; }
      QuietStepKeepsSound(keccak, s, sent);
      if outcome.Done? {
        StageKeepsSound(keccak, sent, Sent(hash, tx));
      } else {
        RetryKeepsSound(keccak, sent);
      }
    }
  }

  /** A transaction that was sent and given up on. */
  lemma GiveUpKeepsSound(keccak: string -> string, s: State, tx: Id)
    requires Sound(keccak, s) && Enabled(s, GiveUp(tx))
    ensures Sound(keccak, Apply(keccak, s, GiveUp(tx)))
  {
    var sent := s.(pending := s.pending[tx := BatchHash(keccak, s.flush.rows)]);
    QuietStepKeepsSound(keccak, s, sent);
    RetryKeepsSound(keccak, sent);
  }

  /** And its confirmation, at whatever time. */
  lemma ConfirmKeepsSound(keccak: string -> string, s: State, tx: Id)
    requires Sound(keccak, s) && Enabled(s, Confirm(tx))
    ensures Sound(keccak, Apply(keccak, s, Confirm(tx)))
  {
    var t, hash := Apply(keccak, s, Confirm(tx)), s.pending[tx];
    LowerContract();
    assert FirstTopic(DigestRecorded(hash)) == Some(hash);
    assert hash in t.contract by { assert t.contract[|s.contract|] == hash; }
    QuietStepKeepsSound(keccak, s, t);
  }

  lemma LowerContract()
    ensures Lower(CONTRACT) == CONTRACT
  {
    assert forall i :: 0 <= i < |CONTRACT| ==> LowerChar(CONTRACT[i]) == CONTRACT[i];
  }

  function WithRecord(s: State, batch: Id): State
    requires Enabled(s, Insert(batch, Done))
  {
    s.(records := s.records + [Record(batch, s.flush.stage.hash, s.flush.stage.tx)],
       flushed := s.flushed[batch := s.flush.rows])
  }

  lemma NewRecordSound(keccak: string -> string, s: State, batch: Id)
    requires Sound(keccak, s) && Enabled(s, Insert(batch, Done))
    ensures RecordsSound(keccak, WithRecord(s, batch))
  {
    var t := WithRecord(s, batch);
    RecordsStay(keccak, s, t);
    assert RecordSound(keccak, t, t.records[|s.records|]);
  }

  lemma NewRecordLeavesStamps(keccak: string -> string, s: State, batch: Id)
    requires Sound(keccak, s) && Enabled(s, Insert(batch, Done))
    ensures var t := WithRecord(s, batch);
            StampsSound(t) && IsBatch(t, batch) && Members(t.queue, batch) == {}
    ensures forall b :: b in WithRecord(s, batch).flushed <==> IsBatch(WithRecord(s, batch), b)
  {
    BatchesAfterRecord(s, WithRecord(s, batch), WithRecord(s, batch).records[|s.records|]);
  }

  lemma NewRecordKeepsSound(keccak: string -> string, s: State, batch: Id)
    requires Sound(keccak, s) && Enabled(s, Insert(batch, Done))
    ensures var t := WithRecord(s, batch);
            Sound(keccak, t) && IsBatch(t, batch) && Members(t.queue, batch) == {}
  {
    NewRecordSound(keccak, s, batch);
    NewRecordLeavesStamps(keccak, s, batch);
  }

  lemma BatchesAfterRecord(s: State, t: State, r: Record)
    requires t.records == s.records + [r]
    ensures forall b :: IsBatch(t, b) <==> IsBatch(s, b) || b == r.batch
  {
    forall b ensures IsBatch(t, b) <==> IsBatch(s, b) || b == r.batch {
      if IsBatch(s, b) {
        var i :| 0 <= i < |s.records| && s.records[i].batch == b;
        assert t.records[i].batch == b;
      }
      assert t.records[|s.records|].batch == r.batch;
    }
  }

  lemma InsertKeepsSound(keccak: string -> string, s: State, batch: Id, outcome: Outcome)
    requires Sound(keccak, s) && Enabled(s, Insert(batch, outcome))
    ensures Sound(keccak, Apply(keccak, s, Insert(batch, outcome)))
  {
    if outcome.Failed? {
      RetryKeepsSound(keccak, s);
    } else {
      NewRecordKeepsSound(keccak, s, batch);
      var t := WithRecord(s, batch);
      if outcome.Done? {
        StageKeepsSound(keccak, t, Recorded(batch));
      } else {
        RetryKeepsSound(keccak, t);
      }
    }
  }

  /** Stamping moves exactly the flushed rows, all of them, from whatever batch they were in. */
  lemma StampMovesRows(s: State, batch: Id)
    requires s.flush.Working? && Members(s.queue, batch) == {}
    requires Ids(s.flush.rows) <= s.queue.Keys
    ensures var q := Stamped(s.queue, s.flush.rows, batch);
            && Members(q, batch) == Ids(s.flush.rows)
            && forall b :: b != batch ==> Members(q, b) == Members(s.queue, b) - Ids(s.flush.rows)
  {
    var rows := s.flush.rows;
    var q := Stamped(s.queue, rows, batch);
    forall id ensures id in Members(q, batch) <==> id in Ids(rows) {
      assert id !in Members(s.queue, batch);
    }
  }

  function WithStamps(s: State): State
    requires Enabled(s, Stamp(Done))
  {
    s.(queue := Stamped(s.queue, s.flush.rows, s.flush.stage.batch), flush := s.flush.(stage := Ready))
  }

  lemma OneStampSound(keccak: string -> string, s: State, id: Id, b: Id)
    requires Sound(keccak, s) && Enabled(s, Stamp(Done)) && NoSplit(s.queue, s.flush.rows)
    requires id in s.queue && WithStamps(s).queue[id].batch == Some(b)
    ensures StampSound(WithStamps(s), b)
  {
    StampMovesRows(s, s.flush.stage.batch);
    assert IsBatch(WithStamps(s), b) == IsBatch(s, b);
    if b != s.flush.stage.batch {
      assert id in Members(s.queue, b) && id !in Ids(s.flush.rows);
    }
  }

  lemma StampedKeepsStamps(keccak: string -> string, s: State)
    requires Sound(keccak, s) && Enabled(s, Stamp(Done)) && NoSplit(s.queue, s.flush.rows)
    ensures StampsSound(WithStamps(s))
  {
    var t := WithStamps(s);
    forall id | id in t.queue && t.queue[id].batch.Some? ensures StampSound(t, t.queue[id].batch.value) {
      OneStampSound(keccak, s, id, t.queue[id].batch.value);
    }
  }

  lemma StampedKeepsSound(keccak: string -> string, s: State)
    requires Sound(keccak, s) && Enabled(s, Stamp(Done)) && NoSplit(s.queue, s.flush.rows)
    ensures Sound(keccak, WithStamps(s))
  {
    var t := WithStamps(s);
    StampsGrow(s);
    StampedKeepsStamps(keccak, s);
    RecordsStay(keccak, s, t);
    OrderedStays(s, t, s.flush.rows);
    assert forall b :: IsBatch(t, b) == IsBatch(s, b);
  }

  lemma StampsGrow(s: State)
    requires Enabled(s, Stamp(Done))
    ensures Grows(s, WithStamps(s))
  {
  }

  lemma StampDone(keccak: string -> string, s: State)
    requires Sound(keccak, s) && Enabled(s, Stamp(Done)) && NoSplit(s.queue, s.flush.rows)
    ensures Sound(keccak, Apply(keccak, s, Stamp(Done)))
  {
    StampedKeepsSound(keccak, s);
    IdleKeepsSound(keccak, WithStamps(s));
  }

  lemma StampDoneButError(keccak: string -> string, s: State)
    requires Sound(keccak, s) && Enabled(s, Stamp(DoneButError)) && NoSplit(s.queue, s.flush.rows)
    ensures Sound(keccak, Apply(keccak, s, Stamp(DoneButError)))
  {
    var t := WithStamps(s);
    assert Retry(t.flush) == Retry(s.flush);
    assert Apply(keccak, s, Stamp(DoneButError)) == t.(flush := Retry(t.flush));
    RetryKeepsSound(keccak, t) by { StampedKeepsSound(keccak, s); }
  }

  /** A batch that is stamped in part keeps a member whose batch is no longer whole. */
  lemma SplitBreaksStamps(keccak: string -> string, s: State, t: State)
    requires Sound(keccak, s) && Enabled(s, Stamp(Done)) && !NoSplit(s.queue, s.flush.rows)
    requires t.queue == Stamped(s.queue, s.flush.rows, s.flush.stage.batch) && t.flushed == s.flushed
    ensures !StampsSound(t)
  {
    var rows := s.flush.rows;
    var b :| !(Members(s.queue, b) !! Ids(rows)) && !(Members(s.queue, b) <= Ids(rows));
    var kept :| kept in Members(s.queue, b) && kept !in Ids(rows);
    var moved :| moved in Members(s.queue, b) && moved in Ids(rows);
    assert StampSound(s, b);
    assert b != s.flush.stage.batch;
    StampMovesRows(s, s.flush.stage.batch);
    assert t.queue[kept].batch == Some(b);
    assert moved in Ids(s.flushed[b]) && moved !in Members(t.queue, b);
    assert !StampSound(t, b);
  }

  /** A stamping that takes effect is safe exactly when it splits no batch. */
  lemma StampSafeIff(keccak: string -> string, s: State, outcome: Outcome)
    requires Sound(keccak, s) && Enabled(s, Stamp(outcome))
    ensures Sound(keccak, Apply(keccak, s, Stamp(outcome))) <==> outcome.Failed? || NoSplit(s.queue, s.flush.rows)
  {
    if outcome.Failed? {
      RetryKeepsSound(keccak, s);
    } else if !NoSplit(s.queue, s.flush.rows) {
      SplitBreaksStamps(keccak, s, Apply(keccak, s, Stamp(outcome)));
    } else if outcome.Done? {
      StampDone(keccak, s);
    } else {
      StampDoneButError(keccak, s);
    }
  }

  lemma {:induction false} ForeignHasNoTopic(logs: seq<Log>)
    requires IsForeign(logs)
    ensures FirstTopic(logs).None?
  {
    if logs != [] {
      assert IsForeign(logs[1..]) by {
        assert forall i :: 0 <= i < |logs[1..]| ==> logs[1..][i] == logs[i + 1];
      }
      ForeignHasNoTopic(logs[1..]);
    }
  }

  /** A stamping that takes effect and leaves some batch with part of its rows. */
  ghost predicate Splits(s: State, op: Op) {
    op.Stamp? && !op.outcome.Failed? && s.flush.Working? && !NoSplit(s.queue, s.flush.rows)
  }

  /** Every step of any flusher is safe, unless it splits a batch; then it is not. */
  lemma StepSafeIff(keccak: string -> string, s: State, op: Op)
    requires Sound(keccak, s) && Enabled(s, op)
    ensures Sound(keccak, Apply(keccak, s, op)) <==> !Splits(s, op)
  {
    match op
    case Enqueue(_, _, _, _) => QuietStepKeepsSound(keccak, s, Apply(keccak, s, op));
    case Begin(rows) => BeginKeepsSound(keccak, s, rows);
    case Submit(tx, outcome) => SubmitKeepsSound(keccak, s, tx, outcome);
    case GiveUp(tx) => GiveUpKeepsSound(keccak, s, tx);
    case Confirm(tx) => ConfirmKeepsSound(keccak, s, tx);
    case Insert(batch, outcome) => InsertKeepsSound(keccak, s, batch, outcome);
    case Stamp(outcome) => StampSafeIff(keccak, s, outcome);
    case Crash => IdleKeepsSound(keccak, s);
    case Foreign(tx, logs) =>
      ForeignHasNoTopic(logs);
      QuietStepKeepsSound(keccak, s, Apply(keccak, s, op));
  }

  // ---- one flusher ----

  /** A single flusher never splits a batch. */
  lemma ApartMeansNoSplit(s: State)
    requires s.flush.Working? && FlushApart(s) && Ids(s.flush.rows) <= s.queue.Keys
    ensures NoSplit(s.queue, s.flush.rows)
  {
    var rows := s.flush.rows;
    if !(Ids(rows) <= Pending(s.queue)) {
      var b0 :| b0 in s.flushed && Members(s.queue, b0) == Ids(rows);
      forall b ensures Members(s.queue, b) !! Ids(rows) || Members(s.queue, b) <= Ids(rows) {
        if b != b0 { assert Members(s.queue, b) !! Members(s.queue, b0); }
      }
    }
  }

  lemma StepKeepsApart(keccak: string -> string, s: State, op: Op)
    requires Inv(keccak, s) && Enabled(s, op)
    ensures FlushApart(Apply(keccak, s, op))
  {
    var t := Apply(keccak, s, op);
    if op.Stamp? {
      StampKeepsApart(keccak, s, op.outcome);
    } else if !op.Begin? && t.flush.Working? {
      UnstampingStep(keccak, s, op);
      ApartStays(s, t);
    }
  }

  lemma StampKeepsApart(keccak: string -> string, s: State, outcome: Outcome)
    requires Inv(keccak, s) && Enabled(s, Stamp(outcome))
    ensures FlushApart(Apply(keccak, s, Stamp(outcome)))
  {
    StampMovesRows(s, s.flush.stage.batch);
  }

  /** Every other step leaves the stamps alone and goes on with the same rows. */
  lemma UnstampingStep(keccak: string -> string, s: State, op: Op)
    requires Enabled(s, op) && !op.Stamp? && !op.Begin?
    ensures var t := Apply(keccak, s, op);
            && (t.flush.Working? ==> s.flush.Working? && t.flush.rows == s.flush.rows)
            && (forall id :: id in s.queue ==> id in t.queue && t.queue[id] == s.queue[id])
            && (forall id :: id in t.queue && id !in s.queue ==> t.queue[id].batch.None?)
            && (forall b :: b in s.flushed ==> b in t.flushed)
  {
  }

  lemma ApartStays(s: State, t: State)
    requires s.flush.Working? && t.flush.Working? && t.flush.rows == s.flush.rows && FlushApart(s)
    requires forall id :: id in s.queue ==> id in t.queue && t.queue[id] == s.queue[id]
    requires forall id :: id in t.queue && id !in s.queue ==> t.queue[id].batch.None?
    requires forall b :: b in s.flushed ==> b in t.flushed
    ensures FlushApart(t)
  {
    if b :| b in s.flushed && Members(s.queue, b) == Ids(s.flush.rows) {
      assert Members(t.queue, b) == Members(s.queue, b);
    }
  }

  /** Every step keeps the invariant, whatever fails and whoever else runs. */
  lemma StepKeepsInv(keccak: string -> string, s: State, op: Op)
    requires Inv(keccak, s) && Enabled(s, op)
    ensures Inv(keccak, Apply(keccak, s, op))
  {
    if op.Stamp? { ApartMeansNoSplit(s); }
    StepSafeIff(keccak, s, op);
    StepKeepsApart(keccak, s, op);
  }

  /** The states a run of the given steps can pass through. */
  ghost predicate Run(keccak: string -> string, s: State, ops: seq<Op>, t: State)
    decreases |ops|
  {
    if ops == [] then t == s
    else Enabled(s, ops[0]) && Run(keccak, Apply(keccak, s, ops[0]), ops[1..], t)
  }

  /** The invariant holds after every run, of any length and any interleaving. */
  lemma {:induction false} RunKeepsInv(keccak: string -> string, s: State, ops: seq<Op>, t: State)
    requires Inv(keccak, s) && Run(keccak, s, ops, t)
    ensures Inv(keccak, t) && Grows(s, t)
    decreases |ops|
  {
    if ops != [] {
      ApplyGrows(keccak, s, ops[0]);
      StepKeepsInv(keccak, s, ops[0]);
      RunKeepsInv(keccak, Apply(keccak, s, ops[0]), ops[1..], t);
    }
  }

  lemma InitHasInv(keccak: string -> string, s: State)
    requires Init(s)
    ensures Inv(keccak, s)
  {
  }

  // ---- reachable states ----

  ghost predicate Reaches(keccak: string -> string, s: State, t: State) {
    exists ops :: Run(keccak, s, ops, t)
  }

  lemma {:induction false} RunAppend(keccak: string -> string, s: State, a: seq<Op>, t: State, b: seq<Op>, u: State)
    requires Run(keccak, s, a, t) && Run(keccak, t, b, u)
    ensures Run(keccak, s, a + b, u)
    decreases |a|
  {
    if a == [] {
      assert a + b == b;
    } else {
      RunAppend(keccak, Apply(keccak, s, a[0]), a[1..], t, b, u);
      assert (a + b)[1..] == a[1..] + b;
    }
  }

  lemma ReachesSelf(keccak: string -> string, s: State)
    ensures Reaches(keccak, s, s)
  {
    assert Run(keccak, s, [], s);
  }

  lemma ReachesStep(keccak: string -> string, s: State, t: State, op: Op)
    requires Reaches(keccak, s, t) && Enabled(t, op)
    ensures Reaches(keccak, s, Apply(keccak, t, op))
  {
    var ops :| Run(keccak, s, ops, t);
    var u := Apply(keccak, t, op);
    assert Run(keccak, u, [], u);
    assert [op][1..] == [];
    assert Run(keccak, t, [op], u);
    RunAppend(keccak, s, ops, t, [op], u);
  }

  lemma ReachesTransitive(keccak: string -> string, s: State, t: State, u: State)
    requires Reaches(keccak, s, t) && Reaches(keccak, t, u)
    ensures Reaches(keccak, s, u)
  {
    var a :| Run(keccak, s, a, t);
    var b :| Run(keccak, t, b, u);
    RunAppend(keccak, s, a, t, b, u);
  }

  lemma ReachesKeepsInv(keccak: string -> string, s: State, t: State)
    requires Inv(keccak, s) && Reaches(keccak, s, t)
    ensures Inv(keccak, t) && Grows(s, t)
  {
    var ops :| Run(keccak, s, ops, t);
    RunKeepsInv(keccak, s, ops, t);
  }
}
