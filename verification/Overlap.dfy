/** Several flushers on one queue, as when an interval fires before the last flush has ended or the
    one-shot script runs beside the daemon. Each goes through the steps of module Anchor at its own
    pace, over the same tables and chain. */
module Overlap {
  import opened Wrappers
  import opened Anchor
  import opened AnchorInvariant

  /** The tables and the chain, with no flush of their own, and how far each flusher has come. */
  datatype Flushers = Flushers(shared: State, flushes: map<string, Flush>)

  datatype Move = Move(flusher: string, op: Op)

  function FlushOf(y: Flushers, f: string): Flush {
    if f in y.flushes then y.flushes[f] else Idle
  }

  /** What one flusher sees. */
  function ViewOf(y: Flushers, f: string): State {
    y.shared.(flush := FlushOf(y, f))
  }

  predicate CanMove(y: Flushers, m: Move) {
    Enabled(ViewOf(y, m.flusher), m.op)
  }

  function AfterMove(keccak: string -> string, y: Flushers, m: Move): Flushers
    requires CanMove(y, m)
  {
    var t := Apply(keccak, ViewOf(y, m.flusher), m.op);
    Flushers(t.(flush := Idle), y.flushes[m.flusher := t.flush])
  }

  /** No two flushers are about to stamp the same batch. */
  ghost predicate OwnBatches(y: Flushers) {
    forall f, g :: f != g && HasBatch(y, f) && HasBatch(y, g) ==>
      FlushOf(y, f).stage.batch != FlushOf(y, g).stage.batch
  }

  predicate HasBatch(y: Flushers, f: string) {
    FlushOf(y, f).Working? && FlushOf(y, f).stage.Recorded?
  }

  ghost predicate AllSound(keccak: string -> string, y: Flushers) {
    y.shared.flush.Idle? && OwnBatches(y) && forall f :: Sound(keccak, ViewOf(y, f))
  }

  lemma AnchoredWhateverFlush(keccak: string -> string, s: State, flush: Flush)
    requires Anchored(keccak, s)
    ensures Anchored(keccak, s.(flush := flush))
  {
    var t := s.(flush := flush);
    assert forall b :: IsBatch(t, b) == IsBatch(s, b);
    forall i | 0 <= i < |t.records| ensures RecordSound(keccak, t, t.records[i]) {
      assert RecordSound(keccak, s, s.records[i]);
    }
    forall id | id in t.queue && t.queue[id].batch.Some? ensures StampSound(t, t.queue[id].batch.value) {
      assert StampSound(s, s.queue[id].batch.value);
    }
  }

  /** A batch that is recorded but not stamped stays so under every step but its own stamping. */
  lemma StaysUnstamped(keccak: string -> string, s: State, op: Op, b: Id)
    requires Sound(keccak, s) && Enabled(s, op) && Members(s.queue, b) == {}
    requires op.Stamp? ==> b != s.flush.stage.batch
    ensures Members(Apply(keccak, s, op).queue, b) == {}
  {
    if op.Stamp? {
      StampMovesRows(s, s.flush.stage.batch);
    } else if !op.Begin? {
      UnstampingStep(keccak, s, op);
    }
  }

  /** The other flushers' progress is as real after a step as it was before. */
  lemma OthersStaySound(keccak: string -> string, s: State, op: Op, other: Flush)
    requires Sound(keccak, s) && Sound(keccak, s.(flush := other)) && Enabled(s, op)
    requires op.Stamp? && other.Working? && other.stage.Recorded? ==> other.stage.batch != s.flush.stage.batch
    requires Sound(keccak, Apply(keccak, s, op))
    ensures Sound(keccak, Apply(keccak, s, op).(flush := other))
  {
    var t := Apply(keccak, s, op);
    AnchoredWhateverFlush(keccak, t, other);
    ApplyGrows(keccak, s, op);
    if other.Working? {
      OrderedStays(s, t, other.rows);
      if other.stage.Sent? {
        OnChainStays(s, t, other.stage.tx, other.stage.hash);
      } else if other.stage.Recorded? {
        StaysUnstamped(keccak, s, op, other.stage.batch);
        BatchStays(s, t, other.stage.batch);
      }
    }
  }

  lemma BatchStays(s: State, t: State, b: Id)
    requires Grows(s, t) && IsBatch(s, b)
    ensures IsBatch(t, b)
  {
    var i :| 0 <= i < |s.records| && s.records[i].batch == b;
    assert t.records[i] == s.records[i];
  }

  /** A step that ends with a recorded batch of its own has just recorded it, or already had it. */
  lemma BatchOfMover(keccak: string -> string, s: State, op: Op)
    requires Enabled(s, op)
    ensures var t := Apply(keccak, s, op);
            t.flush.Working? && t.flush.stage.Recorded? ==>
              || (s.flush.Working? && s.flush.stage.Recorded? && t.flush.stage.batch == s.flush.stage.batch)
              || !IsBatch(s, t.flush.stage.batch)
  {
  }

  lemma OwnBatchesStay(keccak: string -> string, y: Flushers, m: Move)
    requires AllSound(keccak, y) && CanMove(y, m)
    ensures OwnBatches(AfterMove(keccak, y, m))
  {
    var z := AfterMove(keccak, y, m);
    BatchOfMover(keccak, ViewOf(y, m.flusher), m.op);
    forall g | g != m.flusher && HasBatch(z, g) && HasBatch(z, m.flusher)
      ensures FlushOf(z, g).stage.batch != FlushOf(z, m.flusher).stage.batch
    {
      assert FlushOf(z, g) == FlushOf(y, g) && HasBatch(y, g);
      assert Sound(keccak, ViewOf(y, g));
      assert IsBatch(ViewOf(y, g), FlushOf(y, g).stage.batch);
    }
    forall f, g | f != g && HasBatch(z, f) && HasBatch(z, g)
      ensures FlushOf(z, f).stage.batch != FlushOf(z, g).stage.batch
    {
      if f != m.flusher && g != m.flusher { assert HasBatch(y, f) && HasBatch(y, g); }
    }
  }

  /** The exact condition for several flushers: a step is safe if and only if it does not stamp a part
      of a batch and leave the rest. */
  lemma MoveSafeIff(keccak: string -> string, y: Flushers, m: Move)
    requires AllSound(keccak, y) && CanMove(y, m)
    ensures AllSound(keccak, AfterMove(keccak, y, m)) <==> !Splits(ViewOf(y, m.flusher), m.op)
  {
    var s, z := ViewOf(y, m.flusher), AfterMove(keccak, y, m);
    var t := Apply(keccak, s, m.op);
    assert Sound(keccak, s);
    StepSafeIff(keccak, s, m.op);
    assert ViewOf(z, m.flusher) == t;
    if !Splits(s, m.op) {
      OwnBatchesStay(keccak, y, m);
      forall g ensures Sound(keccak, ViewOf(z, g)) {
        if g != m.flusher {
          assert Sound(keccak, ViewOf(y, g)) && ViewOf(y, g) == s.(flush := FlushOf(y, g));
          assert ViewOf(z, g) == t.(flush := FlushOf(y, g));
          if m.op.Stamp? && HasBatch(y, g) { assert HasBatch(y, m.flusher); }
          OthersStaySound(keccak, s, m.op, FlushOf(y, g));
        }
      }
    }
  }

  /** A run, with the states it passes through. */
  ghost predicate IsRun(keccak: string -> string, ys: seq<Flushers>, moves: seq<Move>) {
    && |ys| == |moves| + 1
    && forall i :: 0 <= i < |moves| ==> CanMove(ys[i], moves[i]) && ys[i + 1] == AfterMove(keccak, ys[i], moves[i])
  }

  ghost predicate NeverSplits(ys: seq<Flushers>, moves: seq<Move>)
    requires |ys| == |moves| + 1
  {
    forall i :: 0 <= i < |moves| ==> !Splits(ViewOf(ys[i], moves[i].flusher), moves[i].op)
  }

  /** Over a whole run, whatever fails and however the flushers interleave: the tables and the chain
      agree all along if and only if no stamping splits a batch. */
  lemma RunSafeIff(keccak: string -> string, ys: seq<Flushers>, moves: seq<Move>)
    requires IsRun(keccak, ys, moves) && AllSound(keccak, ys[0])
    ensures (forall i :: 0 <= i < |ys| ==> AllSound(keccak, ys[i])) <==> NeverSplits(ys, moves)
  {
    if NeverSplits(ys, moves) {
      forall i | 0 <= i < |ys| ensures AllSound(keccak, ys[i]) {
        SoundUpTo(keccak, ys, moves, i);
      }
    } else {
      var i :| 0 <= i < |moves| && Splits(ViewOf(ys[i], moves[i].flusher), moves[i].op);
      if AllSound(keccak, ys[i]) {
        MoveSafeIff(keccak, ys[i], moves[i]);
        assert !AllSound(keccak, ys[i + 1]);
      }
    }
  }

  lemma {:induction false} SoundUpTo(keccak: string -> string, ys: seq<Flushers>, moves: seq<Move>, i: nat)
    requires IsRun(keccak, ys, moves) && AllSound(keccak, ys[0]) && NeverSplits(ys, moves) && i < |ys|
    ensures AllSound(keccak, ys[i])
  {
    if i > 0 {
      SoundUpTo(keccak, ys, moves, i - 1);
      MoveSafeIff(keccak, ys[i - 1], moves[i - 1]);
    }
  }

  lemma InitAllSound(keccak: string -> string, y: Flushers)
    requires Init(y.shared) && y.flushes == map[]
    ensures AllSound(keccak, y)
  {
    forall f ensures Sound(keccak, ViewOf(y, f)) {
      assert ViewOf(y, f) == y.shared;
      InitHasInv(keccak, y.shared);
    }
  }
}
