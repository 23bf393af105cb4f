/** Runs from the empty database that reach the exceptions named elsewhere: a batch whose rows were
    queued at the same instant, and a batch that a second flusher splits. */
module Witnesses {
  import opened Wrappers
  import opened Anchor
  import opened AnchorInvariant
  import opened Overlap
  import Listing
  import Verification

  const EMPTY: State := State(map[], [], [], map[], Idle, map[], map[])

  const FIRST: Id := "1"
  const SECOND: Id := "2"

  function TwoItems(d: string, e: string): seq<Item> {
    [Item(FIRST, d), Item(SECOND, e)]
  }

  function TwoRows(d: string, e: string, at: int, at': int, b: Option<Id>): map<Id, Row> {
    map[FIRST := Row("m1", d, at, b), SECOND := Row("m2", e, at', b)]
  }

  lemma TwoListed(d: string, e: string, at: int, at': int, b: Option<Id>)
    requires at <= at'
    ensures Ids(TwoItems(d, e)) == {FIRST, SECOND}
    ensures Ordered(TwoRows(d, e, at, at', b), TwoItems(d, e))
  {
    var rows := TwoItems(d, e);
    assert rows[0].id == FIRST && rows[1].id == SECOND && |rows| == 2;
    assert FIRST != SECOND;
  }

  // ---- ties ----

  function Receipt(keccak: string -> string, rows: seq<Item>): seq<Log> {
    DigestRecorded(BatchHash(keccak, rows))
  }

  /** Both rows queued, and the flush has taken them up. */
  function Taken(d: string, e: string, at: int): State {
    State(TwoRows(d, e, at, at, None), [], [], map[], Working(TwoItems(d, e), 1, Ready), map[], map[])
  }

  function Anchoring(keccak: string -> string, d: string, e: string, at: int, b: Option<Id>, flush: Flush): State {
    var rows := TwoItems(d, e);
    State(TwoRows(d, e, at, at, b), [Record("b", BatchHash(keccak, rows), "t")], [BatchHash(keccak, rows)],
          map["t" := Receipt(keccak, rows)], flush, map["b" := rows], map[])
  }

  lemma TakenReached(keccak: string -> string, d: string, e: string, at: int)
    requires IsHash(d) && IsHash(e)
    ensures Reaches(keccak, EMPTY, Taken(d, e, at))
  {
    ReachesSelf(keccak, EMPTY);
    var one := Apply(keccak, EMPTY, Enqueue(FIRST, "m1", d, at));
    ReachesStep(keccak, EMPTY, EMPTY, Enqueue(FIRST, "m1", d, at));
    assert FIRST != SECOND;
    var two := Apply(keccak, one, Enqueue(SECOND, "m2", e, at));
    ReachesStep(keccak, EMPTY, one, Enqueue(SECOND, "m2", e, at));
    assert two.queue == TwoRows(d, e, at, at, None);
    TwoListed(d, e, at, at, None);
    assert Pending(two.queue) == {FIRST, SECOND};
    ReachesStep(keccak, EMPTY, two, Begin(TwoItems(d, e)));
  }

  lemma AnchoringReached(keccak: string -> string, d: string, e: string, at: int)
    requires IsHash(d) && IsHash(e)
    ensures Reaches(keccak, EMPTY, Anchoring(keccak, d, e, at, None, Working(TwoItems(d, e), 1, Recorded("b"))))
  {
    var taken := Taken(d, e, at);
    TakenReached(keccak, d, e, at);
    var sent := Apply(keccak, taken, Submit("t", Done));
    ReachesStep(keccak, EMPTY, taken, Submit("t", Done));
    ReachesStep(keccak, EMPTY, sent, Insert("b", Done));
    assert Apply(keccak, sent, Insert("b", Done)) ==
           Anchoring(keccak, d, e, at, None, Working(TwoItems(d, e), 1, Recorded("b")));
  }

  /** Any two messages of different digest that are queued at the same instant can be flushed
      together, and then the order of their batch is not determined. */
  lemma TiedRowsGetStamped(keccak: string -> string, d: string, e: string, at: int) returns (s: State)
    requires IsHash(d) && IsHash(e) && d != e
    ensures Reaches(keccak, EMPTY, s) && s == Anchoring(keccak, d, e, at, Some("b"), Idle)
    ensures Members(s.queue, "b") == {FIRST, SECOND} && !Listing.TiesAgree(s.queue, Members(s.queue, "b"))
  {
    var rows := TwoItems(d, e);
    var recorded := Anchoring(keccak, d, e, at, None, Working(rows, 1, Recorded("b")));
    AnchoringReached(keccak, d, e, at);
    s := Apply(keccak, recorded, Stamp(Done));
    ReachesStep(keccak, EMPTY, recorded, Stamp(Done));
    TwoListed(d, e, at, at, None);
    assert s.queue == TwoRows(d, e, at, at, Some("b"));
    assert FIRST != SECOND;
  }

  /** On such a batch the page fails the original, for some answer of the database. */
  lemma TiedOriginalCanFail(h: Verification.Hashing, d: string, e: string, at: int, ciphertext: string)
    returns (s: State, a: Verification.DigestAnswer, rows: seq<Item>)
    requires Verification.HashingSound(h) && IsHash(d) && IsHash(e) && d != e
    ensures Reaches(h.text, EMPTY, s) && FIRST in s.queue && s.queue[FIRST] == Row("m1", d, at, Some("b"))
    ensures Verification.IsAnswer(s, "m1", a, rows)
    ensures Verification.TextCollision(h, rows, TwoItems(d, e)) ||
            Verification.Verify(h, s, "m1", ciphertext, "", a, rows) != Verification.Shown(true)
  {
    s := TiedRowsGetStamped(h.text, d, e, at);
    InitHasInv(h.text, EMPTY);
    ReachesKeepsInv(h.text, EMPTY, s);
    a, rows := Verification.TieCanFail(h, s, FIRST, ciphertext, s.records[0]);
  }

  // ---- overlapping flushers ----

  lemma Extend(keccak: string -> string, ys: seq<Flushers>, moves: seq<Move>, m: Move)
    returns (ys': seq<Flushers>, moves': seq<Move>)
    requires IsRun(keccak, ys, moves) && CanMove(ys[|ys| - 1], m)
    ensures IsRun(keccak, ys', moves') && |ys'| == |ys| + 1 && ys'[0] == ys[0] && ys'[|ys'| - 2] == ys[|ys| - 1]
    ensures moves'[|moves'| - 1] == m && ys'[|ys'| - 1] == AfterMove(keccak, ys[|ys| - 1], m)
  {
    ys', moves' := ys + [AfterMove(keccak, ys[|ys| - 1], m)], moves + [m];
  }

  const NONE: Flushers := Flushers(EMPTY, map[])

  /** Flusher A has taken up the first row, flusher B both. */
  function BothTaken(d: string, e: string, at: int, at': int): Flushers {
    Flushers(State(TwoRows(d, e, at, at', None), [], [], map[], Idle, map[], map[]),
             map["A" := Working([Item(FIRST, d)], 1, Ready), "B" := Working(TwoItems(d, e), 1, Ready)])
  }

  lemma BothTakenReached(keccak: string -> string, d: string, e: string, at: int, at': int)
    returns (ys: seq<Flushers>, moves: seq<Move>)
    requires IsHash(d) && IsHash(e) && at <= at'
    ensures IsRun(keccak, ys, moves) && ys[0] == NONE && ys[|ys| - 1] == BothTaken(d, e, at, at')
  {
    ys, moves := [NONE], [];
    ys, moves := Extend(keccak, ys, moves, Move("A", Enqueue(FIRST, "m1", d, at)));
    var one := ys[|ys| - 1];
    OneListed(d, at);
    assert one.shared.queue == map[FIRST := Row("m1", d, at, None)];
    ys, moves := Extend(keccak, ys, moves, Move("A", Begin([Item(FIRST, d)])));
    assert FIRST != SECOND;
    ys, moves := Extend(keccak, ys, moves, Move("A", Enqueue(SECOND, "m2", e, at')));
    var two := ys[|ys| - 1];
    assert two.shared.queue == TwoRows(d, e, at, at', None);
    TwoListed(d, e, at, at', None);
    assert Pending(two.shared.queue) == {FIRST, SECOND};
    assert FlushOf(two, "B").Idle?;
    ys, moves := Extend(keccak, ys, moves, Move("B", Begin(TwoItems(d, e))));
  }

  lemma OneListed(d: string, at: int)
    ensures Ids([Item(FIRST, d)]) == {FIRST}
    ensures Pending(map[FIRST := Row("m1", d, at, None)]) == {FIRST}
    ensures Ordered(map[FIRST := Row("m1", d, at, None)], [Item(FIRST, d)])
  {
    assert [Item(FIRST, d)][0].id == FIRST;
  }

  /** Both have recorded their batches and stamped nothing yet. */
  function BothRecorded(keccak: string -> string, d: string, e: string, at: int, at': int): Flushers {
    var one, two := [Item(FIRST, d)], TwoItems(d, e);
    var h, h' := BatchHash(keccak, one), BatchHash(keccak, two);
    Flushers(State(TwoRows(d, e, at, at', None), [Record("a", h, "s"), Record("b", h', "t")], [h, h'],
                   map["s" := Receipt(keccak, one), "t" := Receipt(keccak, two)], Idle,
                   map["a" := one, "b" := two], map[]),
             map["A" := Working(one, 1, Recorded("a")), "B" := Working(two, 1, Recorded("b"))])
  }

  /** A flusher submits and records its rows, while the others wait. */
  lemma Records(
    keccak: string -> string, ys: seq<Flushers>, moves: seq<Move>, f: string, rows: seq<Item>, tx: Id, b: Id
  ) returns (ys': seq<Flushers>, moves': seq<Move>)
    requires IsRun(keccak, ys, moves)
    requires var y := ys[|ys| - 1];
             && y.shared.flush.Idle? && FlushOf(y, f) == Working(rows, 1, Ready)
             && IsUnused(y.shared, tx) && !IsBatch(y.shared, b)
    ensures IsRun(keccak, ys', moves') && ys'[0] == ys[0]
    ensures var s := ys[|ys| - 1].shared; var h := BatchHash(keccak, rows);
            ys'[|ys'| - 1] == Flushers(
              s.(records := s.records + [Record(b, h, tx)], contract := s.contract + [h],
                 receipts := s.receipts[tx := Receipt(keccak, rows)], flushed := s.flushed[b := rows]),
              ys[|ys| - 1].flushes[f := Working(rows, 1, Recorded(b))])
  {
    var flushes := ys[|ys| - 1].flushes;
    ys', moves' := Extend(keccak, ys, moves, Move(f, Submit(tx, Done)));
    assert !IsBatch(ViewOf(ys'[|ys'| - 1], f), b);
    ys', moves' := Extend(keccak, ys', moves', Move(f, Insert(b, Done)));
    assert ys'[|ys'| - 1].flushes == flushes[f := Working(rows, 1, Recorded(b))];
  }

  lemma BothRecordedReached(
    keccak: string -> string, d: string, e: string, at: int, at': int, ys: seq<Flushers>, moves: seq<Move>
  ) returns (ys': seq<Flushers>, moves': seq<Move>)
    requires IsRun(keccak, ys, moves) && ys[|ys| - 1] == BothTaken(d, e, at, at')
    ensures IsRun(keccak, ys', moves') && ys'[0] == ys[0] && ys'[|ys'| - 1] == BothRecorded(keccak, d, e, at, at')
  {
    assert "A" != "B" && "s" != "t" && "a" != "b";
    ys', moves' := Records(keccak, ys, moves, "A", [Item(FIRST, d)], "s", "a");
    ys', moves' := Records(keccak, ys', moves', "B", TwoItems(d, e), "t", "b");
    BothRecordedIs(keccak, d, e, at, at');
  }

  lemma BothRecordedIs(keccak: string -> string, d: string, e: string, at: int, at': int)
    ensures var one, two := [Item(FIRST, d)], TwoItems(d, e);
            var h, h' := BatchHash(keccak, one), BatchHash(keccak, two);
            var y, z := BothTaken(d, e, at, at'), BothRecorded(keccak, d, e, at, at');
            && [] + [Record("a", h, "s")] + [Record("b", h', "t")] == z.shared.records
            && [] + [h] + [h'] == z.shared.contract
            && y.shared.receipts["s" := Receipt(keccak, one)]["t" := Receipt(keccak, two)] == z.shared.receipts
            && y.shared.flushed["a" := one]["b" := two] == z.shared.flushed
            && y.flushes["A" := Working(one, 1, Recorded("a"))]["B" := Working(two, 1, Recorded("b"))] == z.flushes
  {
  }

  /** B stamps both rows. */
  function StampedByB(keccak: string -> string, d: string, e: string, at: int, at': int): Flushers {
    var y := BothRecorded(keccak, d, e, at, at');
    Flushers(y.shared.(queue := TwoRows(d, e, at, at', Some("b"))), y.flushes["B" := Idle])
  }

  lemma StampByB(keccak: string -> string, d: string, e: string, at: int, at': int)
    requires at <= at'
    ensures var y := BothRecorded(keccak, d, e, at, at');
            && CanMove(y, Move("B", Stamp(Done)))
            && AfterMove(keccak, y, Move("B", Stamp(Done))) == StampedByB(keccak, d, e, at, at')
  {
    var y := BothRecorded(keccak, d, e, at, at');
    TwoListed(d, e, at, at', None);
    assert FlushOf(y, "B") == Working(TwoItems(d, e), 1, Recorded("b"));
    assert Stamped(TwoRows(d, e, at, at', None), TwoItems(d, e), "b") == TwoRows(d, e, at, at', Some("b"));
  }

  lemma StampByA(keccak: string -> string, d: string, e: string, at: int, at': int)
    requires at <= at'
    ensures var y := StampedByB(keccak, d, e, at, at'); var m := Move("A", Stamp(Done));
            && CanMove(y, m) && Splits(ViewOf(y, "A"), Stamp(Done))
            && AfterMove(keccak, y, m).shared == y.shared.(queue := SplitRows(d, e, at, at'))
  {
    var y := StampedByB(keccak, d, e, at, at');
    OneListed(d, at);
    assert "A" != "B" && FIRST != SECOND;
    assert FlushOf(y, "A") == Working([Item(FIRST, d)], 1, Recorded("a"));
    assert Stamped(y.shared.queue, [Item(FIRST, d)], "a") == SplitRows(d, e, at, at');
    assert SECOND in Members(y.shared.queue, "b") && FIRST in Members(y.shared.queue, "b");
  }

  function SplitRows(d: string, e: string, at: int, at': int): map<Id, Row> {
    map[FIRST := Row("m1", d, at, Some("a")), SECOND := Row("m2", e, at', Some("b"))]
  }

  /** Two overlapping flushes of any two messages: B stamps both rows, then A takes the first one
      away. The second row stays stamped with a batch whose recorded hash covers both. */
  lemma OverlapSplits(keccak: string -> string, d: string, e: string, at: int, at': int)
    returns (ys: seq<Flushers>, moves: seq<Move>)
    requires IsHash(d) && IsHash(e) && at <= at'
    ensures IsRun(keccak, ys, moves) && ys[0] == NONE && !NeverSplits(ys, moves)
    ensures var s := ys[|ys| - 1].shared;
            s == BothRecorded(keccak, d, e, at, at').shared.(queue := SplitRows(d, e, at, at'))
  {
    ys, moves := BothTakenReached(keccak, d, e, at, at');
    ys, moves := BothRecordedReached(keccak, d, e, at, at', ys, moves);
    StampByB(keccak, d, e, at, at');
    ys, moves := Extend(keccak, ys, moves, Move("B", Stamp(Done)));
    StampByA(keccak, d, e, at, at');
    ys, moves := Extend(keccak, ys, moves, Move("A", Stamp(Done)));
    var i := |moves| - 1;
    assert Splits(ViewOf(ys[i], moves[i].flusher), moves[i].op);
  }

  /** From then on the second message fails on the page, whatever is answered. */
  lemma OverlapFailsVerification(
    h: Verification.Hashing, d: string, e: string, at: int, at': int, ciphertext: string
  ) returns (ys: seq<Flushers>, moves: seq<Move>)
    requires Verification.HashingSound(h) && IsHash(d) && IsHash(e) && at <= at'
    ensures IsRun(h.text, ys, moves) && ys[0] == NONE
    ensures var s := ys[|ys| - 1].shared;
            && SECOND in s.queue && s.queue[SECOND] == Row("m2", e, at', Some("b"))
            && forall a, rows :: Verification.IsAnswer(s, "m2", a, rows) ==>
                 || Verification.TextCollision(h, rows, TwoItems(d, e))
                 || Verification.Verify(h, s, "m2", ciphertext, "", a, rows) != Verification.Shown(true)
  {
    ys, moves := OverlapSplits(h.text, d, e, at, at');
    var s := ys[|ys| - 1].shared;
    SplitTablesSound(h.text, s, d, e, at, at');
    forall a, rows | Verification.IsAnswer(s, "m2", a, rows)
      ensures Verification.TextCollision(h, rows, TwoItems(d, e)) ||
              Verification.Verify(h, s, "m2", ciphertext, "", a, rows) != Verification.Shown(true)
    {
      Verification.BrokenBatchFails(h, s, SECOND, ciphertext, a, rows, "b");
    }
  }

  lemma SplitTablesSound(keccak: string -> string, s: State, d: string, e: string, at: int, at': int)
    requires IsHash(d) && IsHash(e) && at <= at'
    requires s == BothRecorded(keccak, d, e, at, at').shared.(queue := SplitRows(d, e, at, at'))
    ensures RecordsDistinct(s) && RecordsSound(keccak, s) && DigestsShaped(s) && Verification.OneRowPerMessage(s)
    ensures IsBatch(s, "b") && s.flushed["b"] == TwoItems(d, e) && Members(s.queue, "b") < Ids(TwoItems(d, e))
  {
    assert "a" != "b" && "s" != "t";
    assert s.records[1].batch == "b";
    SplitQueue(d, e, at, at');
    assert s.contract[0] == BatchHash(keccak, [Item(FIRST, d)]) && s.contract[1] == BatchHash(keccak, TwoItems(d, e));
    ConfirmedRecord(keccak, s, s.records[0], [Item(FIRST, d)]);
    ConfirmedRecord(keccak, s, s.records[1], TwoItems(d, e));
  }

  lemma SplitQueue(d: string, e: string, at: int, at': int)
    requires at <= at'
    ensures var q := SplitRows(d, e, at, at');
            && Members(q, "b") < Ids(TwoItems(d, e))
            && Ordered(q, [Item(FIRST, d)]) && Ordered(q, TwoItems(d, e))
            && forall x :: x in q <==> x == FIRST || x == SECOND
    ensures "m1" != "m2" && FIRST != SECOND
  {
    var q := SplitRows(d, e, at, at');
    assert FIRST != SECOND && "m1" != "m2" && "a" != "b";
    TwoListed(d, e, at, at', None);
    assert Members(q, "b") == {SECOND};
    assert FIRST in Ids(TwoItems(d, e));
  }

  lemma ConfirmedRecord(keccak: string -> string, s: State, r: Record, rows: seq<Item>)
    requires r.batch in s.flushed && s.flushed[r.batch] == rows && rows != [] && Ordered(s.queue, rows)
    requires r.hash == BatchHash(keccak, rows) && r.hash in s.contract
    requires r.tx in s.receipts && s.receipts[r.tx] == Receipt(keccak, rows)
    ensures RecordSound(keccak, s, r)
  {
    LowerContract();
  }
}
