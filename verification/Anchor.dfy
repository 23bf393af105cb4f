/** The digest queue, the flush that anchors it in the contract, and what can go wrong in between.

    Every step is atomic. A step of the flush that talks to the chain or the database may fail
    without effect, take effect, or take effect and still be reported as failed; a transaction may also
    be sent, given up on, and confirmed at any later time. Steps of other
    processes (messages being queued, foreign transactions) may come between any two steps. */
module Anchor {
  import opened Wrappers

  type Id = string

  const MAX_ATTEMPTS := 5
  const CONTRACT := "0x932d2b7d1e0e5b43792d21a28849e8cae85d0783"
  const DIGEST_RECORDED := "DigestRecorded(bytes32,uint256)"
  const DIGEST_LENGTH := 66

  /** A row of digest_queue. */
  datatype Row = Row(messageId: Id, digest: string, queuedAt: int, batch: Option<Id>)

  /** A row of blockchain_records. */
  datatype Record = Record(batch: Id, hash: string, tx: Id)

  datatype Log = Log(address: string, topics: seq<string>)

  /** What the flush keeps of a queue row: its id and its digest. */
  datatype Item = Item(id: Id, digest: string)

  /** How far an attempt has come. */
  datatype Stage = Ready | Sent(hash: string, tx: Id) | Recorded(batch: Id)

  datatype Flush = Idle | Working(rows: seq<Item>, attempt: nat, stage: Stage)

  /** `contract` is the contract's list of batch hashes, `receipts` what each transaction logged,
      `pending` what the service's unconfirmed transactions carry. `flushed` is history the program does
      not keep: the rows each recorded batch was made of. */
  datatype State = State(
    queue: map<Id, Row>,
    records: seq<Record>,
    contract: seq<string>,
    receipts: map<Id, seq<Log>>,
    flush: Flush,
    flushed: map<Id, seq<Item>>,
    pending: map<Id, string>
  )

  datatype Outcome = Done | DoneButError | Failed

  datatype Op =
    | Enqueue(id: Id, messageId: Id, digest: string, queuedAt: int)
    | Begin(rows: seq<Item>)
    | Submit(tx: Id, outcome: Outcome)
    | GiveUp(tx: Id)
    | Confirm(tx: Id)
    | Insert(batch: Id, outcome: Outcome)
    | Stamp(outcome: Outcome)
    | Crash
    | Foreign(tx: Id, logs: seq<Log>)

  function LowerChar(c: char): char {
    if 'A' <= c <= 'Z' then c + ' ' else c
  }

  /** `toLowerCase`, on the ASCII letters. */
  function Lower(s: string): (r: string)
    ensures |r| == |s|
  {
    seq(|s|, i requires 0 <= i < |s| => LowerChar(s[i]))
  }

  /** The shape of every hash the library returns: 0x and 64 lower-case digits. */
  predicate IsHash(s: string) {
    |s| == DIGEST_LENGTH && Lower(s) == s
  }

  function Digests(rows: seq<Item>): (ds: seq<string>)
    ensures |ds| == |rows| && forall i :: 0 <= i < |rows| ==> ds[i] == rows[i].digest
  {
    seq(|rows|, i requires 0 <= i < |rows| => rows[i].digest)
  }

  /** `join('')` */
  function Join(ds: seq<string>): string {
    if ds == [] then "" else ds[0] + Join(ds[1..])
  }

  function Ids(rows: seq<Item>): set<Id> {
    set i | 0 <= i < |rows| :: rows[i].id
  }

  function Pending(queue: map<Id, Row>): set<Id> {
    set id | id in queue && queue[id].batch.None?
  }

  function Members(queue: map<Id, Row>, batch: Id): set<Id> {
    set id | id in queue && queue[id].batch == Some(batch)
  }

  predicate Distinct(rows: seq<Item>) {
    forall i, j :: 0 <= i < j < |rows| ==> rows[i].id != rows[j].id
  }

  /** Rows of the queue, each once, in `queued_at` order. Rows queued at the same time may come in
      any order, as in the database. */
  predicate Ordered(queue: map<Id, Row>, rows: seq<Item>) {
    && (forall i :: 0 <= i < |rows| ==> rows[i].id in queue && rows[i].digest == queue[rows[i].id].digest)
    && Distinct(rows)
    && (forall i, j :: 0 <= i < j < |rows| ==> queue[rows[i].id].queuedAt <= queue[rows[j].id].queuedAt)
  }

  /** An answer to SELECT ... ORDER BY queued_at ASC over the given rows. */
  predicate IsListing(queue: map<Id, Row>, ids: set<Id>, rows: seq<Item>) {
    Ordered(queue, rows) && Ids(rows) == ids
  }

  /** The transaction route: topics[1] of the first log of the contract. */
  function FirstTopic(logs: seq<Log>): Option<string> {
    if logs == [] then None
    else if Lower(logs[0].address) == CONTRACT then
      if |logs[0].topics| > 1 then Some(logs[0].topics[1]) else None
    else FirstTopic(logs[1..])
  }

  predicate IsForeign(logs: seq<Log>) {
    forall i :: 0 <= i < |logs| ==> Lower(logs[i].address) != CONTRACT
  }

  function BatchHash(keccak: string -> string, rows: seq<Item>): string {
    keccak(Join(Digests(rows)))
  }

  function Retry(f: Flush): Flush
    requires f.Working?
  {
    if f.attempt < MAX_ATTEMPTS then f.(attempt := f.attempt + 1, stage := Ready) else Idle
  }

  function Stamped(queue: map<Id, Row>, rows: seq<Item>, batch: Id): map<Id, Row> {
    map id | id in queue :: if id in Ids(rows) then queue[id].(batch := Some(batch)) else queue[id]
  }

  predicate IsBatch(s: State, batch: Id) {
    exists i :: 0 <= i < |s.records| && s.records[i].batch == batch
  }

  predicate IsUnused(s: State, tx: Id) {
    tx !in s.receipts && tx !in s.pending
  }

  /** What a call of the contract by its owner logs. */
  function DigestRecorded(hash: string): seq<Log> {
    [Log(CONTRACT, [DIGEST_RECORDED, hash])]
  }

  predicate Enabled(s: State, op: Op) {
    match op
    case Enqueue(id, _, digest, _) => id !in s.queue && IsHash(digest)
    case Begin(rows) => s.flush.Idle? && rows != [] && IsListing(s.queue, Pending(s.queue), rows)
    case Submit(tx, _) => s.flush.Working? && s.flush.stage.Ready? && IsUnused(s, tx)
    case GiveUp(tx) => s.flush.Working? && s.flush.stage.Ready? && IsUnused(s, tx)
    case Confirm(tx) => tx in s.pending && tx !in s.receipts
    case Insert(batch, _) => s.flush.Working? && s.flush.stage.Sent? && !IsBatch(s, batch)
    case Stamp(_) => s.flush.Working? && s.flush.stage.Recorded?
    case Crash => true
    case Foreign(tx, logs) => IsUnused(s, tx) && IsForeign(logs)
  }

  function Apply(keccak: string -> string, s: State, op: Op): State
    requires Enabled(s, op)
  {
    match op
    case Enqueue(id, messageId, digest, queuedAt) =>
      s.(queue := s.queue[id := Row(messageId, digest, queuedAt, None)])
    case Begin(rows) => s.(flush := Working(rows, 1, Ready))
    case Submit(tx, outcome) =>
      var hash := BatchHash(keccak, s.flush.rows);
      var sent := if outcome.Failed? then s
                  else s.(contract := s.contract + [hash],
                          receipts := s.receipts[tx := DigestRecorded(hash)]);
      sent.(flush := if outcome.Done? then s.flush.(stage := Sent(hash, tx)) else Retry(s.flush))
    case GiveUp(tx) =>
      s.(pending := s.pending[tx := BatchHash(keccak, s.flush.rows)], flush := Retry(s.flush))
    case Confirm(tx) =>
      s.(contract := s.contract + [s.pending[tx]], receipts := s.receipts[tx := DigestRecorded(s.pending[tx])],
         pending := map x | x in s.pending && x != tx :: s.pending[x])
    case Insert(batch, outcome) =>
      var inserted := if outcome.Failed? then s
                      else s.(records := s.records + [Record(batch, s.flush.stage.hash, s.flush.stage.tx)],
                              flushed := s.flushed[batch := s.flush.rows]);
      inserted.(flush := if outcome.Done? then s.flush.(stage := Recorded(batch)) else Retry(s.flush))
    case Stamp(outcome) =>
      var stamped := if outcome.Failed? then s
                     else s.(queue := Stamped(s.queue, s.flush.rows, s.flush.stage.batch));
      stamped.(flush := if outcome.Done? then Idle else Retry(s.flush))
    case Crash => s.(flush := Idle)
    case Foreign(tx, logs) => s.(receipts := s.receipts[tx := logs])
  }

  predicate Init(s: State) {
    s == State(map[], [], [], map[], Idle, map[], map[])
  }

  // ---- the invariant ----

  ghost predicate OnChain(s: State, tx: Id, hash: string) {
    tx in s.receipts && FirstTopic(s.receipts[tx]) == Some(hash) && hash in s.contract
  }

  ghost predicate RecordsDistinct(s: State) {
    forall i, j :: 0 <= i < j < |s.records| ==> s.records[i].batch != s.records[j].batch
  }

  ghost predicate RecordSound(keccak: string -> string, s: State, r: Record) {
    && r.batch in s.flushed && s.flushed[r.batch] != []
    && Ordered(s.queue, s.flushed[r.batch])
    && r.hash == BatchHash(keccak, s.flushed[r.batch])
    && OnChain(s, r.tx, r.hash)
  }

  ghost predicate RecordsSound(keccak: string -> string, s: State) {
    forall i :: 0 <= i < |s.records| ==> RecordSound(keccak, s, s.records[i])
  }

  /** A batch some row is stamped with has a record, and its members are the rows it was made of. */
  ghost predicate StampSound(s: State, b: Id) {
    IsBatch(s, b) && b in s.flushed && Members(s.queue, b) == Ids(s.flushed[b])
  }

  ghost predicate StampsSound(s: State) {
    forall id :: id in s.queue && s.queue[id].batch.Some? ==> StampSound(s, s.queue[id].batch.value)
  }

  ghost predicate DigestsShaped(s: State) {
    forall id :: id in s.queue ==> IsHash(s.queue[id].digest)
  }

  /** Only the service writes to the contract. */
  ghost predicate LogsSound(s: State) {
    forall tx, h :: tx in s.receipts && FirstTopic(s.receipts[tx]) == Some(h) ==> h in s.contract
  }

  /** What the flush has done so far is really there. */
  ghost predicate FlushSound(keccak: string -> string, s: State) {
    s.flush.Working? ==>
      var rows := s.flush.rows;
      && 1 <= s.flush.attempt <= MAX_ATTEMPTS
      && rows != [] && Ordered(s.queue, rows)
      && (match s.flush.stage
          case Ready => true
          case Sent(hash, tx) => hash == BatchHash(keccak, rows) && OnChain(s, tx, hash)
          case Recorded(b) =>
            b in s.flushed && s.flushed[b] == rows && IsBatch(s, b) && Members(s.queue, b) == {})
  }

  /** The rows being flushed are all unstamped, or an earlier attempt already stamped exactly them. */
  ghost predicate FlushApart(s: State) {
    s.flush.Working? ==>
      || Ids(s.flush.rows) <= Pending(s.queue)
      || exists b :: b in s.flushed && Members(s.queue, b) == Ids(s.flush.rows)
  }

  /** The tables and the chain agree. */
  ghost predicate Anchored(keccak: string -> string, s: State) {
    && RecordsDistinct(s)
    && RecordsSound(keccak, s)
    && StampsSound(s)
    && DigestsShaped(s)
    && LogsSound(s)
    && (forall b :: b in s.flushed <==> IsBatch(s, b))
  }

  /** What holds of each of several flushers; see module Overlap. */
  ghost predicate Sound(keccak: string -> string, s: State) {
    Anchored(keccak, s) && FlushSound(keccak, s)
  }

  /** With one flusher its rows are never shared with a batch that has others. */
  ghost predicate Inv(keccak: string -> string, s: State) {
    Sound(keccak, s) && FlushApart(s)
  }

  /** Every batch is stamped by the flush as a whole or left alone. */
  ghost predicate NoSplit(queue: map<Id, Row>, rows: seq<Item>) {
    forall b :: Members(queue, b) !! Ids(rows) || Members(queue, b) <= Ids(rows)
  }
}
