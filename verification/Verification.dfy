/** The verification page and the three public queries it asks. */
module Verification {
  import opened Octets
  import opened Wrappers
  import opened Anchor
  import Cuts
  import Listing
  import Base64

  /** keccak256 as the library returns it, of bytes and of the UTF-8 of a text, and the decoding the
      server applies to a ciphertext before hashing it. */
  datatype Hashing = Hashing(bytes: seq<byte> -> string, text: string -> string, serverDecode: string -> seq<byte>)

  ghost predicate HashingSound(h: Hashing) {
    && (forall b: seq<byte> :: IsHash(h.bytes(b)))
    && (forall t :: IsHash(h.text(t)))
    && (forall b: seq<byte> :: h.serverDecode(Base64.ToB64u(b)) == b)
  }

  /** The digest the server queues with a message. */
  function DigestOf(h: Hashing, ciphertext: string): string {
    h.bytes(h.serverDecode(ciphertext))
  }

  /** Answer of the digest route; `tx` is null when the batch has no record. */
  datatype DigestAnswer = NotFound | Found(digest: string, batch: Id, tx: Option<Id>)

  /** LEFT JOIN of the queue row with the records of its batch, first row of the result: any row of
      the message, and any record of its batch. */
  ghost predicate IsDigestAnswer(s: State, messageId: Id, a: DigestAnswer) {
    if forall id :: id in s.queue ==> s.queue[id].messageId != messageId then a.NotFound?
    else exists id :: id in s.queue && s.queue[id].messageId == messageId && AnswersFor(s, s.queue[id], a)
  }

  ghost predicate AnswersFor(s: State, row: Row, a: DigestAnswer) {
    match row.batch
    case None => a.NotFound?
    case Some(b) =>
      && a.Found? && a.digest == row.digest && a.batch == b
      && if IsBatch(s, b)
         then exists i :: 0 <= i < |s.records| && s.records[i].batch == b && a.tx == Some(s.records[i].tx)
         else a.tx.None?
  }

  /** Answer of the batch route. */
  ghost predicate IsBatchAnswer(s: State, batch: Id, rows: seq<Item>) {
    IsListing(s.queue, Members(s.queue, batch), rows)
  }

  /** Answer of the transaction route. */
  function TxAnswer(s: State, tx: Id): Option<string> {
    if tx in s.receipts then FirstTopic(s.receipts[tx]) else None
  }

  datatype Page = Message(error: string) | Shown(passed: bool)

  /** `verify`, given the answers of the first two routes. The inputs are already trimmed; an empty
      transaction hash means that the server's is used. */
  function Verify(
    h: Hashing, s: State, messageId: Id, ciphertext: string, userTx: Id, a: DigestAnswer, rows: seq<Item>
  ): Page {
    if messageId == "" || ciphertext == "" then Message("Please enter both a message ID and ciphertext.")
    else
      match Base64.DecodeB64(ciphertext)
      case None => Message("InvalidCharacterError")
      case Some(bytes) =>
        if a.NotFound? then Message("No on-chain record yet")
        else if rows == [] then Message("Batch not found")
        else if userTx == "" && a.tx.None? then Message("Transaction not found or not yet confirmed")
        else
          var tx := if userTx != "" then userTx else a.tx.value;
          match TxAnswer(s, tx)
          case None =>
            if tx !in s.receipts then Message("Transaction not found or not yet confirmed")
            else Message("DigestRecorded event not found in transaction")
          case Some(onChain) =>
            var digestMatch := Lower(h.bytes(bytes)) == Lower(a.digest);
            var chainVerified := Lower(BatchHash(h.text, rows)) == Lower(onChain);
            Shown(digestMatch && chainVerified)
  }

  /** Answers the database may give to the page's first two queries. */
  ghost predicate IsAnswer(s: State, messageId: Id, a: DigestAnswer, rows: seq<Item>) {
    && IsDigestAnswer(s, messageId, a)
    && (if a.Found? then IsBatchAnswer(s, a.batch, rows) else rows == [])
  }

  /** Two batches have different texts but the same hash. */
  ghost predicate TextCollision(h: Hashing, a: seq<Item>, b: seq<Item>) {
    Join(Digests(a)) != Join(Digests(b)) && BatchHash(h.text, a) == BatchHash(h.text, b)
  }

  // ---- verdict or message ----

  /** A log of the contract with a topic to read, and no log of the contract before it. */
  ghost predicate EmitsAt(logs: seq<Log>, i: nat, topic: string) {
    && i < |logs| && Lower(logs[i].address) == CONTRACT && |logs[i].topics| > 1 && logs[i].topics[1] == topic
    && forall j :: 0 <= j < i ==> Lower(logs[j].address) != CONTRACT
  }

  lemma {:induction false} FirstTopicIsEmitted(logs: seq<Log>, topic: string)
    ensures FirstTopic(logs) == Some(topic) <==> exists i: nat :: EmitsAt(logs, i, topic)
  {
    if logs != [] {
      FirstTopicIsEmitted(logs[1..], topic);
      if i: nat :| EmitsAt(logs, i, topic) {
        if i > 0 { assert EmitsAt(logs[1..], i - 1, topic); }
      }
      if FirstTopic(logs) == Some(topic) {
        if Lower(logs[0].address) == CONTRACT {
          assert EmitsAt(logs, 0, topic);
        } else {
          var i: nat :| EmitsAt(logs[1..], i, topic);
          assert EmitsAt(logs, i + 1, topic);
        }
      }
    }
  }

  /** The hash the chain confirms under the transaction. */
  ghost predicate Confirms(s: State, tx: Id, topic: string) {
    tx in s.receipts && exists i: nat :: EmitsAt(s.receipts[tx], i, topic)
  }

  ghost predicate ConfirmsSome(s: State, tx: Id) {
    exists topic :: Confirms(s, tx, topic)
  }

  /** When the page judges at all: both inputs are there, the ciphertext decodes, the first two routes
      answered, and the chain confirms some hash under the transaction it was given or told. */
  lemma ShownIff(
    h: Hashing, s: State, messageId: Id, ciphertext: string, userTx: Id, a: DigestAnswer, rows: seq<Item>
  )
    ensures Verify(h, s, messageId, ciphertext, userTx, a, rows).Shown? <==>
            && messageId != "" && ciphertext != "" && Base64.DecodeB64(ciphertext).Some?
            && a.Found? && rows != []
            && (userTx != "" || a.tx.Some?)
            && ConfirmsSome(s, if userTx != "" then userTx else a.tx.value)
  {
    if a.Found? && (userTx != "" || a.tx.Some?) {
      var tx := if userTx != "" then userTx else a.tx.value;
      if tx in s.receipts {
        if topic :| Confirms(s, tx, topic) { FirstTopicIsEmitted(s.receipts[tx], topic); }
        if FirstTopic(s.receipts[tx]).Some? {
          FirstTopicIsEmitted(s.receipts[tx], FirstTopic(s.receipts[tx]).value);
          assert Confirms(s, tx, FirstTopic(s.receipts[tx]).value);
        }
      }
    }
  }

  /** Otherwise it says what is missing, the first thing first. */
  lemma PageSays(
    h: Hashing, s: State, messageId: Id, ciphertext: string, userTx: Id, a: DigestAnswer, rows: seq<Item>
  )
    ensures var page := Verify(h, s, messageId, ciphertext, userTx, a, rows);
            var filledIn := messageId != "" && ciphertext != "";
            var decodes := filledIn && Base64.DecodeB64(ciphertext).Some?;
            var asked := decodes && a.Found? && rows != [] && (userTx != "" || a.tx.Some?);
            && (!filledIn ==> page == Message("Please enter both a message ID and ciphertext."))
            && (filledIn && !decodes ==> page == Message("InvalidCharacterError"))
            && (decodes && a.NotFound? ==> page == Message("No on-chain record yet"))
            && (decodes && a.Found? && rows == [] ==> page == Message("Batch not found"))
            && (decodes && a.Found? && rows != [] && !asked ==>
                  page == Message("Transaction not found or not yet confirmed"))
            && (asked ==>
                  var tx := if userTx != "" then userTx else a.tx.value;
                  && (tx !in s.receipts ==> page == Message("Transaction not found or not yet confirmed"))
                  && (tx in s.receipts && !ConfirmsSome(s, tx) ==>
                        page == Message("DigestRecorded event not found in transaction")))
  {
    ShownIff(h, s, messageId, ciphertext, userTx, a, rows);
  }

  /** And then: it passes exactly when the ciphertext has the answered digest and the confirmed hash is
      that of the listed batch. */
  lemma PassedIff(
    h: Hashing, s: State, messageId: Id, ciphertext: string, userTx: Id, a: DigestAnswer, rows: seq<Item>, topic: string
  )
    requires HashingSound(h) && Verify(h, s, messageId, ciphertext, userTx, a, rows).Shown?
    requires a.Found? && (userTx != "" || a.tx.Some?)
    requires Confirms(s, if userTx != "" then userTx else a.tx.value, topic)
    ensures Base64.DecodeB64(ciphertext).Some?
    ensures Verify(h, s, messageId, ciphertext, userTx, a, rows).passed <==>
            && h.bytes(Base64.DecodeB64(ciphertext).value) == Lower(a.digest)
            && h.text(Join(Digests(rows))) == Lower(topic)
  {
    var tx := if userTx != "" then userTx else a.tx.value;
    FirstTopicIsEmitted(s.receipts[tx], topic);
    VerdictOf(h, s, messageId, ciphertext, userTx, a, rows, topic);
  }

  /** A message that is not queued, or queued and not yet flushed, is never judged: whatever ciphertext
      is given, the page says that there is no record yet. */
  lemma UnstampedIsNotJudged(
    h: Hashing, s: State, messageId: Id, ciphertext: string, userTx: Id, a: DigestAnswer, rows: seq<Item>
  )
    requires OneRowPerMessage(s) && IsAnswer(s, messageId, a, rows)
    requires forall id :: id in s.queue && s.queue[id].messageId == messageId ==> s.queue[id].batch.None?
    ensures Verify(h, s, messageId, ciphertext, userTx, a, rows).Message?
    ensures messageId != "" && ciphertext != "" && Base64.DecodeB64(ciphertext).Some? ==>
              Verify(h, s, messageId, ciphertext, userTx, a, rows) == Message("No on-chain record yet")
  {
  }

  ghost predicate OneRowPerMessage(s: State) {
    forall x, y :: x in s.queue && y in s.queue && s.queue[x].messageId == s.queue[y].messageId ==> x == y
  }

  // ---- what anchoring leaves behind ----

  /** A stamped row's batch has exactly one record; its hash is that of the batch's members in the
      order they were flushed, and the chain confirms it under the record's transaction. */
  lemma StampedRowIsAnchored(h: Hashing, s: State, id: Id) returns (r: Record)
    requires Inv(h.text, s) && id in s.queue && s.queue[id].batch.Some?
    ensures r in s.records && s.queue[id].batch == Some(r.batch)
    ensures forall i :: 0 <= i < |s.records| && s.records[i].batch == r.batch ==> s.records[i] == r
    ensures r.batch in s.flushed && IsListing(s.queue, Members(s.queue, r.batch), s.flushed[r.batch])
    ensures r.hash == BatchHash(h.text, s.flushed[r.batch])
    ensures TxAnswer(s, r.tx) == Some(r.hash) && r.hash in s.contract
  {
    assert StampSound(s, s.queue[id].batch.value);
    r := OnlyRecordOf(s, s.queue[id].batch.value);
    RecordIsSound(h, s, r);
  }

  lemma OnlyRecordOf(s: State, b: Id) returns (r: Record)
    requires RecordsDistinct(s) && IsBatch(s, b)
    ensures r in s.records && r.batch == b
    ensures forall i :: 0 <= i < |s.records| && s.records[i].batch == b ==> s.records[i] == r
  {
    var i :| 0 <= i < |s.records| && s.records[i].batch == b;
    r := s.records[i];
    forall j | 0 <= j < |s.records| && s.records[j].batch == b ensures s.records[j] == r {
      assert !(i < j) && !(j < i);
    }
  }

  lemma RecordIsSound(h: Hashing, s: State, r: Record)
    requires RecordsSound(h.text, s) && r in s.records
    ensures RecordSound(h.text, s, r) && TxAnswer(s, r.tx) == Some(r.hash)
  {
  }

  /** The verdict once every answer is there. */
  lemma VerdictOf(
    h: Hashing, s: State, messageId: Id, ciphertext: string, userTx: Id,
    a: DigestAnswer, rows: seq<Item>, onChain: string
  )
    requires HashingSound(h) && messageId != "" && ciphertext != "" && Base64.DecodeB64(ciphertext).Some?
    requires a.Found? && rows != [] && (userTx != "" || a.tx.Some?)
    requires TxAnswer(s, if userTx != "" then userTx else a.tx.value) == Some(onChain)
    ensures Verify(h, s, messageId, ciphertext, userTx, a, rows) ==
            Shown(&& h.bytes(Base64.DecodeB64(ciphertext).value) == Lower(a.digest)
                  && BatchHash(h.text, rows) == Lower(onChain))
  {
    assert IsHash(h.bytes(Base64.DecodeB64(ciphertext).value)) && IsHash(BatchHash(h.text, rows));
  }

  lemma AnswerIsTheRow(h: Hashing, s: State, id: Id, r: Record, a: DigestAnswer, rows: seq<Item>)
    requires OneRowPerMessage(s) && id in s.queue && s.queue[id].batch == Some(r.batch)
    requires r in s.records && forall i :: 0 <= i < |s.records| && s.records[i].batch == r.batch ==> s.records[i] == r
    requires IsAnswer(s, s.queue[id].messageId, a, rows)
    ensures a == Found(s.queue[id].digest, r.batch, Some(r.tx)) && id in Ids(rows)
  {
    assert IsBatch(s, r.batch);
    assert !(forall x :: x in s.queue ==> s.queue[x].messageId != s.queue[id].messageId);
    assert id in Members(s.queue, r.batch);
  }

  /** The page's verdict on a stamped message, for any ciphertext that decodes, whether or not the
      user supplies the transaction: exactly whether the ciphertext has the digest that was queued.
      Rows queued at the same instant must not differ in digest. */
  lemma VerdictIsExact(
    h: Hashing, s: State, id: Id, ciphertext: string, userTx: Id, r: Record, a: DigestAnswer, rows: seq<Item>
  )
    requires HashingSound(h) && Inv(h.text, s) && OneRowPerMessage(s)
    requires id in s.queue && s.queue[id].messageId != "" && s.queue[id].batch == Some(r.batch) && r in s.records
    requires Listing.TiesAgree(s.queue, Members(s.queue, r.batch))
    requires userTx == "" || userTx == r.tx
    requires ciphertext != "" && Base64.DecodeB64(ciphertext).Some?
    requires IsAnswer(s, s.queue[id].messageId, a, rows)
    ensures Verify(h, s, s.queue[id].messageId, ciphertext, userTx, a, rows) ==
            Shown(h.bytes(Base64.DecodeB64(ciphertext).value) == s.queue[id].digest)
  {
    var r' := StampedRowIsAnchored(h, s, id);
    AnswerIsTheRow(h, s, id, r', a, rows);
    Listing.DigestsAgree(s.queue, rows, s.flushed[r.batch]);
    VerdictOf(h, s, s.queue[id].messageId, ciphertext, userTx, a, rows, r.hash);
    assert IsHash(r.hash) && IsHash(s.queue[id].digest);
  }

  /** Verification is complete: the ciphertext that was sent, as a client encodes it, passes. */
  lemma OriginalPasses(
    h: Hashing, s: State, id: Id, body: seq<byte>, userTx: Id, r: Record, a: DigestAnswer, rows: seq<Item>
  )
    requires HashingSound(h) && Inv(h.text, s) && OneRowPerMessage(s)
    requires id in s.queue && s.queue[id].messageId != "" && s.queue[id].batch == Some(r.batch) && r in s.records
    requires Listing.TiesAgree(s.queue, Members(s.queue, r.batch))
    requires userTx == "" || userTx == r.tx
    requires body != [] && s.queue[id].digest == DigestOf(h, Base64.ToB64u(body))
    requires IsAnswer(s, s.queue[id].messageId, a, rows)
    ensures Verify(h, s, s.queue[id].messageId, Base64.ToB64u(body), userTx, a, rows) == Shown(true)
  {
    Base64.DecodeUndoesToB64u(body);
    VerdictIsExact(h, s, id, Base64.ToB64u(body), userTx, r, a, rows);
  }

  /** The database does have answers to give, whatever is asked about a stamped row. */
  lemma AnswerExists(h: Hashing, s: State, id: Id)
    requires Inv(h.text, s) && id in s.queue && s.queue[id].batch.Some?
    ensures exists a, rows :: IsAnswer(s, s.queue[id].messageId, a, rows)
  {
    var r := StampedRowIsAnchored(h, s, id);
    var a := Found(s.queue[id].digest, r.batch, Some(r.tx));
    assert AnswersFor(s, s.queue[id], a);
    assert IsAnswer(s, s.queue[id].messageId, a, s.flushed[r.batch]);
  }

  /** Exactly when the page is sure to pass the original: when every order the database may list the
      batch in is the order it was hashed in, that is, when rows with equal timestamps agree. */
  lemma PassesForEveryOrderIffTiesAgree(h: Hashing, s: State, id: Id, body: seq<byte>, r: Record)
    requires HashingSound(h) && Inv(h.text, s) && OneRowPerMessage(s)
    requires id in s.queue && s.queue[id].messageId != "" && s.queue[id].batch == Some(r.batch) && r in s.records
    requires body != [] && s.queue[id].digest == DigestOf(h, Base64.ToB64u(body))
    requires forall rows :: IsBatchAnswer(s, r.batch, rows) ==>
               r.batch in s.flushed && !TextCollision(h, rows, s.flushed[r.batch])
    ensures Listing.TiesAgree(s.queue, Members(s.queue, r.batch)) <==>
            forall a, rows :: IsAnswer(s, s.queue[id].messageId, a, rows) ==>
              Verify(h, s, s.queue[id].messageId, Base64.ToB64u(body), "", a, rows) == Shown(true)
  {
    var r' := StampedRowIsAnchored(h, s, id);
    if Listing.TiesAgree(s.queue, Members(s.queue, r.batch)) {
      forall a, rows | IsAnswer(s, s.queue[id].messageId, a, rows)
        ensures Verify(h, s, s.queue[id].messageId, Base64.ToB64u(body), "", a, rows) == Shown(true)
      {
        OriginalPasses(h, s, id, body, "", r, a, rows);
      }
    } else {
      var a, rows := TieCanFail(h, s, id, Base64.ToB64u(body), r);
    }
  }

  /** Tied rows that differ let the database give an answer with which nothing passes. */
  lemma TieCanFail(h: Hashing, s: State, id: Id, ciphertext: string, r: Record)
    returns (a: DigestAnswer, rows: seq<Item>)
    requires HashingSound(h) && Inv(h.text, s) && id in s.queue && s.queue[id].batch == Some(r.batch) && r in s.records
    requires !Listing.TiesAgree(s.queue, Members(s.queue, r.batch))
    ensures IsAnswer(s, s.queue[id].messageId, a, rows) && IsBatchAnswer(s, r.batch, rows) && r.batch in s.flushed
    ensures TextCollision(h, rows, s.flushed[r.batch]) ||
            Verify(h, s, s.queue[id].messageId, ciphertext, "", a, rows) != Shown(true)
  {
    var r' := StampedRowIsAnchored(h, s, id);
    var original := s.flushed[r.batch];
    Listing.OneOrderIffTiesAgree(s.queue, original);
    rows :| IsListing(s.queue, Ids(original), rows) && Digests(rows) != Digests(original);
    a := Found(s.queue[id].digest, r.batch, Some(r.tx));
    assert AnswersFor(s, s.queue[id], a);
    assert IsBatchAnswer(s, r.batch, rows);
    if !TextCollision(h, rows, original) {
      DifferentDigestsFail(h, s, rows, original);
      OtherBatchFails(h, s, s.queue[id].messageId, ciphertext, a, rows, r.hash);
    }
  }

  /** A stamped row whose batch has lost some of the rows it was recorded with fails on the page,
      with whatever ciphertext and whatever answer. */
  lemma BrokenBatchFails(
    h: Hashing, s: State, id: Id, ciphertext: string, a: DigestAnswer, rows: seq<Item>, b: Id
  )
    requires HashingSound(h) && OneRowPerMessage(s)
    requires RecordsDistinct(s) && RecordsSound(h.text, s) && DigestsShaped(s)
    requires id in s.queue && s.queue[id].batch == Some(b) && IsBatch(s, b) && b in s.flushed
    requires Members(s.queue, b) < Ids(s.flushed[b])
    requires IsAnswer(s, s.queue[id].messageId, a, rows)
    ensures TextCollision(h, rows, s.flushed[b]) ||
            Verify(h, s, s.queue[id].messageId, ciphertext, "", a, rows) != Shown(true)
  {
    var r := OnlyRecordOf(s, b);
    RecordIsSound(h, s, r);
    AnswerIsTheRow(h, s, id, r, a, rows);
    FewerRowsDiffer(rows, s.flushed[b]);
    if !TextCollision(h, rows, s.flushed[b]) {
      DifferentDigestsFail(h, s, rows, s.flushed[b]);
      OtherBatchFails(h, s, s.queue[id].messageId, ciphertext, a, rows, r.hash);
    }
  }

  lemma FewerRowsDiffer(rows: seq<Item>, original: seq<Item>)
    requires Distinct(rows) && Distinct(original) && Ids(rows) < Ids(original)
    ensures Digests(rows) != Digests(original)
  {
    Listing.IdsSize(rows);
    Listing.IdsSize(original);
    var x :| x in Ids(original) && x !in Ids(rows);
    Cuts.SubsetSize(Ids(rows), Ids(original) - {x});
  }

  lemma OtherBatchFails(
    h: Hashing, s: State, messageId: Id, ciphertext: string, a: DigestAnswer, rows: seq<Item>, onChain: string
  )
    requires HashingSound(h) && a.Found? && a.tx.Some? && TxAnswer(s, a.tx.value) == Some(onChain)
    requires Lower(BatchHash(h.text, rows)) != Lower(onChain)
    ensures Verify(h, s, messageId, ciphertext, "", a, rows) != Shown(true)
  {
  }

  lemma DifferentDigestsFail(h: Hashing, s: State, rows: seq<Item>, original: seq<Item>)
    requires HashingSound(h) && DigestsShaped(s) && Ordered(s.queue, rows) && Ordered(s.queue, original)
    requires Digests(rows) != Digests(original) && !TextCollision(h, rows, original)
    ensures Lower(BatchHash(h.text, rows)) != Lower(BatchHash(h.text, original))
  {
    if Join(Digests(rows)) == Join(Digests(original)) {
      Listing.JoinInjective(Digests(rows), Digests(original), DIGEST_LENGTH);
    }
    assert IsHash(BatchHash(h.text, rows)) && IsHash(BatchHash(h.text, original));
  }

  // ---- tampering ----

  /** The row alone answers for its message, with the digest it was queued with. */
  ghost predicate StillAnswers(s: State, t: State, id: Id) {
    && id in s.queue && id in t.queue
    && t.queue[id].messageId == s.queue[id].messageId && t.queue[id].digest == s.queue[id].digest
    && forall x :: x in t.queue && t.queue[x].messageId == t.queue[id].messageId ==> x == id
  }

  /** Tamper evidence. Let a batch be anchored in s, and let t be any later tables whatsoever, with
      the chain as it was and digests of the right length. If the page passes with the true
      transaction, then the batch it listed is the anchored one, digest by digest and in order, and
      the ciphertext it was given is one of the anchored ones, or the hash was made to collide; and it
      is the ciphertext of that very message if the message's row still has its digest. */
  lemma PassMeansUntampered(
    h: Hashing, s: State, r: Record, t: State,
    messageId: Id, ciphertext: string, a: DigestAnswer, rows: seq<Item>
  )
    requires HashingSound(h) && Inv(h.text, s) && r in s.records && r.tx != ""
    requires forall tx :: tx in s.receipts ==> tx in t.receipts && t.receipts[tx] == s.receipts[tx]
    requires forall id :: id in t.queue ==> |t.queue[id].digest| == 66
    requires IsAnswer(t, messageId, a, rows)
    requires Verify(h, t, messageId, ciphertext, r.tx, a, rows) == Shown(true)
    ensures r.batch in s.flushed
    ensures TextCollision(h, rows, s.flushed[r.batch]) ||
            (&& Digests(rows) == Digests(s.flushed[r.batch])
             && Base64.DecodeB64(ciphertext).Some?
             && h.bytes(Base64.DecodeB64(ciphertext).value) in Digests(s.flushed[r.batch]))
    ensures forall id :: StillAnswers(s, t, id) && s.queue[id].messageId == messageId ==>
              Base64.DecodeB64(ciphertext).Some? && h.bytes(Base64.DecodeB64(ciphertext).value) == s.queue[id].digest
  {
    forall id | StillAnswers(s, t, id) && s.queue[id].messageId == messageId
      ensures Base64.DecodeB64(ciphertext).Some? && h.bytes(Base64.DecodeB64(ciphertext).value) == s.queue[id].digest
    {
      PassMeansQueued(h, s, t, id, ciphertext, r.tx, a, rows);
    }
    RecordIsSound(h, s, r);
    var original := s.flushed[r.batch];
    PassMeansMatches(h, t, messageId, ciphertext, r.tx, a, rows);
    assert BatchHash(h.text, rows) == BatchHash(h.text, original) by {
      assert IsHash(BatchHash(h.text, original));
    }
    if !TextCollision(h, rows, original) {
      DigestsHaveLength(t.queue, rows);
      DigestsAreHashes(s, original);
      Listing.JoinInjective(Digests(rows), Digests(original), DIGEST_LENGTH);
      AnsweredDigestIsListed(t, messageId, a, rows);
    }
  }

  lemma DigestsHaveLength(queue: map<Id, Row>, rows: seq<Item>)
    requires Ordered(queue, rows) && forall id :: id in queue ==> |queue[id].digest| == DIGEST_LENGTH
    ensures forall d | d in Digests(rows) :: |d| == DIGEST_LENGTH
  {
  }

  lemma DigestsAreHashes(s: State, rows: seq<Item>)
    requires DigestsShaped(s) && Ordered(s.queue, rows)
    ensures forall d | d in Digests(rows) :: IsHash(d)
  {
  }

  /** A pass means the digest that was queued for the message, as long as its row still has it. */
  lemma PassMeansQueued(
    h: Hashing, s: State, t: State, id: Id, ciphertext: string, userTx: Id, a: DigestAnswer, rows: seq<Item>
  )
    requires HashingSound(h) && DigestsShaped(s) && StillAnswers(s, t, id)
    requires IsAnswer(t, s.queue[id].messageId, a, rows)
    requires Verify(h, t, s.queue[id].messageId, ciphertext, userTx, a, rows) == Shown(true)
    ensures Base64.DecodeB64(ciphertext).Some? && h.bytes(Base64.DecodeB64(ciphertext).value) == s.queue[id].digest
  {
    assert AnswersFor(t, t.queue[id], a);
    assert IsHash(h.bytes(Base64.DecodeB64(ciphertext).value)) && IsHash(s.queue[id].digest);
  }

  /** And so the bytes that were sent, or a collision with them. */
  lemma PassMeansSent(
    h: Hashing, s: State, t: State, id: Id, body: seq<byte>,
    ciphertext: string, userTx: Id, a: DigestAnswer, rows: seq<Item>
  )
    requires HashingSound(h) && DigestsShaped(s) && StillAnswers(s, t, id)
    requires s.queue[id].digest == DigestOf(h, Base64.ToB64u(body))
    requires IsAnswer(t, s.queue[id].messageId, a, rows)
    requires Verify(h, t, s.queue[id].messageId, ciphertext, userTx, a, rows) == Shown(true)
    ensures Base64.DecodeB64(ciphertext).Some?
    ensures var given := Base64.DecodeB64(ciphertext).value;
            given == body || (given != body && h.bytes(given) == h.bytes(body))
  {
    PassMeansQueued(h, s, t, id, ciphertext, userTx, a, rows);
  }

  // ---- the message id is not anchored ----

  /** The tables with the messages of two rows exchanged. */
  function Swapped(s: State, x: Id, y: Id): State
    requires x in s.queue && y in s.queue
  {
    s.(queue := s.queue[x := s.queue[x].(messageId := s.queue[y].messageId)]
                       [y := s.queue[y].(messageId := s.queue[x].messageId)])
  }

  lemma SwapIsUnseen(keccak: string -> string, s: State, x: Id, y: Id)
    requires Inv(keccak, s) && OneRowPerMessage(s) && x in s.queue && y in s.queue
    ensures Inv(keccak, Swapped(s, x, y)) && OneRowPerMessage(Swapped(s, x, y))
    ensures forall b :: Members(Swapped(s, x, y).queue, b) == Members(s.queue, b)
  {
    MessageIdsDoNotMatter(keccak, s, Swapped(s, x, y));
    MembersStay(s, Swapped(s, x, y));
  }

  /** The invariant says nothing about which message a row is of. */
  lemma MessageIdsDoNotMatter(keccak: string -> string, s: State, t: State)
    requires Inv(keccak, s) && SameButMessages(s, t)
    ensures Inv(keccak, t)
  {
    MembersStay(s, t);
    AnchoredWithoutMessages(keccak, s, t);
    if s.flush.Working? { OrderStays(s, t, s.flush.rows); }
  }

  predicate SameButMessages(s: State, t: State) {
    && t == s.(queue := t.queue) && t.queue.Keys == s.queue.Keys
    && forall id :: id in s.queue ==> id in t.queue && t.queue[id] == s.queue[id].(messageId := t.queue[id].messageId)
  }

  lemma MembersStay(s: State, t: State)
    requires SameButMessages(s, t)
    ensures forall b :: Members(t.queue, b) == Members(s.queue, b) && IsBatch(t, b) == IsBatch(s, b)
    ensures Pending(t.queue) == Pending(s.queue)
  {
    forall b ensures Members(t.queue, b) == Members(s.queue, b) {
    }
  }

  lemma OrderStays(s: State, t: State, rows: seq<Item>)
    requires SameButMessages(s, t) && Ordered(s.queue, rows)
    ensures Ordered(t.queue, rows)
  {
  }

  lemma AnchoredWithoutMessages(keccak: string -> string, s: State, t: State)
    requires Anchored(keccak, s) && SameButMessages(s, t)
    ensures Anchored(keccak, t)
  {
    MembersStay(s, t);
    forall i | 0 <= i < |t.records| ensures RecordSound(keccak, t, t.records[i]) {
      assert RecordSound(keccak, s, s.records[i]);
      OrderStays(s, t, s.flushed[s.records[i].batch]);
    }
    forall id | id in t.queue && t.queue[id].batch.Some? ensures StampSound(t, t.queue[id].batch.value) {
      assert StampSound(s, s.queue[id].batch.value);
    }
  }

  /** The batch hash covers digests only, so a server can exchange two messages of a batch after they
      were anchored: the tables stay in order, and each passes under the id of the other, with the true
      transaction and for every answer. */
  lemma SwapPasses(h: Hashing, s: State, x: Id, y: Id, ciphertext: string, r: Record, a: DigestAnswer, rows: seq<Item>)
    requires HashingSound(h) && Inv(h.text, s) && OneRowPerMessage(s) && r in s.records
    requires x in s.queue && y in s.queue && s.queue[x].batch == s.queue[y].batch == Some(r.batch)
    requires s.queue[x].messageId != "" && Listing.TiesAgree(s.queue, Members(s.queue, r.batch))
    requires ciphertext != "" && Base64.DecodeB64(ciphertext).Some?
    requires h.bytes(Base64.DecodeB64(ciphertext).value) == s.queue[y].digest
    requires IsAnswer(Swapped(s, x, y), s.queue[x].messageId, a, rows)
    ensures Inv(h.text, Swapped(s, x, y)) && OneRowPerMessage(Swapped(s, x, y))
    ensures Verify(h, Swapped(s, x, y), s.queue[x].messageId, ciphertext, r.tx, a, rows) == Shown(true)
  {
    SwapIsUnseen(h.text, s, x, y);
    SwappedRow(s, x, y, r.batch);
    PassesUnderItsRow(h, Swapped(s, x, y), y, ciphertext, r, a, rows);
  }

  lemma SwappedRow(s: State, x: Id, y: Id, b: Id)
    requires x in s.queue && y in s.queue
    ensures Swapped(s, x, y).queue[y] == s.queue[y].(messageId := s.queue[x].messageId)
    ensures Members(Swapped(s, x, y).queue, b) == Members(s.queue, b)
    ensures Listing.TiesAgree(s.queue, Members(s.queue, b)) ==>
              Listing.TiesAgree(Swapped(s, x, y).queue, Members(s.queue, b))
  {
  }

  lemma PassesUnderItsRow(
    h: Hashing, t: State, y: Id, ciphertext: string, r: Record, a: DigestAnswer, rows: seq<Item>
  )
    requires HashingSound(h) && Inv(h.text, t) && OneRowPerMessage(t) && r in t.records
    requires y in t.queue && t.queue[y].messageId != "" && t.queue[y].batch == Some(r.batch)
    requires Listing.TiesAgree(t.queue, Members(t.queue, r.batch))
    requires ciphertext != "" && Base64.DecodeB64(ciphertext).Some?
    requires h.bytes(Base64.DecodeB64(ciphertext).value) == t.queue[y].digest
    requires IsAnswer(t, t.queue[y].messageId, a, rows)
    ensures Verify(h, t, t.queue[y].messageId, ciphertext, r.tx, a, rows) == Shown(true)
  {
    VerdictIsExact(h, t, y, ciphertext, r.tx, r, a, rows);
  }

  /** What a pass says about the answers. */
  lemma PassMeansMatches(
    h: Hashing, t: State, messageId: Id, ciphertext: string, userTx: Id, a: DigestAnswer, rows: seq<Item>
  )
    requires HashingSound(h) && userTx != ""
    requires Verify(h, t, messageId, ciphertext, userTx, a, rows) == Shown(true)
    ensures a.Found? && rows != [] && Base64.DecodeB64(ciphertext).Some?
    ensures h.bytes(Base64.DecodeB64(ciphertext).value) == Lower(a.digest)
    ensures TxAnswer(t, userTx).Some? && BatchHash(h.text, rows) == Lower(TxAnswer(t, userTx).value)
  {
    assert IsHash(h.bytes(Base64.DecodeB64(ciphertext).value)) && IsHash(BatchHash(h.text, rows));
  }

  /** Both routes read the same row, so the answered digest is one of the listed ones. */
  lemma AnsweredDigestIsListed(t: State, messageId: Id, a: DigestAnswer, rows: seq<Item>)
    requires IsAnswer(t, messageId, a, rows) && a.Found?
    ensures a.digest in Digests(rows)
  {
    var id :| id in t.queue && t.queue[id].messageId == messageId && AnswersFor(t, t.queue[id], a);
    assert id in Members(t.queue, a.batch);
    var i :| 0 <= i < |rows| && rows[i].id == id;
    assert Digests(rows)[i] == a.digest;
  }

  // ---- a lying server ----

  /** The page compares the ciphertext with the answer of one route and the batch with the answer of
      another, and does not check that the first digest is listed in the second. So a server that
      answers with the digest of whatever it is asked about, and with any batch that was really
      anchored, makes every ciphertext that decodes pass, with the true transaction supplied. */
  lemma ForgeryPasses(h: Hashing, s: State, r: Record, messageId: Id, ciphertext: string)
    requires HashingSound(h) && Inv(h.text, s) && r in s.records
    requires messageId != "" && ciphertext != "" && Base64.DecodeB64(ciphertext).Some?
    ensures r.batch in s.flushed
    ensures Verify(h, s, messageId, ciphertext, r.tx,
                   Found(h.bytes(Base64.DecodeB64(ciphertext).value), r.batch, Some(r.tx)), s.flushed[r.batch])
            == Shown(true)
  {
    var digest := h.bytes(Base64.DecodeB64(ciphertext).value);
    RecordIsSound(h, s, r);
    VerdictOf(h, s, messageId, ciphertext, r.tx, Found(digest, r.batch, Some(r.tx)), s.flushed[r.batch], r.hash);
    assert IsHash(digest) && IsHash(r.hash);
  }

  /** What a pass with the true transaction is worth when the first two answers are anything at all:
      the listed digests join to the anchored text, and are the anchored ones if they are as long as
      digests; but the ciphertext is one of the anchored ones exactly when the answered digest is,
      which the page does not look at. */
  lemma PassVouchesIffListed(
    h: Hashing, s: State, r: Record, t: State, messageId: Id, ciphertext: string, a: DigestAnswer, rows: seq<Item>
  )
    requires HashingSound(h) && Inv(h.text, s) && r in s.records && r.tx != ""
    requires forall tx :: tx in s.receipts ==> tx in t.receipts && t.receipts[tx] == s.receipts[tx]
    requires Verify(h, t, messageId, ciphertext, r.tx, a, rows) == Shown(true)
    ensures r.batch in s.flushed && a.Found? && Base64.DecodeB64(ciphertext).Some?
    ensures var anchored := Digests(s.flushed[r.batch]);
            || TextCollision(h, rows, s.flushed[r.batch])
            || (&& Join(Digests(rows)) == Join(anchored)
                && ((forall d | d in Digests(rows) :: |d| == 66) ==> Digests(rows) == anchored)
                && (h.bytes(Base64.DecodeB64(ciphertext).value) in anchored <==> Lower(a.digest) in anchored))
  {
    RecordIsSound(h, s, r);
    var original := s.flushed[r.batch];
    PassMeansMatches(h, t, messageId, ciphertext, r.tx, a, rows);
    assert BatchHash(h.text, rows) == BatchHash(h.text, original) by {
      assert IsHash(BatchHash(h.text, original));
    }
    if !TextCollision(h, rows, original) && (forall d | d in Digests(rows) :: |d| == DIGEST_LENGTH) {
      DigestsAreHashes(s, original);
      Listing.JoinInjective(Digests(rows), Digests(original), DIGEST_LENGTH);
    }
  }

  /** With the check the page leaves out, that the answered digest is listed among digests of the
      right length, a pass means a ciphertext that was anchored, whatever the server answers. */
  lemma ListedPassIsAnchored(
    h: Hashing, s: State, r: Record, t: State, messageId: Id, ciphertext: string, a: DigestAnswer, rows: seq<Item>
  )
    requires HashingSound(h) && Inv(h.text, s) && r in s.records && r.tx != ""
    requires forall tx :: tx in s.receipts ==> tx in t.receipts && t.receipts[tx] == s.receipts[tx]
    requires Verify(h, t, messageId, ciphertext, r.tx, a, rows) == Shown(true)
    requires (forall d | d in Digests(rows) :: |d| == DIGEST_LENGTH) && a.Found? && Lower(a.digest) in Digests(rows)
    ensures r.batch in s.flushed && Base64.DecodeB64(ciphertext).Some?
    ensures TextCollision(h, rows, s.flushed[r.batch]) ||
            h.bytes(Base64.DecodeB64(ciphertext).value) in Digests(s.flushed[r.batch])
  {
    PassVouchesIffListed(h, s, r, t, messageId, ciphertext, a, rows);
  }

  /** But not the ciphertext of the message asked about: even with that check, every ciphertext of an
      anchored batch passes under every message id. */
  lemma ListedForgery(h: Hashing, s: State, r: Record, messageId: Id, ciphertext: string)
    requires HashingSound(h) && Inv(h.text, s) && r in s.records && r.batch in s.flushed
    requires messageId != "" && ciphertext != "" && Base64.DecodeB64(ciphertext).Some?
    requires h.bytes(Base64.DecodeB64(ciphertext).value) in Digests(s.flushed[r.batch])
    ensures var digest, rows := h.bytes(Base64.DecodeB64(ciphertext).value), s.flushed[r.batch];
            && Lower(digest) in Digests(rows) && (forall d | d in Digests(rows) :: |d| == DIGEST_LENGTH)
            && Verify(h, s, messageId, ciphertext, r.tx, Found(digest, r.batch, Some(r.tx)), rows) == Shown(true)
  {
    RecordIsSound(h, s, r);
    DigestsAreHashes(s, s.flushed[r.batch]);
    ForgeryPasses(h, s, r, messageId, ciphertext);
  }
}
