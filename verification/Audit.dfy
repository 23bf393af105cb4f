/** From sending to verifying: what the parts of the server promise together. */
module Audit {
  import opened Octets
  import opened Wrappers
  import Anchor
  import Listing
  import Server
  import ServerInvariant
  import Verification
  import Base64

  /** In every state the server can reach from the empty database, whatever failed on the way: the
      ciphertext of every message whose batch was stamped passes verification under the message's own
      id, for every answer the database may give, if the ciphertext is a client's encoding of some
      bytes and rows queued at the same instant do not differ in digest. */
  lemma SentMessagesVerify(
    h: Verification.Hashing, start: Server.State, ops: seq<Server.Op>, s: Server.State,
    row: string, body: seq<byte>, a: Verification.DigestAnswer, rows: seq<Anchor.Item>
  )
    requires Verification.HashingSound(h)
    requires Server.Init(start) && ServerInvariant.Run(h, start, ops, s)
    requires row in s.anchor.queue && s.anchor.queue[row].batch.Some?
    requires var m := s.anchor.queue[row].messageId;
             m in s.messages && s.messages[m].ciphertext == Base64.ToB64u(body) && body != []
    requires Listing.TiesAgree(s.anchor.queue, Anchor.Members(s.anchor.queue, s.anchor.queue[row].batch.value))
    requires Verification.IsAnswer(s.anchor, s.anchor.queue[row].messageId, a, rows)
    ensures Verification.Verify(h, s.anchor, s.anchor.queue[row].messageId, Base64.ToB64u(body), "", a, rows)
            == Verification.Shown(true)
  {
    ServerInvariant.ReachableHasInv(h, start, ops, s);
    var r := Verification.StampedRowIsAnchored(h, s.anchor, row);
    Verification.OriginalPasses(h, s.anchor, row, body, "", r, a, rows);
  }

  /** And only that: whatever ciphertext passes under a message's id, on the tables of a reachable state,
      decodes to the bytes that were sent, or collides with them. */
  lemma PassedMessagesWereSent(
    h: Verification.Hashing, start: Server.State, ops: seq<Server.Op>, s: Server.State, m: string, body: seq<byte>,
    ciphertext: string, userTx: string, a: Verification.DigestAnswer, rows: seq<Anchor.Item>
  )
    requires Verification.HashingSound(h)
    requires Server.Init(start) && ServerInvariant.Run(h, start, ops, s)
    requires m in s.messages && s.messages[m].ciphertext == Base64.ToB64u(body)
    requires Verification.IsAnswer(s.anchor, m, a, rows)
    requires Verification.Verify(h, s.anchor, m, ciphertext, userTx, a, rows) == Verification.Shown(true)
    ensures Base64.DecodeB64(ciphertext).Some?
    ensures var given := Base64.DecodeB64(ciphertext).value;
            given == body || (given != body && h.bytes(given) == h.bytes(body))
  {
    ServerInvariant.ReachableHasInv(h, start, ops, s);
    var row := ServerInvariant.RowOfMessage(h, s, m);
    Verification.PassMeansSent(h, s.anchor, s.anchor, row, body, ciphertext, userTx, a, rows);
  }

  /** Every message is queued for anchoring exactly once, with the digest of its own ciphertext. */
  lemma EveryMessageIsQueuedOnce(
    h: Verification.Hashing, start: Server.State, ops: seq<Server.Op>, s: Server.State, m: string
  ) returns (row: string)
    requires Server.Init(start) && ServerInvariant.Run(h, start, ops, s) && m in s.messages
    ensures row in s.anchor.queue && s.anchor.queue[row].messageId == m
    ensures s.anchor.queue[row].digest == Verification.DigestOf(h, s.messages[m].ciphertext)
    ensures forall other :: other in s.anchor.queue && s.anchor.queue[other].messageId == m ==> other == row
  {
    ServerInvariant.ReachableHasInv(h, start, ops, s);
    row := ServerInvariant.RowOfMessage(h, s, m);
  }
}
