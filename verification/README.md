# Eternal Blue: a verified model

Eternal Blue is an end-to-end encrypted messenger: a command-line client, a web client, a message
server, and a daemon that anchors digests of the ciphertexts in an Ethereum contract so that a public
page can verify them. This project models its four hard parts in Dafny and proves what they promise.
`dafny verify dfyconfig.toml` checks everything.

**The message encryption** (`Octets`, `Primitives`, `Hkdf`, `Hpke`, `Domain`, `Binding`, `FreeTerms`,
`Aad`, `Uuid`). The client composes HPKE in authenticated mode from HMAC, X25519 and an AEAD. These
three are arguments of the model and their laws are hypotheses: HMAC results have 32 bytes,
Diffie-Hellman commutes, the AEAD opens what it sealed. Everything above them is the repository's. The
two ends reach the same key and nonce by different Diffie-Hellman calls, so sealing and opening are
inverse; and opening succeeds only under the inputs of the sealing. The second theorem assumes no
collision-free hash, which would contradict the 32-byte law on octets. It is a reduction: either all
inputs agree, or one of the five hash calls that the two runs *really made* collides with its counterpart,
or the AEAD accepted a ciphertext under a foreign key, nonce or associated data. `FreeTerms` gives an
instance in which all laws hold and neither escape ever happens, so the hypotheses are consistent.

**Digest anchoring** (`Anchor`, `AnchorInvariant`, `Overlap`, `Cuts`, `Listing`, `DigestService`,
`Verification`, `Witnesses`, `Base64`, `Audit`). The daemon snapshots the unstamped rows of the digest
queue, hashes their concatenation, sends a transaction, inserts a record and stamps the rows, with up to five attempts. The
model is a step system in which each of these steps may fail, take effect, or take effect and still be
reported as failed, and a transaction that was given up on may be confirmed at any later time; the daemon may crash anywhere; messages are queued and foreign transactions confirmed
between any two steps. The invariant: whatever happened, the batch a row is stamped with has exactly one
record, whose hash is that of the batch's present members in flush order and is confirmed on chain. The
daemon and the contract are also classes with the program's loops and updates in place, proved to be
runs of the step system. From the invariant follow the completeness of the verification page and its
tamper evidence.

`queued_at` is the time of the transaction, so two rows may have the same one, and `ORDER BY queued_at`
then fixes no order. The model makes every answer of the database a relation, and the theorems say exactly
when the page is sure to pass the original: when rows of the batch with equal times have equal digests.

**Server state and the client's replica** (`Server`, `ServerInvariant`, `Views`, `Posting`, `Inbox`, `Store`,
`Sync`, `Client`, `Replica`, `Delivery`, `Threads`, `Sorting`). On the server
every query of a request is a step of its own, so that two users who write to each other for the first time interleave; a send commits its message and its digest
row in one step. The read routes each compute visibility with a query of their own and are proved to agree. The
client's store is a cache with tombstones. A joint system of server and client, in which any user does
anything on the server and this user's client syncs, sends, deletes and revokes, has the invariant from
which convergence of a sync follows.

`Delivery` joins the encryption, the server and the store: what one client seals, the other reads; and a stored
row with a ciphertext that somebody is known to have sealed says who sealed it, for whom, when and what, even if
the server lies about all of it.

**Byte loops** (`Keystore`, `Chat`, `Octets.I2osp`, `Base64`). Loops under arbitrary short reads and writes
and arbitrary chunking.

Things the proofs brought out:

- The page compares the ciphertext with the answer of one route and the batch hash with the answer of
  another, but does not check that the first digest occurs in the second answer, although the comments at
  `blockchain.js:48-51` promise verification without trusting the server. A server that lies about both can make
  anything pass (`Verification.ForgeryPasses`). With that check, and one of the digests' lengths, a pass would mean a
  ciphertext that was anchored (`Verification.ListedPassIsAnchored`), but not of which message
  (`Verification.ListedForgery`): the batch hash covers digests only, not message ids.
- For the same reason a server can exchange two messages of a batch after they were anchored, and each passes
  under the id of the other (`Verification.SwapPasses`). A pass means the bytes sent as the message asked about as
  long as the message's row still has the digest it was queued with (`Verification.PassMeansSent`), as it does in
  every state that the program itself reaches (`Audit.PassedMessagesWereSent`).
- Overlapping flushers can split a batch, and then messages fail verification
  (`Witnesses.OverlapFailsVerification`). The exact condition is that no stamping takes some rows of a batch and
  leaves others (`Overlap.RunSafeIff`); a single flusher always meets it (`AnchorInvariant.StepKeepsInv`).
- The clients put ids into the associated data without looking at them. It is unambiguous exactly when neither
  id contains the separator (`Aad.UnambiguousIffNoBar`); the server's UUIDs have none. Only the ids that were sealed
  need to be free of it: what a server delivers later may be any strings (`Delivery.StoredIsAttributed`).
- The id of a message is not sealed, so one sealing delivered under two ids is stored twice
  (`Delivery.ReplayStoresTwice`).
- `unread_count` also counts revoked messages, which the conversation no longer shows
  (`Views.UnreadCountIffNoneRevoked`).
- `Client::sync` explains its existence check with INSERT OR REPLACE, but the store does INSERT OR IGNORE,
  and the check does not see deleted rows: `saved` would count a locally deleted message that is offered
  again (`Sync.SavedCount`, `Sync.SavedCountAhead`). In the joint system this never happens (`Replica.SyncConverges`).
- A page of a conversation is the oldest rows before the cursor, not the most recent window that the comment at
  `conversations.js:42-43` promises, unless all rows fit or have the same time (`Views.PageIsRecentIff`,
  `Views.PageCanMissNewest`).
- `list_conversations` starts each summary at time 0, so a thread that lies before the epoch is shown with
  time 0 (`Threads.SummaryAgreesWithThread`).
- An escape sequence that a `read` cuts in two is partly taken for text (`Chat.CutArrowBecomesText`). A cut is
  harmless whatever follows exactly when no sequence is open at it (`Chat.CutHarmlessIff`).

Conventions: client ids, batch ids and transaction hashes are strings; user ids are the 16 bytes of a UUID.
`Anchor.State.flushed` is history that the program does not keep: the rows each record was made of. A
failed or refused request of the client is a `None` argument. What a clock, the server, the chain or the
terminal answers is a parameter or a nondeterministic choice.

## Model

| member | source | states |
|---|---|---|
| Octets.I2osp | cpp_client/src/CryptoContext.cpp:34-39 | the buffer filled from its last byte is the big-endian encoding, and reading it back gives n modulo 256^len (section 4.1 of RFC 8017) |
| Octets.Os2ipUndoesBigEndian | cpp_client/src/CryptoContext.cpp:33-39 | decoding undoes encoding for every n and length, up to the digits kept |
| Hkdf.HkdfExpand | cpp_client/src/CryptoContext.cpp:56-71 | exactly L bytes for every L; up to 255 blocks the wrapping 8-bit counter, the fed-back block and the cut last block give the output of section 2.3 of RFC 5869 |
| Hkdf.ExpandPrefix | cpp_client/src/CryptoContext.cpp:56-71 | a shorter output is a prefix of a longer one |
| Hkdf.ExpandOneBlock | cpp_client/src/CryptoContext.cpp:56-71 | an output of at most one block is one truncated HMAC over info and the counter 1 |
| Hpke.EncapMeetsDecap | cpp_client/src/CryptoContext.cpp:128-142 | sender and recipient reach the same shared secret by different exchanges, or both meet a low-order point |
| Hpke.OpenUndoesSeal | cpp_client/src/CryptoContext.cpp:220-266 | sealing fails exactly on a low-order exchange; otherwise opening with the mirrored keys and the same info and associated data returns the plaintext |
| Domain.HeadsDiverge | cpp_client/src/CryptoContext.cpp:90-101 | the labelled heads of the seven hash calls are prefix-free: any two differ at a position both have |
| Domain.LabelledInputsUnambiguous | cpp_client/src/CryptoContext.cpp:90-101 | equal labelled hash inputs have the same suite, label and length prefix and equal data, for data of any length |
| Domain.SharedSecretIsAnswer | cpp_client/src/CryptoContext.cpp:117-124 | the shared secret is the answer to a single expand call keyed by the extracted exchange, over the KEM context |
| Domain.HeadIsOctets | cpp_client/src/CryptoContext.cpp:73-101 | suite ids, labels, version and length prefixes of the seven hash calls, octet by octet as section 4 of RFC 9180 has them |
| Domain.DeriveOctets | cpp_client/src/CryptoContext.cpp:117-165 | the whole derivation from exchange to key and nonce, as HMACs over written-out octets |
| Domain.DeriveIsAnswers | cpp_client/src/CryptoContext.cpp:117-165 | key and nonce are the answers to two HMAC calls, each under its own label, keyed by the secret over mode, psk-id hash and info hash |
| Binding.KeyFixesInputs | cpp_client/src/CryptoContext.cpp:117-165 | equal AEAD keys come from equal exchange bytes, KEM context and info, or one of the hash calls made collides |
| Binding.OpenBindsSeal | cpp_client/src/CryptoContext.cpp:220-266 | a ciphertext opens only with the encapsulated key, recipient key, sender key, info and associated data it was sealed with, and then to the plaintext that was sealed, or a named collision or AEAD confusion occurred |
| Binding.OpenBindsMetadata | cpp_client/src/Client.cpp:302-311 | a message sealed under ids without the separator does not open under another sender id, recipient id or time, whatever strings are delivered, with the same escapes |
| Binding.BarOpensUnderOtherIds | cpp_client/src/Client.cpp:302-311 | sealed under an id with the separator, the same ciphertext opens under two other ids |
| FreeTerms.FreeSatisfiesLaws | cpp_client/src/CryptoContext.cpp:41-49 | the laws assumed of HMAC, X25519 and the AEAD hold together in one instance |
| FreeTerms.FreeNeverCollides | cpp_client/src/CryptoContext.cpp:117-165 | in that instance no two derivations collide |
| FreeTerms.FreeOpensExactly | cpp_client/tests/crypto_test.cpp:118-142 | over free terms a sealed ciphertext opens if and only if all five inputs are those of the sealing |
| FreeTerms.FreeOpenedWasSealed | cpp_client/tests/crypto_test.cpp:118-142 | the altered ciphertext: whatever opens is the sealing, under the same keys, info and associated data, of what it opens to |
| Uuid.TextOrderIsByteOrder | backend/routes/messages.js:43-49 | JavaScript's order on canonical UUID text is the database's order on the sixteen bytes |
| Uuid.TextInjective | backend/routes/messages.js:43-49 | distinct ids have distinct texts |
| Uuid.TextShape | cpp_client/src/Client.cpp:58-61 | a UUID's text has 36 ASCII characters, none of them the separator of the associated data |
| Uuid.TextLayout | backend/routes/messages.js:43-49 | lower-case hexadecimal digits in groups of 8, 4, 4, 4 and 12 |
| Aad.ValueOfDecimal | cpp_client/src/Client.cpp:58-61 | decimal printing of a signed time loses nothing |
| Aad.DecimalIsCanonical | cpp_client/src/Client.cpp:58-61 | no leading zeros, and a sign for negative times only |
| Aad.FieldsInOrder | cpp_client/src/Client.cpp:58-61 | sender, recipient and time, in this order, around the first two separators |
| Aad.AadInjective | cpp_client/src/Client.cpp:58-61 | associated data made from ids without the separator equals no other, whatever the ids of the other |
| Aad.AadBindsUuids | frontend/app/app.js:121-144 | for the server's ids the template is unambiguous outright |
| Aad.UnambiguousIffNoBar | cpp_client/src/Client.cpp:58-61 | the exact condition: associated data determines sender, recipient and time if and only if neither id contains the separator |
| Aad.BarInIdIsAmbiguous | cpp_client/src/Client.cpp:58-61 | for any ids of which one contains the separator there are two different ids with the same associated data |
| Base64.DecodeUndoesToB64u | frontend/app/app.js:30-38 | decoding undoes encoding for every byte string; unpadded length is the ceiling of 4n/3; the pad formula restores a multiple of four |
| Base64.DecodeAcceptsBothAlphabets | frontend/verification/index.html:244-248 | standard or URL-safe alphabet, padded or not, all four spellings decode to the same bytes |
| Base64.PadFormula | frontend/app/app.js:34-37 | the pad formula yields the padding the encoder would have written |
| Base64.GroupsIff | frontend/app/app.js:34-38 | letters decode exactly when none is foreign to the alphabet and no single one is left over |
| Base64.SpacesIgnored | frontend/app/app.js:34-38 | white space is ignored wherever it stands |
| Base64.KnownAnswers | frontend/app/app.js:30-33 | known answers from each part of the alphabet of RFC 4648 |
| AnchorInvariant.StepKeepsInv | backend/digest-service/index.js:35-94 | every step of a flush, whatever its outcome, every crash, every late confirmation of a transaction given up on, every queued message and every foreign transaction keeps the anchoring invariant |
| AnchorInvariant.RunKeepsInv | backend/digest-service/index.js:35-98 | so does every run, and nothing queued, logged or recorded is ever lost or rewritten |
| AnchorInvariant.ReachesKeepsInv | backend/digest-service/index.js:35-98 | whatever state the daemon's calls reach satisfies the invariant |
| AnchorInvariant.StepSafeIff | backend/digest-service/index.js:45-70 | without assuming a single flusher: a step leaves tables and chain in agreement if and only if it does not stamp part of a batch and leave the rest |
| Overlap.MoveSafeIff | backend/digest-service/index.js:96-98 | with any number of overlapping flushers, the same for a step of any of them, with the progress of all the others |
| Overlap.RunSafeIff | backend/digest-service/index.js:96-98 | over every interleaved run of any number of flushers, tables and chain agree all along if and only if no stamping splits a batch |
| Overlap.InitAllSound | backend/db/schema.sql:85-103 | the empty database is a state to start such runs from |
| Witnesses.OverlapSplits | backend/digest-service/index.js:62-67 | two overlapping flushes of any two messages do split a batch: a run from the empty database ends with the second message in a batch that lost the first |
| Witnesses.OverlapFailsVerification | backend/digest-service/index.js:62-67 | after that run the second message fails on the page for every ciphertext and every answer, collisions aside |
| Witnesses.TiedRowsGetStamped | backend/digest-service/index.js:81-86 | any two messages of different digest queued at the same instant can be stamped into one batch, whose order the database does not determine |
| Witnesses.TiedOriginalCanFail | backend/routes/blockchain.js:57-63 | on that batch the database may answer so that the page does not pass the first message, whatever the ciphertext, the original included, collisions aside |
| AnchorInvariant.InitHasInv | backend/db/schema.sql:85-103 | the empty tables satisfy it |
| AnchorInvariant.ApplyGrows | backend/digest-service/MessageDigest.sol:27-31 | the contract log, the receipts, the records and the digests of the queue only grow |
| AnchorInvariant.CrashAndGiveUp | backend/digest-service/index.js:49-51 | a crash forgets the flush and nothing else; a transaction given up on waits with the hash it was sent with |
| AnchorInvariant.StampMovesRows | backend/digest-service/index.js:62-67 | stamping makes exactly the flushed rows the batch's members and takes them out of whatever batch an earlier attempt had stamped them with |
| Listing.OneOrderIffTiesAgree | backend/routes/blockchain.js:57-63 | all answers to the ordered query list the digests in one order exactly when rows with equal times have equal digests |
| Listing.DigestsAgree | backend/digest-service/index.js:81-86 | then the flush's listing and any later listing of the same rows have the same digests |
| Listing.JoinInjective | backend/digest-service/index.js:46-47 | joining digests of one fixed width loses nothing |
| Listing.JoinAppend | backend/digest-service/index.js:46-47 | digests are joined one after the other, in order |
| Verification.StampedRowIsAnchored | backend/routes/blockchain.js:8-46 | a stamped row's batch has exactly one record; its hash is that of the members in flush order and its transaction confirms it |
| Verification.VerdictIsExact | frontend/verification/index.html:252-317 | for a stamped message and any ciphertext that decodes, with or without the true transaction supplied, the verdict is pass exactly when the ciphertext has the queued digest |
| Verification.OriginalPasses | frontend/verification/index.html:276-317 | the ciphertext that was sent passes |
| Verification.AnswerExists | backend/routes/blockchain.js:8-73 | the routes have an answer to give for every stamped row |
| Verification.ShownIff | frontend/verification/index.html:252-317 | for any answers: the page shows a verdict exactly when both inputs are there, the ciphertext decodes, both routes answered, and the chain confirms a hash under the transaction |
| Verification.PageSays | frontend/verification/index.html:264-311 | otherwise it says what is missing, the first thing first |
| Verification.PassedIff | frontend/verification/index.html:286-317 | a verdict is pass exactly when the ciphertext has the answered digest and the confirmed hash is that of the listed batch |
| Verification.UnstampedIsNotJudged | backend/routes/blockchain.js:26-35 | a message not queued or not yet flushed never gets a verdict, whatever the ciphertext |
| Verification.PassesForEveryOrderIffTiesAgree | backend/routes/blockchain.js:55-63 | the original passes under every order the database may choose exactly when rows with equal times agree, collisions aside |
| Verification.PassMeansUntampered | frontend/verification/index.html:286-317 | whatever later became of the tables, a pass with the true transaction means that the listed digests are the anchored ones, in order, and the ciphertext is one of the anchored, or the hash collided; and it has the digest queued for that very message if the message's row still has it |
| Verification.PassMeansQueued | frontend/verification/index.html:276-286 | a pass means the digest queued for the message asked about, as long as its row still has it |
| Verification.PassMeansSent | frontend/verification/index.html:276-286 | and so the bytes sent as that message, or a collision with them |
| Verification.SwapPasses | backend/digest-service/index.js:46-47 | with two messages of an anchored batch exchanged in the tables, the anchoring invariant still holds and each passes under the id of the other, with the true transaction and for every answer |
| Verification.BrokenBatchFails | frontend/verification/index.html:286-317 | a row whose batch has lost some of the rows it was recorded with fails for every ciphertext and every answer, collisions aside |
| Verification.ForgeryPasses | frontend/verification/index.html:276-317 | a server that answers with the digest of what it is asked about and with any anchored batch makes every ciphertext that decodes pass, with the true transaction supplied |
| Verification.PassVouchesIffListed | frontend/verification/index.html:286-317 | for arbitrary answers to the first two queries a pass with the true transaction means that the listed digests join to the anchored text, and are the anchored ones if of the right length, while the ciphertext is one of the anchored exactly when the answered digest is; or the hash collided |
| Verification.ListedPassIsAnchored | frontend/verification/index.html:286-317 | with the check the page leaves out, that the answered digest is listed, a pass means one of the anchored ciphertexts, of whatever message, whatever the server answers, collisions aside |
| Verification.ListedForgery | frontend/verification/index.html:286-317 | even with that check every anchored ciphertext passes under every message id |
| DigestService.MessageDigest.RecordDigest | backend/digest-service/MessageDigest.sol:22-31 | the owner's call appends its hash to the log and emits it as the first topic; anyone else's changes nothing |
| DigestService.Service.SelectPending | backend/digest-service/index.js:81-86 | exactly the unstamped rows, each once, in queue order |
| DigestService.Service.SubmitHash | backend/digest-service/index.js:46-51 | for each of its fates - confirmed, confirmed but reported as failed, sent and given up on while unconfirmed, not sent - a submission is the protocol step of that fate, and succeeds only in the first |
| DigestService.Service.InsertRecord | backend/digest-service/index.js:54-60 | for each fate an insertion is the protocol step of that fate, with a fresh batch id |
| DigestService.Service.StampRows | backend/digest-service/index.js:62-67 | for each fate a stamping is the protocol step of that fate; when it reports success every flushed row has the batch |
| DigestService.Service.Attempt | backend/digest-service/index.js:45-77 | one attempt takes exactly the steps its fates leave it, with interference between them, succeeds exactly when all three work, and then all its rows are stamped |
| DigestService.Service.FlushWithRetry | backend/digest-service/index.js:35-78 | attempts follow each other, exactly up to the first that works; it succeeds exactly when one does |
| DigestService.Service.FlushDigestBatch | backend/digest-service/index.js:80-94 | with nothing pending nothing happens; otherwise the flush takes exactly the steps that chain and database leave it, and if one of the five attempts works every row that was pending is stamped; the anchoring invariant is kept and nothing lost |
| DigestService.FiveAttempts | backend/digest-service/index.js:35-37 | with every submission failing a flush submits five times and does nothing else |
| DigestService.Service.OthersRun | backend/routes/messages.js:84-88 | what happens meanwhile is a run of the protocol: digests queued, foreign transactions, late confirmations |
| ServerInvariant.ParticipantsMeetCheck | backend/routes/messages.js:46-49 | the participants in the route's order meet the database's CHECK exactly for distinct users, whichever of the two sends |
| ServerInvariant.OneConversationPerPair | backend/db/schema.sql:31-39 | an unordered pair has at most one conversation, and nobody one with himself |
| ServerInvariant.SendsToOthers | backend/routes/messages.js:36-73 | every message is in the one conversation of its sender and recipient, who differ |
| ServerInvariant.StepKeepsTables | backend/routes/messages.js:22-100 | every query of every request, interleaved, keeps the tables consistent |
| ServerInvariant.StepKeepsRows | backend/routes/messages.js:59-90 | every message has exactly one digest row, of its own ciphertext, across sends, forwards, deletions, reads and flushes |
| ServerInvariant.StepKeepsInv | backend/routes/messages.js:22-382 | every step of any user, request or the daemon keeps the whole invariant |
| ServerInvariant.RunKeepsInv | backend/routes/messages.js:22-382 | so does every run |
| ServerInvariant.ReachableHasInv | backend/db/schema.sql:31-103 | every state reachable from the empty database satisfies it |
| ServerInvariant.RowOfMessage | backend/routes/messages.js:81-88 | a message's digest row exists and is unique |
| ServerInvariant.RunKeepsMessages | backend/routes/messages.js:223-382 | over every run no message is lost, and nothing of it changes but its read and deletion flags |
| ServerInvariant.StepKeepsForwards | backend/routes/messages.js:270-327 | whoever forwards a message sent or received it, for requests under way and messages stored |
| ServerInvariant.RunKeepsForwards | backend/routes/messages.js:270-327 | and so over every run |
| Posting.RefusedHow | backend/routes/messages.js:279-294 | an unknown recipient or message is not found, somebody else's message is forbidden, and nothing else is refused |
| Posting.StartEffect | backend/routes/messages.js:22-34 | an admitted send or forward leaves a request with exactly what it was given, any other leaves nothing |
| Posting.SelectEffect | backend/routes/messages.js:36-42 | the SELECT finds the pair's conversation exactly if there is one |
| Posting.InsertMakes | backend/routes/messages.js:46-57 | the INSERT makes the pair's conversation if the two are different users and have none yet |
| Posting.InsertFails | backend/db/schema.sql:37-38 | otherwise the request fails and the conversations stay as they are |
| Posting.SendGoesThrough | backend/routes/messages.js:36-57 | a send to another user that nobody interferes with is ready to commit after one or two queries |
| Posting.CommitEffect | backend/routes/messages.js:59-90 | a commit adds one message, as it was sent, unread and deleted by nobody, and one digest row, and changes nothing else |
| Posting.PostIsDelivered | backend/routes/messages.js:22-100 | what a send or forward comes to, whatever others did between its queries: the message has sender, named recipient, ciphertext, key, time and original of the request; it is in the recipient's inbox and the sender's outbox and in nobody else's lists; it is unread for the recipient |
| Posting.RegisterAndAbort | backend/db/schema.sql:18-26 | signing up adds that user under that name; a failed request is dropped; nothing else changes |
| Views.DeleteHidesOneSide | backend/routes/messages.js:223-252 | deleting hides the message from its deleter and leaves everybody else's view as it was |
| Views.DeleteSetsOneFlag | backend/routes/messages.js:236-250 | deleting sets the caller's flag of that message and touches nothing else |
| Views.RefusalsChangeNothing | backend/routes/messages.js:232-250 | strangers can neither delete nor revoke, recipients cannot revoke, and a second revocation does nothing |
| Views.RefusalsMean | backend/routes/messages.js:203-216 | what each refusal of the read routes says about the message or conversation |
| Views.RevokeHidesBothSides | backend/routes/messages.js:357-382 | revoking hides the message from everybody, reports it to both parties, and touches no other message |
| Views.RoutesAgree | backend/routes/messages.js:122-152 | a message is in the full list exactly when it can be fetched by id, exactly when its conversation opens for the user and shows it |
| Views.BoxesPartition | backend/routes/messages.js:122-125 | inbox and outbox partition the full list |
| Views.TotalsAddUp | backend/routes/conversations.js:63-101 | the count query counts what the message query lists, and the totals add up to the full list |
| Views.UnreadCountIffNoneRevoked | backend/routes/conversations.js:16-20 | the unread count is the number of unread messages shown exactly when no unread one was revoked |
| Views.RevokingUnreadOvercounts | backend/routes/conversations.js:16-20 | revoking any message that its recipient has neither read nor deleted makes the count exceed what the conversation shows |
| Views.PageIsRecentIff | backend/routes/conversations.js:39-101 | a page before a cursor is the most recent window its comment promises if and only if no more rows are left than fit on it, or they all have the same time |
| Views.PageCanMissNewest | backend/routes/conversations.js:76-101 | there is a page for every cursor and limit; with more rows of different times than fit it is not the promised window |
| Views.NewestIsNeverShown | backend/routes/conversations.js:76-101 | no page shows a row that `limit` rows before the cursor are older than |
| Views.PageShows | backend/routes/conversations.js:76-101 | a page shows only what the conversation shows and was sent before the cursor, and all of that if it fits |
| Views.MarkReadClears | backend/routes/conversations.js:113-138 | marking a conversation read clears its unread count and no other |
| Views.MarkReadSetsTimes | backend/routes/conversations.js:130-136 | it sets the reading time of exactly the unread messages to the user, once, and hides nothing |
| Audit.SentMessagesVerify | frontend/verification/index.html:252-352 | from sending to verifying: in every state the server can reach, every stamped message's ciphertext passes under its own id, for every answer of the database, rows with equal times agreeing |
| Audit.PassedMessagesWereSent | frontend/verification/index.html:252-352 | and only that: in every state the server can reach, a ciphertext that passes under a message's id decodes to the bytes that were sent, or collides with them |
| Audit.EveryMessageIsQueuedOnce | backend/routes/messages.js:59-90 | in every state the server can reach, every message is queued once with the digest of its own ciphertext |
| Store.RunEvolves | cpp_client/src/LocalStore.cpp:103-221 | over every run of store operations no deleted row reappears, no revocation is taken back, no plaintext is changed except blanked with its revocation, and a pin changes only by a rotation of that name |
| Store.OpEvolves | cpp_client/src/LocalStore.cpp:103-221 | each single operation keeps this |
| Store.LocalStore.SaveMessage | cpp_client/src/LocalStore.cpp:103-134 | the message is there, visible and unrevoked, if its id is new; every row and every pin is as before |
| Store.LocalStore.GetMessage | cpp_client/src/LocalStore.cpp:137-155 | the message unless absent or deleted |
| Store.LocalStore.ListMessages | cpp_client/src/LocalStore.cpp:158-176 | exactly the visible rows, each once, newest first |
| Store.LocalStore.MarkDeleted | cpp_client/src/LocalStore.cpp:179-189 | the id is no longer visible; its row keeps its message as a tombstone; every other row and every pin is as before |
| Store.LocalStore.MarkRevoked | cpp_client/src/LocalStore.cpp:193-203 | the row loses its text and is flagged; every other row, every pin and what is visible are as before |
| Store.LocalStore.SavePin | cpp_client/src/LocalStore.cpp:205-221 | the name has this pin now; every other pin and every row is as before |
| Store.TrustStore.LookupOrPinKey | cpp_client/src/TrustStore.cpp:8-22 | trust on first use: whoever is trusted has the fetched key pinned, an existing pin is never touched, a changed key is refused |
| Sync.StepEffect | cpp_client/src/Client.cpp:271-322 | one inbox item adds a row exactly when it opens under its sender's pin and its id is new, and changes no existing row or pin |
| Sync.PullEffect | cpp_client/src/Client.cpp:267-322 | the whole loop said without it: old rows unchanged, one visible decrypted row for every other message that opens under its sender's pin, and nothing else |
| Sync.SavedCount | cpp_client/src/Client.cpp:313-318 | `saved` is at least the number of rows inserted, and equal to it exactly when no locally deleted message is offered again |
| Sync.SavedCountAhead | cpp_client/src/Client.cpp:313-318 | the same condition told before the pull, from the pins, the key route and the entries that will open |
| Sync.SkippedCount | cpp_client/src/Client.cpp:271-311 | `skipped` counts exactly the entries that do not open under their sender's pin |
| Sync.PullIsIdempotent | cpp_client/src/Client.cpp:267-322 | repeating the pull on the same answer changes neither rows nor pins |
| Sync.RevokeEffect | cpp_client/src/Client.cpp:329-346 | exactly the visible, listed rows are blanked and flagged, up to a malformed entry |
| Sync.RevokeIsIdempotent | cpp_client/src/Client.cpp:329-346 | repeating the revocation pass changes nothing |
| Client.Client.SyncNow | cpp_client/src/Client.cpp:258-352 | the store and the counters after the two loops are those of the specification; a failed inbox request changes nothing |
| Client.Client.PullOne | cpp_client/src/Client.cpp:271-322 | the loop body with its per-call sender cache performs one specified step |
| Client.Client.RevokeListed | cpp_client/src/Client.cpp:333-340 | the pass has the specified effect, and its counter is the number of rows newly revoked |
| Client.Client.LookupUser | cpp_client/src/Client.cpp:152-160 | key route, then trust on first use |
| Client.Client.SendMessage | cpp_client/src/Client.cpp:215-256 | succeeds exactly when logged in, the recipient's key is trusted and the post was accepted; only then is the message stored, under the server's id |
| Client.Client.DeleteMessage | cpp_client/src/Client.cpp:364-374 | if and only if the server confirmed, the message is no longer visible, its row is a tombstone, and nothing else changed |
| Client.Client.RevokeMessage | cpp_client/src/Client.cpp:380-397 | blanks the local copy exactly when it is visible, the user's own and the server confirmed |
| Client.Client.ConfirmRotation | cpp_client/src/Client.cpp:176-213 | overwrites a differing pin only on an explicit yes |
| Client.Client.ListThread | cpp_client/src/Client.cpp:480-495 | exactly the visible messages between the two, each once, oldest first |
| Client.Client.ListConversations | cpp_client/src/Client.cpp:440-467 | one summary for each peer with a thread, with its length and latest time, newest first |
| Client.Client.Flatten | cpp_client/src/Client.cpp:458-466 | the map's entries, each once, newest first |
| Inbox.AnsweredForSureIff | backend/routes/messages.js:119-152 | a message of the inbox is in every answer the route may give if and only if fewer than fifty others are as new |
| Replica.DeleteAnswered | cpp_client/src/Client.cpp:364-374 | the server's yes to a deletion is what allows the client to set its tombstone |
| Replica.RevokeAnswered | cpp_client/src/Client.cpp:389-394 | the server's yes to a revocation is what allows the client to blank its copy |
| Replica.PostAnswered | cpp_client/src/Client.cpp:246-253 | the server's yes to a post is what allows the client to save the message under the id it was given |
| Replica.HereEffect | cpp_client/src/LocalStore.cpp:103-221 | what the client's own steps do to the store, said on its tables |
| Replica.StepKeepsInv | cpp_client/src/Client.cpp:258-397 | under any server step and any client step: cached rows are about the user's own messages, locally deleted ones are hidden by the server, locally revoked ones are revoked |
| Replica.RunKeepsInv | cpp_client/src/Client.cpp:258-397 | so under any interleaving |
| Replica.InitHasInv | cpp_client/src/Client.cpp:258-397 | and at the start |
| Replica.SyncConverges | cpp_client/src/Client.cpp:258-352 | after any run, a sync against a still server leaves every visible row revoked exactly when the server has it revoked, every listed message that opens visible, nothing else added, and `saved` the number of rows inserted |
| Replica.SyncIsIdempotent | cpp_client/src/Client.cpp:258-352 | syncing again on the same answers changes nothing |
| Delivery.SealedIsReadable | cpp_client/src/Client.cpp:227-231 | what one client seals over ids and time the other opens, rebuilding the associated data from the message's fields |
| Delivery.OpenedIsStored | cpp_client/src/Client.cpp:271-318 | an inbox entry of a new id whose sender is trusted and which opens becomes exactly one visible row with its text |
| Delivery.MessageArrives | cpp_client/src/Client.cpp:215-322 | end to end: a message posted as the sealing of a text, after any run of the server that leaves it in the recipient's inbox with fewer than fifty others as new, is after the recipient's sync, both passes of it, a visible and unrevoked row with exactly that text, whichever inbox the server answers with |
| Delivery.SentIsPosted | backend/routes/messages.js:59-73 | what was sent as the sealing of a text is stored as just that, in the recipient's inbox |
| Delivery.SentIsRead | cpp_client/src/Client.cpp:215-322 | the whole way: sealed, sent among other requests, committed, synced by the recipient, and read as that text under the sender's name |
| Delivery.StoredIsAttributed | cpp_client/src/Client.cpp:302-317 | whatever ids and fields a server delivers, a stored row whose ciphertext was once sealed under ids without the separator has the sealing's sender id, recipient id and time, was opened under its sender's key and shows the sealed text, with the escapes of the binding theorem |
| Delivery.ReplayStoresTwice | cpp_client/src/Client.cpp:302-318 | an entry delivered again under another id opens as well and is stored a second time with the same text |
| Threads.PeerIffInThread | cpp_client/src/Client.cpp:447-490 | grouping by peer and filtering by peer classify alike |
| Threads.SummaryAgreesWithThread | cpp_client/src/Client.cpp:440-495 | a peer's count is the length of the thread and its time that of the last message, or 0 for a thread that ends before the epoch |
| Threads.CountsAddUp | cpp_client/src/Client.cpp:440-467 | the counts add up to the visible messages the user is a party to |
| Threads.ThreadChanged | cpp_client/src/main.cpp:108-115 | reports a change exactly when sizes, ids or revocation flags differ |
| Threads.NoChangeMeansSameLines | cpp_client/src/Client.cpp:497-503 | when it reports none, every rendered line is the same, whatever the store went through in between |
| Threads.LineShows | cpp_client/src/Client.cpp:497-503 | a revoked message shows no text whatever is stored, any other exactly its text, and only the user's own lines say so |
| Keystore.DecodeUndoesEncode | cpp_client/src/Keystore.cpp:32-39 | loading what was saved gives it back, even with bytes after it |
| Keystore.DecodeAcceptsExactly | cpp_client/src/Keystore.cpp:74-85 | exactly the files of at least 93 bytes that begin with magic and version are accepted, and saving the result writes their first 93 bytes |
| Keystore.Save | cpp_client/src/Keystore.cpp:32-57 | for every schedule of short writes the file is the encoding, or on an error a proper prefix of it |
| Keystore.Load | cpp_client/src/Keystore.cpp:59-86 | for every schedule of short reads the result is the decoding of the file, or a read error |
| Keystore.SaveThenLoad | cpp_client/src/Keystore.cpp:32-86 | what was saved without an error loads, unless reading fails |
| Chat.ChatInput.Scan | cpp_client/src/main.cpp:195-235 | the scan of one read, which skips escape sequences by moving its index, performs the byte-by-byte reference on that chunk |
| Chat.ChunksDoNotMatter | cpp_client/src/main.cpp:174-235 | lines handed on, text left over and the decision to leave do not depend on how the stream is split, as long as no escape sequence is cut |
| Chat.CutHarmlessIff | cpp_client/src/main.cpp:219-225 | a cut goes unnoticed whatever follows if and only if no escape sequence is open there, or the chat was already left |
| Chat.CutBecomesText | cpp_client/src/main.cpp:219-225 | wherever a sequence is open, some next byte becomes text when the stream is cut there |
| Chat.CutMattersIff | cpp_client/src/main.cpp:219-225 | for each single next byte, the cut shows exactly when that byte does something outside a sequence |
| Chat.CutArrowBecomesText | cpp_client/src/main.cpp:219-225 | an arrow key cut after its first byte becomes text, whatever was typed before |
| Chat.OnlyPrintable | cpp_client/src/main.cpp:229-232 | the composed line and everything handed on are printable ASCII, and no empty line is handed on |
| Chat.TypingAppends | cpp_client/src/main.cpp:229-232 | printable keys are appended in order |
| Chat.EnterHandsOver | cpp_client/src/main.cpp:199-213 | Enter hands over exactly the line that was typed and starts an empty one |
| Chat.BackspaceUndoes | cpp_client/src/main.cpp:214-218 | backspace takes back the last key and does nothing on an empty line |
| Chat.CtrlDLeavesIffEmpty | cpp_client/src/main.cpp:226-228 | Ctrl-D leaves the chat on an empty line only |
| Chat.SequenceSwallowed | cpp_client/src/main.cpp:219-225 | an escape sequence that is not cut leaves no trace, whatever its parameters |
| Chat.LeavesIff | cpp_client/src/main.cpp:143-149 | a line leaves the chat exactly if, after any spaces, it is one of the three commands, alone or followed by a space |

## Left out

- The insides of HMAC-SHA256, X25519, ChaCha20-Poly1305, Argon2, keccak, SQLite, PostgreSQL and JSON parsing: functions, maps and relations stand for them.
- TLS, HTTP, JWT, rate limiting, the DOM, terminal control and the redraws and `pending_refresh` hint of the chat loop: plumbing.
- Wrapping the secret key at rest, registration passwords and the browser's own key storage.
- Octets.I2osp: at most eight bytes; beyond that the shift of a 64-bit value is undefined.
- AnchorInvariant.RunKeepsInv: one flush at a time; Overlap.RunSafeIff says what holds of several. Chain reorganisations and other owners of the contract's key are not modelled.
- DigestService.Service.FlushDigestBatch: the daemon as a class is proved with itself as the only flusher.
- DigestService.Service.StampRows: a database query that the client saw fail has taken effect by then or never does; only transactions on the chain may take effect later.
- Anchor's records carry no block number or time; no query depends on them.
- Verification.PassMeansUntampered: the transaction route is taken to answer from the real chain; a server that forges it is not modelled.
- Verification.Verify takes trimmed inputs; `toLowerCase` is modelled on ASCII letters, and UTF-8 encoding of a digest string is part of the abstract text hash.
- DigestService.Service.FlushWithRetry: back-off delays and log lines are not modelled.
- Server.Apply has no conversation timestamps (`last_message_at`), so the order of the conversation list is not modelled, and registered users do not change keys.
- Views.TotalsAddUp: the conversation view without its page limits (`before`, `limit`); Views.PageIsRecentIff is about pages.
- Views.PageIsRecentIff: limits of at least 1; a negative limit is an error of the database.
- Replica.SyncConverges: one identity per local store, and revocation is claimed for visible rows only, since the pass does not see locally deleted ones.
- Replica.Op: an answer is processed against the server state it was made from; a request whose answer is lost is a server step without a client step.
- Delivery.MessageArrives: the key route answers for the name it was asked for, and the base64url decoder of the C++ client is any function that undoes the encoding.
- `login` and `logout` are methods without a row above: their contracts are three flags; exceptions of the keystore and of the unwrapping are one failure, and tokens and keys are not modelled.
- `forward_message` and `read_message` of the client have no effect on the local store beyond the key lookup and are not modelled; neither are `resolve_index`, the argument splitter of the main prompt and key fingerprints.
- Client.Client.ListThread: `std::sort` is not stable, so messages of the same time come in some order; the contract leaves it open.
- Store.LocalStore.SaveMessage: SQLite errors, and texts with an embedded NUL, are not modelled.
- Threads.NoChangeMeansSameLines: rendering of numbers and dates is a pair of arbitrary functions; calendar conversion is not modelled.
- Keystore.Save: a `write` that returns 0 forever, file modes and directory creation are not modelled.
- Chat.ChunksDoNotMatter: for one given continuation the condition is sufficient only, since later bytes can undo what a cut did; Chat.CutHarmlessIff is the exact condition over all continuations.
