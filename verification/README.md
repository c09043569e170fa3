# Aimless: a verified model of the relay and its client

Aimless is a store-and-forward chat relay. A Go daemon journals every outgoing
message and resends it until the peer acknowledges it, deduplicates and trims what
comes in, and buffers file chunks under a byte budget. A Python client projects the
daemon's journal into a local store. This project models those parts in Dafny and
proves what they promise, for all inputs and all runs. `dafny verify dfyconfig.toml`
checks everything.

## How it is laid out

| file | what it models |
|---|---|
| `Bytes.dfy`, `Ranks.dfy` | byte strings, little-endian and hex; minima, ascending listings and "the k largest" of finite sets |
| `Inbox.dfy`, `Outbox.dfy` | the two durable journals of `daemon/store.go`, as classes over tables and as functions on table values |
| `Envelope.dfy` | the wire format of `daemon/envelope.go` |
| `Node.dfy` | the two bounded queues and the single writer of `daemon/node.go` |
| `Attachments.dfy` | the chunk buffer of `daemon/attachments.go`: header parsing, budget, eviction, completeness |
| `Mail.dfy` | one peer's mailbox (`daemon/mail.go`): `HandlePacket`, `SendMsg`/`SendFile`, `flushPeer` |
| `Delivery.dfy` | two daemons over a network that loses, duplicates and reorders, with blocking and crashes, as a step system; safety of every run |
| `Lanes.dfy` | what travels in which queue, and what crashes, aborted sends, blocking and failed receipts leave, in every run |
| `Runs.dfy` | how runs compose; a send and a flush that nothing disturbs are the mailbox's own methods |
| `EndToEnd.dfy` | contents over whole runs: from the caller's payload to what the peer's stores serve; blocking |
| `Pacing.dfy` | retry pacing in every run |
| `Transfers.dfy` | files over whole runs: when the receiver's buffer admits every chunk, and what it reassembles |
| `Progress.dfy`, `FairRuns.dfy` | progress under fair rounds, for texts and file rows; fair rounds exist, and files get through |
| `Replay.dfy` | a run, for every capacity, in which one message is delivered twice |
| `Sync.dfy`, `Deliveries.dfy` | the client's watermark projection and its delivery-status queries |
| `Projection.dfy` | daemon runs and client rounds together: when the projection is complete, and a run in which it is not |
| `Files.dfy` | a file's whole trip: split, frame, store, fetch, reassemble |
| `Base58.dfy`, `Invites.dfy`, `Address.dfy` | the text codecs and the Yggdrasil address bit loop |
| `Requests.dfy` | request multiplexing over one socket |

State that the source updates in place is a class whose methods are tied by `ensures`
to a function on the tables' values (`Inbox.AddTo`, `Attachments.AddTo`,
`Mail.Handle`, `Mail.FlushItems`, `Sync.SyncRound`, ...). The step system of `Delivery`
receives with `Mail.Handle`, offers with `Mail.OfferItem` and writes with
`Nodes.Advance`. Sends and flushes are several steps there, so that receipts, writes
and restarts can fall in between; when nothing does, they leave the mailbox exactly as
`Mail.Mailbox.Send` and `Mail.Mailbox.FlushPeer` do (`Runs.SendIsSend`,
`Runs.FlushIsFlushPeer`).

A run is any sequence of steps; a step that is not enabled changes nothing, so "for
all step sequences" is "in every interleaving". The network of `Delivery` is the
growing set of packets each side has handed over: a packet is lost when nobody
receives it, duplicated when it is received twice, and reordered by choice of the next
receipt. A receipt may fail its transaction, and the process may die after the commit
and before the ACK.

A fair round (`Progress.FairRound`) for the texts, or for the file rows, of a sender is
what progress needs of the network and no more: the retry window elapses, a flush
begins, some deliverable row finds room in the queue it goes to, and of what is written
during the round no packet of that kind and no ACK of the peer is lost. A chunk counts
as received when the budget has room for it beside the others of its own transfer.
Packets written before may be lost or repeated, and any other steps of either side may
interleave anywhere.

## Where the code falls short of what is said about it

* The inbox calls itself a replay guard for already delivered messages. It forgets:
  an accepted seq is taken for new again exactly when at least `5 * capacity` larger
  seqs have been accepted (`Inbox.NewExactlyWhen`). Delivery is once per window, not
  once (`Delivery.DeliveredOncePerWindow`), and for every capacity some run delivers
  message 1 twice (`Replay.ReplayGuardForgets`).
* The client's store is described as a projection of the journal in which nothing is
  re-scanned. It is complete exactly when no round finds an openable entry at or below
  the watermark that is not stored (`Sync.ProjectionIsCompleteExactlyWhen`). That holds
  in every run in which the daemon accepts its peer's texts in seq order
  (`Projection.InOrderIsComplete`). The network may reorder: accepting message 2 before
  a round and message 1 after it hides message 1 from the client for good, whatever the
  two messages are (`Projection.ReorderingCanLose`).
* A live event moves the same watermark past entries that were never fetched: the next
  round is complete exactly when every openable entry it jumps over is already stored
  (`Sync.EventKeepsUpExactlyWhen`, over runs `Projection.EventInARun`), and
  `Sync.EventCanSkip` is a concrete loss.
* Deleting a room moves it too, and it belongs to all conversations of the peer: the
  next round is complete for the others exactly when everything of theirs up to the scan
  point was stored (`Sync.DeletingKeepsOthersExactlyWhen`, over runs
  `Projection.DeletingInARun`); `Sync.DeletingCanHide` is a concrete loss.
* An invite gives back its screen name exactly when the name is non-empty, has no
  colon and does not end in white space (`Invites.InviteRoundTrip`).

## Model

| member | source | states |
|---|---|---|
| `Ranks.TopAfterInsert` | daemon/store.go:180-205 | only the `k` largest seqs matter for the `j <= k` largest after one more arrives, which is why trimming can be incremental |
| `Ranks.TopOfRest` | daemon/store.go:186-205 | the guard's newest seqs are those that complete the window to `capacity + seenCap` |
| `Inbox.AddReflects` | daemon/store.go:142-205 | one Add keeps the log equal to the declarative one: the `capacity` largest accepted seqs retained, the next `4 * capacity` remembered |
| `Inbox.NewExactlyWhen` | daemon/store.go:140-178 | a seq counts as new if and only if it was never accepted or at least `5 * capacity` larger ones were |
| `Inbox.ReceiveReflects` | daemon/store.go:142-219 | the same after any arrivals, in any order, with any repeats |
| `Inbox.OrderDoesNotMatter` | daemon/store.go:142-219 | two histories with the same messages end in the same log, contents included |
| `Inbox.ListingHolds` | daemon/store.go:221-242 | a listing holds exactly the retained rows above the given seq |
| `Inbox.InboxStore.Add` | daemon/store.go:140-178 | the method computes the specified log and new flag and keeps it a function of the accepted set, with seqs ordered as the int64 they convert to |
| `Inbox.InboxStore.TrimTx` | daemon/store.go:180-219 | the trim leaves the newest rows, bounds the guard, and records the smallest retained seq |
| `Inbox.InboxStore.EvictOldest` | daemon/store.go:186-198 | the delete-the-minimum loop leaves exactly the `capacity` largest and moves the rest to the guard |
| `Inbox.InboxStore.After` | daemon/store.go:221-242 | the rows above a seq, in seq order |
| `Inbox.InboxStore.Latest` | daemon/store.go:252-258 | the largest seq ever accepted, 0 when none |
| `Inbox.InboxStore.Oldest` | daemon/store.go:244-250 | the accepted seqs from it upward are exactly the retained ones |
| `Outbox.OutboxJournal.NextSeq` | daemon/store.go:33-59 | a seq never handed out before and not in use |
| `Outbox.OutboxJournal.Pending` | daemon/store.go:73-100 | every unacknowledged row once, in seq order, with its pacing stamp |
| `Outbox.OutboxJournal.Ack` | daemon/store.go:111-122 | removes the row and its pacing stamp and says whether it was pending |
| `Envelopes.DecodeEncode` | daemon/envelope.go:36-70 | decoding undoes encoding, with trailing bytes tolerated |
| `Envelopes.DecodesExactly` | daemon/envelope.go:36-70 | a datagram decodes to an envelope if and only if the envelope is encodable at this version and the datagram starts with its encoding |
| `Envelopes.EncodeBuffer` | daemon/envelope.go:36-48 | filling the buffer field by field yields the specified bytes, and oversized payloads are refused |
| `Nodes.EachLaneIsFifo` | daemon/node.go:194-227 | in every interleaving each lane stays within its bound and hands over what it accepted, once, in order |
| `Nodes.BulkOvertakesAtMostOnce` | daemon/node.go:211-227 | between the acceptance of a control packet and its removal at most one bulk packet leaves the bulk queue |
| `Nodes.Node.Send` | daemon/node.go:182-209 | enqueues within the MTU and the bound, otherwise refuses and changes nothing |
| `Nodes.Node.WriteOnce` | daemon/node.go:211-227 | one move of the writer: control before bulk, either lane when both are ready in the blocking select |
| `Mail.Mailbox.HandlePacket` | daemon/mail.go:340-397 | the mailbox afterwards is the specified one; a blocked sender changes nothing |
| `Mail.Mailbox.ReceiveFile` | daemon/mail.go:357-371 | a refused chunk is not acknowledged; a duplicate is acknowledged again |
| `Mail.HandleByType` | daemon/mail.go:356-397 | what a packet of wire type 1, 2 or 5 touches, and that a chunk is reported new exactly when its slot was free and an ACK reports a removal exactly when its row was pending; any other type is ignored |
| `Mail.HandleAcks` | daemon/mail.go:357-382 | the ACK of exactly the texts and chunks taken is enqueued, when there is room |
| `Mail.AckBytes` | daemon/envelope.go:36-48 | the bytes of an ACK |
| `Mail.Mailbox.Send` | daemon/mail.go:296-338 | journals the row under a fresh seq and leaves every other row alone; refused when blocked |
| `Mail.Mailbox.OfferAndMark` | daemon/mail.go:475-503 | a row inside its window, unencodable or bounced leaves everything as it was; an enqueued one is marked |
| `Mail.OfferGoesToItsLane` | daemon/mail.go:491-496 | an offered file row goes to the end of the bulk queue and touches nothing else; any other row likewise to the control queue |
| `Mail.OfferedExactlyWhen` | daemon/mail.go:475-496 | a row is enqueued exactly when it is outside its window, encodes, fits the link, and its queue has room |
| `Mail.Mailbox.FlushPeer` | daemon/mail.go:452-504 | a whole flush is that turn over every pending row in seq order |
| `Runs.TurnIsFlushItem` | daemon/mail.go:475-503 | one undisturbed turn of the step system, enqueue and mark, leaves the mailbox as the method's turn does |
| `Runs.FlushIsFlushPeer` | daemon/mail.go:452-504 | in every state, the steps of an undisturbed flush leave the mailbox as FlushPeer leaves it, and no flush running |
| `Runs.SendIsSend` | daemon/mail.go:296-338 | the two steps of an undisturbed send journal the row as Send does |
| `Delivery.LeavesOnlyAfterDelivery` | daemon/mail.go:296-397 | in every run a text row leaves the outbox only after the peer accepted that seq with exactly its payload and timestamp, a file row only after the peer stored a chunk with its transfer and index |
| `Delivery.DeliveredOncePerWindow` | daemon/mail.go:372-382 | in every run a seq is delivered again only after `5 * capacity` distinct larger seqs were accepted |
| `Delivery.BufferStaysBounded` | daemon/attachments.go:60-93 | in every run buffered bytes stay within the budget, and counting rows recognises complete transfers |
| `Delivery.ReachableHasInv` | daemon/mail.go:340-397 | in every run: rows, packets, ACKs and what the peer took agree |
| `Delivery.DoKeepsInv` | daemon/mail.go:296-397 | every step of either side keeps that agreement |
| `Delivery.ActKeepsJournal` | daemon/store.go:33-122 | seqs are never reused and rows never overwritten, whatever step is taken |
| `Delivery.ActKeepsPackets` | daemon/mail.go:356-387 | every packet a daemon ever enqueues carries a row it queued or acknowledges something it took |
| `Delivery.HandleInbox` | daemon/mail.go:372-382 | a text reported old was accepted before; a fresh one is recorded |
| `Lanes.LanesAreKept` | daemon/node.go:182-209 | in every run: file chunks are in the bulk queue, and only they; texts and ACKs in the control queue; both bounded; every packet written fits the link |
| `Lanes.LostCallNeverQueues` | daemon/mail.go:296-338 | a send aborted, or in progress at a crash, never queues a row in any continuation |
| `Lanes.AckReportedOnce` | daemon/mail.go:383-387 | in every run the removal of a row is reported at most once, however often its ACK comes |
| `Lanes.CrashKeepsTheDurable` | daemon/store.go:33-59 | what a crash keeps and what it loses |
| `Lanes.CrashLosesOnlyTheAck` | daemon/mail.go:357-382 | dying between the commit and the ACK loses the ACK and nothing else |
| `Lanes.BlockingTakesEffect` | daemon/mail.go:340-343 | blocking is in force from the step that sets it to the step that lifts it |
| `Replay.ReplayGuardForgets` | daemon/store.go:140-178 | for every capacity, a run from any start in which the peer accepts message 1 as new twice |
| `EndToEnd.StoresHoldWhatWasQueued` | daemon/mail.go:356-387 | in every run each retained inbox row is the text row its peer queued under that seq, and each buffered chunk is a queued file row sitting in the slot its own header names |
| `EndToEnd.SentTextIsAccepted` | daemon/mail.go:296-317 | the body handed to a send is what the peer accepted under its seq by the time the row has left the outbox |
| `EndToEnd.BlockedSideIsSilent` | daemon/mail.go:340-343 | while a side blocks its peer nothing is accepted, stored or removed, no seq is drawn, and without a running flush nothing is enqueued |
| `Pacing.EnqueuesAreSpaced` | daemon/mail.go:473-503 | in every run two successful enqueues of a row by one process are at least the retry interval apart |
| `Pacing.PostponedOnlyAfterEnqueue` | daemon/mail.go:476-496 | in every run a row is passed over as in flight only if its last successful enqueue by this process was marked less than an interval before the flush began |
| `Pacing.BouncedStaysEligible` | daemon/mail.go:483-502 | after a row bounces, in every continuation without a restart and until it is enqueued, every flush finds it outside its window |
| `Pacing.EveryRowHasItsTurn` | daemon/mail.go:475-504 | whatever happens short of a restart, a flush does not end before every row of its snapshot was taken up |
| `Pacing.NextFlushKeepsPace` | daemon/mail.go:475-503 | one flush turn keeps the pacing invariant, with ACKs landing at any point |
| `Progress.OfferedRowIsDelivered` | daemon/mail.go:357-387 | every deliverable row, text or file, whose turn finds room in a fair round for its kind has left the outbox by its end |
| `Progress.RoundDelivers` | daemon/mail.go:357-387 | every fair round, whatever interleaves and whatever older packets do, strictly shrinks the set of deliverable rows of its kind, texts or file rows, still waiting |
| `Progress.RoundsDeliverAll` | daemon/mail.go:452-504 | as many fair rounds as there are deliverable rows of a kind leave none |
| `FairRuns.RoundExists` | daemon/mail.go:452-504 | a fair round exists from every ready state and ends in a ready state; for file rows, when the peer's budget covers what was queued |
| `FairRuns.EverythingGetsThrough` | daemon/mail.go:506-525 | from every reachable state with no blocking fair rounds deliver every deliverable text, and every deliverable file row when the peer's budget covers what was queued |
| `FairRuns.FileGetsThrough` | client/aimless/gtkui.py:2082-2116 | from every reachable state with no blocking and enough budget, a queued file has a continuation after which the peer lists it as complete and reassembles exactly it |
| `Transfers.DeliveredFileReassembles` | daemon/attachments.go:185-234 | in every run: once all rows of a file have left the outbox, and while the transfer was neither evicted nor consumed, the receiver lists it as complete and fetching and reassembling gives the file |
| `Transfers.CoveredFileReassembles` | daemon/attachments.go:60-150 | when the budget covers every file row queued, nothing is ever evicted, so not consuming the transfer is enough |
| `Transfers.CoveredRetains` | daemon/attachments.go:60-150 | in every run within the budget a chunk leaves the buffer only when its own transfer is consumed |
| `Attachments.PolicyIsUnique` | daemon/attachments.go:120-183 | the declarative eviction policy (shortest prefix of the eviction order that makes room) leaves no choice |
| `Attachments.RoomExactlyWhen` | daemon/attachments.go:122-150 | room can be made if and only if evicting all other transfers would make it |
| `Attachments.RefusedExactlyWhen` | daemon/attachments.go:62-93 | an Add is refused if and only if the chunk does not fit beside its own transfer |
| `Attachments.EvictionOrder` | daemon/attachments.go:120-183 | when an Add evicts one transfer and spares another: never a whole one for an incomplete one; between two of a kind the one with the oldest chunk, then the lesser id; never its own transfer |
| `Attachments.AddKeepsOrEvicts` | daemon/attachments.go:60-93 | a stored chunk joins with its content; every other transfer goes whole or stays as it was |
| `Attachments.LessIs` | daemon/attachments.go:152-174 | ids are compared lexicographically |
| `Attachments.AddKeepsBudget` | daemon/attachments.go:45-49 | a successful Add ends within the budget and holds the chunk |
| `Attachments.PickEviction` | daemon/attachments.go:152-174 | the scan finds the first transfer in the order incomplete, oldest, tid, or none |
| `Attachments.Pick` | daemon/attachments.go:155-169 | the inner scan finds the first transfer of one completeness class |
| `Attachments.MakeRoomTx` | daemon/attachments.go:120-150 | the greedy loop evicts exactly the policy's transfers, and fails only when no policy exists |
| `Attachments.AttachmentStore.Add` | daemon/attachments.go:60-93 | commits evictions plus the chunk, or leaves the table unchanged |
| `Attachments.AttachmentStore.AckTid` | daemon/attachments.go:236-240 | frees one transfer and nothing else |
| `Attachments.PendingExactlyWhen` | daemon/attachments.go:185-208 | a transfer is listed if and only if its indices are all of `0 .. MAX(total) - 1` |
| `Attachments.FetchIsPositional` | daemon/attachments.go:210-234 | a pending transfer is fetched with index `i` at position `i` |
| `Bytes.HexIsInjective` | daemon/attachments.go:25 | distinct raw transfer ids get distinct text ids |
| `Bytes.HexIs` | daemon/attachments.go:25 | two lower-case digits a byte, the high one first |
| `Bytes.LaterBytesWeighMore` | daemon/envelope.go:36-70 | little-endian: each byte weighs 256 times the one before |
| `Bytes.ConversionsWrap` | daemon/store.go:140-178 | the conversions between int64 and uint64 keep the value modulo 2^64 |
| `Files.HeaderRoundTrip` | client/aimless/protocol.py:28-47 | both parsers read back what the header was built from |
| `Files.ParsersAgree` | client/aimless/protocol.py:36-47 | on every payload the client's and the daemon's parser accept alike and read the same transfer, index and total |
| `Files.JoinOfPieces` | client/aimless/gtkui.py:2093-2094 | splitting loses nothing |
| `Files.PieceIs` | client/aimless/gtkui.py:2093-2094 | piece `i` is the `i`-th 32 KiB, the last one what is left |
| `Files.KeepsExactlyWhen` | client/aimless/gtkui.py:2268-2290 | a fetched chunk is kept exactly when its sealed body agrees with its header, under its own index |
| `Files.ReassemblesExactlyWhen` | client/aimless/protocol.py:94-98 | reassembly succeeds exactly when the indices are all those below the total |
| `Files.StoreAllHolds` | daemon/attachments.go:62-93 | arrivals in any order with any repeats, within the budget, leave exactly the arrived pieces stored |
| `Files.FileRoundTrip` | client/aimless/protocol.py:19-98 | any non-empty file up to the size cap survives the trip, its index and total fitting 16 bits |
| `Base58.RecodeRoundTrip` | client/aimless/base58.py:12-41 | changing the base and back is the identity for every digit string, leading zeros included |
| `Base58.FrontDigitWeighs` | client/aimless/base58.py:12-41 | digits are read most significant first |
| `Base58.DecodeEncode` | client/aimless/base58.py:12-41 | every byte string survives |
| `Base58.EncodeDecode` | client/aimless/base58.py:27-41 | decoding accepts exactly the strings over the alphabet, and re-encoding gives each back |
| `Base58.B58Encode` | client/aimless/base58.py:12-24 | the loops compute that encoding |
| `Base58.B58Decode` | client/aimless/base58.py:27-41 | the loops compute that decoding, an unknown character raising |
| `Base58.ByteLength` | client/aimless/base58.py:34 | the length taken from the bit count is the least number of bytes |
| `Invites.KeyTextIsShort` | client/aimless/protocol.py:126-138 | the base58 text of a key is at most 48 characters, so the 64-hex branch never captures it |
| `Invites.KeyFieldRoundTrip` | client/aimless/protocol.py:126-138 | the base58 and the hex spelling of a key both decode to it |
| `Invites.ParsesTo` | client/aimless/protocol.py:120-154 | what the parser makes of an invite, for every screen name |
| `Invites.ParsesExactly` | client/aimless/protocol.py:141-154 | the parser accepts exactly a prefix and three fields, two keys and a non-empty name, white space around them ignored |
| `Invites.KeyFieldIs` | client/aimless/protocol.py:126-138 | which texts are keys, and of what |
| `Invites.SurroundingSpaceIsIgnored` | client/aimless/protocol.py:142 | white space around an invite does not matter |
| `Invites.InviteRoundTrip` | client/aimless/protocol.py:120-154 | the exact condition under which an invite gives back both keys and the name |
| `Addresses.Scan` | client/aimless/keys.py:38-50 | the bit loop counts the leading ones mod 256 and packs the bits after the first zero |
| `Addresses.InvertedKey` | client/aimless/keys.py:31-39 | read most significant first, the bits scanned spell the bitwise complement of the key |
| `Addresses.FirstZeroSplits` | client/aimless/keys.py:38-45 | the counted ones, the first zero and what is packed make up the bits; without a zero nothing is packed |
| `Addresses.PackedSpells` | client/aimless/keys.py:46-50 | the packed bytes spell the bits behind the first zero, most significant first |
| `Addresses.Address` | client/aimless/keys.py:27-55 | the 16 bytes: prefix, count, the first 14 whole bytes after the first zero, zero-filled; other key lengths raise |
| `Sync.PassIs` | client/aimless/service.py:27-47 | a pass adds exactly the openable entries it fetched, each as its own payload routes it |
| `Sync.RoundFilesMessages` | client/aimless/service.py:27-47 | each new message is stored under the conversation it names, or under its sender when it names none, with its own time and text |
| `Sync.FirstOpenableIsFiled` | client/aimless/service.py:27-47 | for any response, repeats included: what is stored under a seq is its first entry that opens |
| `Sync.RoundMovesOneMark` | client/aimless/service.py:42-46 | the watermark moves to the largest seq retained, undecryptable ones included, and no other peer's moves |
| `Sync.SyncEqualsRescan` | client/aimless/service.py:23-50 | if everything accepted after a round lies above the watermark it set, the watermark client always holds what a client re-fetching everything holds |
| `Sync.RoundMisses` | client/aimless/service.py:27-47 | a round yields what a full re-fetch yields, less exactly the openable entries at or below the watermark that are not stored |
| `Sync.RoundIsCompleteExactlyWhen` | client/aimless/service.py:27-47 | so it loses nothing if and only if there are none of those |
| `Sync.NeverFetchedAgain` | client/aimless/service.py:42-46 | what lies at or below the watermark and is not stored is not fetched by any later round |
| `Sync.ProjectionIsCompleteExactlyWhen` | client/aimless/service.py:27-47 | whatever the journal does between rounds, watermark and re-scanning client end alike if and only if no round found such an entry |
| `Projection.ProjectionIsComplete` | client/aimless/service.py:23-50 | in every run of the daemons with rounds in between: complete as long as what is accepted lies above the watermark |
| `Projection.InOrderIsComplete` | client/aimless/service.py:23-50 | in every run that accepts the peer's texts in seq order, with losses, repeats, restarts and trimming, the client holds what a full re-fetch holds |
| `Projection.ReorderingCanLose` | client/aimless/service.py:42-46 | for every two texts, the first of which opens, and from every start with capacity 2 or more: a run in which the daemon retains the first and the client never gets it |
| `Projection.RowsMatchInEveryRun` | client/aimless/service.py:27-47 | in every run the client's rows carry what the daemon's entries of the same seq route to |
| `Sync.EventKeepsUpExactlyWhen` | client/aimless/service.py:55-71 | given that nothing was missed before a live event, the round after it yields the rows of a full re-fetch if and only if every openable entry the event jumps over is stored |
| `Projection.EventInARun` | client/aimless/service.py:55-71 | the same with nothing assumed of the client, after every run that accepts above the watermark |
| `Sync.EventMisses` | client/aimless/service.py:66-71 | after a live event the unfetchable entries are those from before, less the one it brought, and exactly the openable unstored ones it jumps over |
| `Sync.EventFilesMessage` | client/aimless/service.py:66-80 | a live event stores one message under the conversation it names or else its sender, moves one watermark, and does nothing else |
| `Sync.EventCanSkip` | client/aimless/service.py:66-71 | a concrete journal in which an event hides an older entry from every later round |
| `Sync.ClearedStaysCleared` | client/aimless/store.py:182-186 | a row cleared at or below the watermark does not come back in any later round |
| `Sync.DeletingKeepsOthersExactlyWhen` | client/aimless/store.py:170-180 | given that nothing of the peer's other conversations was missed before, and that stored rows match their entries, the round after deleting a room yields the full re-fetch's rows of those conversations if and only if theirs up to the scan point were stored |
| `Projection.DeletingInARun` | client/aimless/store.py:170-180 | the same with nothing assumed of the client, after every run that accepts above the watermark |
| `Sync.DeletingCanHide` | client/aimless/store.py:170-180 | for every opener and every two entries, the lower one of another conversation: deleting the room up to the higher one hides the lower one from every later round |
| `Sync.DeletingTakesTheRoom` | client/aimless/store.py:170-180 | deleting a room takes exactly its rows and moves at most one watermark |
| `Sync.Store.Apply` | client/aimless/service.py:27-47 | the loop computes that pass, moves the watermark to the largest seq seen, and counts the new rows |
| `Sync.Store.SetCursor` | client/aimless/store.py:134-140 | the watermark never moves back |
| `Sync.Store.SyncPeer` | client/aimless/service.py:49-50 | fetch and apply against the daemon's inbox is one sync round |
| `Deliveries.ViewsAgree` | client/aimless/store.py:236-264 | delivered, all recipients done, and nothing undelivered coincide on every table; an untracked message is none of them |
| `Deliveries.DeliverySummary` | client/aimless/store.py:281-294 | the summary is delivery_members of every tracked message asked for, and has no other entry |
| `Deliveries.AddSentKeepsAcks` | client/aimless/store.py:205-230 | recording again is a no-op and never resets an ack |
| `Deliveries.AddSentTracks` | client/aimless/store.py:205-230 | every free key becomes tracked for the message, unacked; tracked keys stay as they were |
| `Deliveries.RecordedIsUndelivered` | client/aimless/store.py:205-264 | a newly recorded message is tracked with all its keys and undelivered |
| `Deliveries.MembersCountRecipients` | client/aimless/store.py:250-261 | the counts are of recipients, and of those all of whose chunks are acked |
| `Deliveries.AckCreditsOne` | client/aimless/store.py:266-279 | an ack credits one row of one message and leaves every other message as it was |
| `Deliveries.DeliveredExactlyWhenAllAcked` | client/aimless/store.py:236-279 | after any sequence of acks a message is delivered if and only if it is tracked and they cover what was open |
| `Deliveries.DeliveryStore.Record` | client/aimless/store.py:225-228 | the insert loop adds the missing keys and keeps the others |
| `Deliveries.DeliveryStore.Mark` | client/aimless/store.py:266-279 | marks the row and names the message it belongs to, or nothing |
| `Requests.MultiplexingIsSafe` | client/aimless/daemon.py:96-224 | in every interleaving a returning call gets a reply with its own id, once, and the registry holds exactly the ids of calls in progress |
| `Requests.ReplyIsReturned` | client/aimless/daemon.py:214-224 | in every run the reply to a waiting call is what it returns, an error makes it raise, and either way the call is cleaned up and nothing else changes |
| `Requests.RequestWaits` | client/aimless/daemon.py:178-201 | from every run a new request gets an id of its own and waits |
| `Requests.LostRequestIsResent` | client/aimless/daemon.py:190-213 | a call whose request was lost, or failed to go out, sends it again over the new connection and waits |
| `Requests.LateReplyIsSetAside` | client/aimless/daemon.py:117-124 | a reply to a call that gave up returns nothing and goes to the legacy queue |
| `Requests.EarlierReplyWins` | client/aimless/daemon.py:214-221 | of several replies to a call the first to arrive is returned |
| `Requests.EventsArriveInOrder` | client/aimless/daemon.py:113-116 | in every run the event queue holds exactly the events read, in order |
| `Requests.RunKeepsAll` | client/aimless/daemon.py:178-224 | the invariant behind it, for every run |

## Left out

- Seqs of 2^63 and above beyond the inbox: the inbox wraps them to int64 as the tables do; the outbox counter stops at 2^63, and the client's SQLite integers stay below it.
- More than two daemons: mailboxes of different peers share nothing but the outbound queues, so one pair is modelled; `boxes`, `boxFor`, contacts and the restart loop that recreates mailboxes are not.
- retryLoop and PathUp: they only trigger flushes, which the step system allows at any time.
- Wall-clock jumps: `Pacing` assumes a positive clock that never runs backwards.
- Changing the inbox capacity or the attachment budget between restarts: both are fixed along a run.
- SQL: tables are maps and sets by primary key, a failed transaction changes nothing; the order of `Pending()` transfers (by first timestamp, ties open) is not modelled, only which are listed.
- Cryptography, JSON and base64: sealing and opening are parameters, related only by "opening a sealed body gives it back". Every failure to open is taken to be one of the two exceptions caught at client/aimless/service.py:38; another would abort the pass.
- Power loss: a crash is the death of the process. daemon/db.go opens SQLite with `synchronous(NORMAL)`, so losing power can undo a transaction that had committed.
- The SHA-256 check after reassembly and where the attachment is saved on disk.
- Threads of the request client: its lock-protected operations are steps of a state machine on values, not a class; the legacy path that matches replies by op only is left out.
- Probe and status packets, presence, and the daemon's JSON API.
- The conversations table (rosters, hidden, muted), unread counts and message listings of the client store; out_id's text form.
- parse_node_key, key files and backup bundles; the text form of the IPv6 address.
- fetch and apply interleaved with other store operations: sync rounds are atomic.
- The public-key size check of enqueue: peers are fixed.
- Invites.MakeInvite: takes the node key as bytes; the hex decoding of its argument is not modelled.
