# A verified model of the DragonTCP client

DragonTCP carries a byte stream over lossy request/response transactions that may be lost, retried,
shrunk, batched or replayed. This project models the client's transports and the searches that tune
them, and proves what each promises. The repository holds only the client, so the network is an
arbitrary script of outcomes in every theorem, and the server is either arbitrary ("client only")
or an assumption that is spelled out as a predicate or a function.

`dafny verify dfyconfig.toml` checks the whole project.

## How the model is organised

| file | models |
|---|---|
| `Bytes`, `Io`, `Wrappers`, `Numbers` | bytes, exclusive or, big-endian integers, partial writes and short reads |
| `XPull`, `XPullConn`, `XPullLoss` | the X download pipeline: a step system over all interleavings, the reader's and worker's loops as runs of it, and what happens when every request is lost |
| `XPush` | X upload over its connection: replay by sequence number |
| `TxnLane` | X connections: pairing by request id |
| `Lanes`, `Batches` | B and BP connections: pairing without ids, and what batches of replies mean |
| `Streams`, `BStream`, `BpStream` | B and BP download: the stream delivered, and how a call must end |
| `Opening`, `Upload` | B and BP opening and upload |
| `Sizer`, `Retries` | the adaptive record sizer, and how long a failing transfer retries |
| `Calibration` | the startup searches for the record size |
| `SshCarrier` | the bounded buffer with one condition variable |
| `Discovery` | the concurrent profile search and the cached choice |
| `Framing`, `Cover`, `Connection` | requests and responses, the preface, a whole connection |
| `RequestIds`, `XorFast` | the id pool, and the word-wide exclusive or |

Concurrency is modelled by events: a state, a set of enabled events, and theorems about every
reachable state. The classes beside a step system hold the program's own fields and loops, and each
of their methods is proved to do exactly one event, or a run of events. Sequential code is a class
with the program's fields; its environment is a finite script, and a call whose script ends before
it returns yields `Pending` (or `Blocked`, `Searching`).

Assumed servers: X download answers truthfully about chunks it has not freed (`XPull.Honest`); X
upload stores a prefix of the first record it sees for each number, and each reply carries the id of
the request it answers and the stored length (`XPush.Store`, `XPush.Replies`); B and BP upload merge
records by offset (`Upload.Merge`); B and BP download send records from the position they have
reached, B sealing each with the mask of that position and BP with the mask of the offset asked for
(`Batches.HonestB`, `Batches.HonestBP`), and nothing is assumed of downloads below what was consumed.
In all upload theorems any earlier copy of a request may reach the server late, repeatedly and out of
order. Upload runs go on until the first call that does not succeed.

Two properties one would expect are false of the program, and are stated with their exact conditions:

* a B or BP transfer under permanent failure ends if and only if sizing is adaptive or already at the
  minimum (`Retries.GivesUpIff`, `Retries.DownloadGivesUpIff`, `Retries.NeverGivesUp`);
* a recorded good size limits a run of failures if and only if the mode is halving or one linear step is
  enough: with the default `--chunk-shrink-step 200` a shrink goes down by that step and forgets it
  (`Sizer.GoodLimitsFailuresIff`, `Sizer.LinearForgetsGood`). Rows that say "halving mode (shrinkStep 0)"
  hold there alone; the carrier's limit is found in both modes (`Sizer.Converges`, `Sizer.RecoversMaximum`).

Two more are false only of the X package's own interface. The sessions the program opens fix both
directions at their calibrated size (WithCalibratedChunks, internal/xorchunk/chunk.go:117-138, applied
before any session at wireselect.go:186), and for those no record exceeds that size and the server's
maximum, whatever it is (`Sizer.CalibratedIsKept`). A caller of the package who leaves adaptive sizing
on meets two gaps in `Open`:

* it does not compare the server's maximum with the client's minimum: the sizer is sound after it if
  and only if the maximum reaches the minimum (`Sizer.OpenedIsSound`), and otherwise sizes stay within
  what the server accepts if and only if sizing is fixed (`Sizer.OpenedTooSmall`);
* it can lift a calibrated ceiling: the ceiling holds unless the server's maximum lies between it and
  the options' maximum (`Sizer.CeilingIsKeptIff`).

After `Close` an X reader can see EOF before the end of the stream; before `Close` it cannot
(`XPull.EofAfterCloseCanBeEarly`, `XPull.EofMeansEverything`).

Where the documentation and the code differ the code is followed: docs/adaptive-chunk.md:20 lists a
fixed ladder of sizes that probeMaximum does not use (the list at chunk.go:757 has no caller there),
and docs/adaptive-chunk.md:30 describes a fixed downward step for the max-first search, which
descends by 128 KiB and then bisects (chunk.go:963).

## Model

| member | source | states |
|---|---|---|
| XPull.NeverFreesWanted | internal/xorchunk/chunk.go:1044-1223 | Client only, every interleaving and every server answer: each claimed sequence number is in exactly one place; the acknowledgement is one less than the next number to read; every request acknowledges strictly less than it asks for, so a server that frees what is acknowledged never frees what a worker still wants. |
| XPull.AskAcksConsumed | internal/xorchunk/chunk.go:1065-1073 | Each request acknowledges exactly what is consumed when it is sent, and asks from where its worker's bytes end. |
| XPull.ClientRuns | internal/xorchunk/chunk.go:1044-1223 | The client-only invariant holds over every run. |
| XPull.PlacesStep | internal/xorchunk/chunk.go:1054-1168 | Each step moves at most one sequence number, from exactly one place to exactly one place: worker, channel, pending, current, consumed, terminal error, past the end, or abandoned by Close. |
| XPull.ServerRuns | internal/xorchunk/chunk.go:1044-1223 | With an honest server, what workers assemble, the channel carries and the reader holds is always true of the server's chunks. |
| XPull.DeliveredIsPrefix | internal/xorchunk/chunk.go:1173-1223 | The bytes Read has returned are a prefix of chunk 0, chunk 1, and so on, in every reachable state, also after Close. |
| XPull.EofMeansEverything | internal/xorchunk/chunk.go:1191-1193 | EOF at the final number, and any EOF before Close, means that every chunk was delivered. |
| XPull.EofAfterCloseCanBeEarly | internal/xorchunk/chunk.go:1301-1319 | After Close a drained, closed channel reads as EOF although bytes are missing. |
| XPull.NoStuckState | internal/xorchunk/chunk.go:1054-1223 | While Read waits on an empty channel, either a worker that can go on holds exactly the number Read needs, or nothing from it on is claimed and every worker is free to claim it. |
| XPull.ReplyTrue | internal/xorchunk/chunk.go:1136-1160 | One truthful reply keeps a worker's bytes a piece of its chunk, for any fragment size. |
| XPullConn.ChunkConn.CopyOut | internal/xorchunk/chunk.go:1178-1186 | Copying out is the Deliver event; the acknowledgement moves when a chunk is used up; the rest of the caller's buffer is untouched. |
| XPullConn.ChunkConn.TakeNext | internal/xorchunk/chunk.go:1195-1200 | Moving the next chunk out of pending is the TakePending event. |
| XPullConn.ChunkConn.ReceiveOne | internal/xorchunk/chunk.go:1202-1221 | One receive is the Receive event: the first error is kept, the smallest final number wins, stale chunks are dropped. |
| XPullConn.ChunkConn.Turn | internal/xorchunk/chunk.go:1188-1221 | With nothing to copy, Read stops with the error, EOF or a block exactly when the step system says, and otherwise does one event. |
| XPullConn.ChunkConn.Read | internal/xorchunk/chunk.go:1173-1223 | Read is a run of the reader's own events; the bytes in the caller's buffer are those the run delivers. |
| XPullConn.FetchChunk | internal/xorchunk/chunk.go:1066-1168 | A worker's inner loop, with the sizer it shares with the other workers and whatever they report meanwhile, computes the specified worker and sizer; each request asks for this chunk from where the assembled bytes end, in records of the sizer's current size. |
| XPullConn.FetchedIsTrue | internal/xorchunk/chunk.go:1066-1168 | With a truthful server a fetch can push only the chunk itself, the true end, or an error for its own number. |
| XPullConn.FetchAdvances | internal/xorchunk/chunk.go:1066-1163 | With a truthful server, any fragments, WAITs and losses: until the fragments add up the worker goes on asking from exactly where they end, and then it pushes exactly the chunk, as long as fewer than eight losses in a row could not be answered by shrinking. |
| XPullConn.FetchSucceeds | internal/xorchunk/chunk.go:1066-1163 | So with fewer than eight losses in a row between fragments, whatever others report, the whole chunk arrives. |
| XPullConn.FetchGivesUp | internal/xorchunk/chunk.go:1074-1096 | The eighth such loss in a row, and none before it, ends the fetch with an error. |
| XPullConn.FetchEnds | internal/xorchunk/chunk.go:1107-1152 | ERR, text that cannot be read, and DATA for another position, beyond the limits or empty end it at once with an error, EOF with the end. |
| XPullConn.TurnReports | internal/xorchunk/chunk.go:1074-1160 | A worker tells the shared sizer of each loss and each usable fragment, about the size it had asked for, and of nothing else. |
| XPullConn.LossesEndAtEight | internal/xorchunk/chunk.go:1081-1100 | Once no size can change, losses end a fetch at exactly the eighth in a row, whatever failures the other workers report. |
| XPullLoss.LossesAreBounded | internal/xorchunk/chunk.go:1044-1100 | When every request is lost, all pull workers sharing one sizer make a bounded number of steps in total, over every interleaving and with reports about sizes that are no longer current. |
| XPullLoss.LossesReachTheReader | internal/xorchunk/chunk.go:1093-1100 | In such a run nothing is delivered and EOF is never reported, and once no worker can step, Read returns the error. |
| XPullLoss.LossRuns | internal/xorchunk/chunk.go:1044-1100 | Every step of a worker uses up the measure, over every run. |
| XPullLoss.AnswerFalls | internal/xorchunk/chunk.go:1081-1092 | A loss answered by shrinking pays for every request it makes stale. |
| XPush.ParseAck | internal/xorchunk/chunk.go:1225-1239 | Accepted are exactly the ACKs of the expected number with a positive length. |
| XPush.StoreHolds | internal/xorchunk/chunk.go:1248-1295 | Any copy of any request sent so far leaves the acknowledged records alone and at most one further record, a prefix of what is still to be acknowledged. |
| XPush.CopiesHold | internal/xorchunk/chunk.go:1248-1295 | The same for any number of late copies in any order. |
| XPush.RepliesHonest | internal/xorchunk/chunk.go:396-411 | The assumed server's replies carry the ids of what they answer and the stored lengths. |
| XPush.HonestStays | internal/xorchunk/chunk.go:1248-1295 | What a reply says of a stored record stays true however late it is read. |
| XPush.AcceptedMeans | internal/xorchunk/chunk.go:407-411 | A reply accepted by its id is about the record in flight, unless the id has wrapped round, and then its number shows it. |
| XPush.Pusher.Serve | internal/xorchunk/chunk.go:1255-1261 | A transaction that was sent leaves the server with the acknowledged records and at most one more, and only truthful replies on the connection. |
| XPush.Pusher.Exchange | internal/xorchunk/chunk.go:1255-1279 | One transaction over the push lane keeps the invariant whatever becomes of it; a reply is a refusal or the stored length of this very record, which may exceed the bytes just resent. |
| XPush.Pusher.CountFailure | internal/xorchunk/chunk.go:1262-1277 | A failed transaction is one step of the retry rule with every failure counted when sizing is fixed. |
| XPush.Pusher.Acknowledge | internal/xorchunk/chunk.go:1291-1295 | The acknowledged bytes grow by exactly the stored record and the sequence number by one. |
| XPush.Pusher.Bounds | internal/xorchunk/chunk.go:1241-1299 | The server holds what is acknowledged, at most one record more, and nothing that was not written; the stored length never exceeds what is pending. |
| XPush.Pusher.Pass | internal/xorchunk/chunk.go:1248-1296 | One pass of Write: what it acknowledges, when it stops and why, for every reply. A request that goes out is this record's number with as many bytes as the sizer's current size, or all that are left. |
| XPush.Pusher.WithinCap | internal/xorchunk/chunk.go:1248-1260 | No request on the wire carries more bytes than the sizer's bound. |
| XPush.Pusher.Write | internal/xorchunk/chunk.go:1241-1299 | Exactly once, over a real lane: success leaves the server with exactly the bytes written; an error with what was acknowledged and at most one record more; an honest server never triggers the length error, nor the bad-reply error before 2^32 requests; permanent loss gives up exactly when the retry rule does; if every round works the call succeeds. With a fixed size and a server that keeps whole records, it takes exactly as many requests as the bytes need. |
| TxnLane.RequestCounter.Add | internal/xorchunk/chunk.go:397 | Ids are one rising counter modulo 2^32. |
| TxnLane.Apart | internal/xorchunk/chunk.go:397-411 | Two requests of one lane with the same id are the same request or 2^32 requests apart. |
| TxnLane.Lane.EnsureConn | internal/xorchunk/chunk.go:361-380 | A closed lane never has a connection; a kept connection is used again, otherwise one is dialled. |
| TxnLane.Lane.Do | internal/xorchunk/chunk.go:384-423 | One attempt. Whatever the server sends, the reply accepted is the first unread frame and carries this request's id; everything else drops the connection. If frames carry the ids of what they answer, it answers this request or one at least 2^32 requests older. A kept connection is below its rotation limit. |
| TxnLane.Lane.Close | internal/xorchunk/chunk.go:354-359 | A closed lane has no connection. |
| Lanes.RequestLane.constructor | chunk.go:222-239 | Rotation limit 1 means automatic: start persistent. |
| Lanes.RequestLane.TransportFailure | chunk.go:241-246 | A transport failure drops the connection, and an automatic lane that failed on a reused connection stops reusing. |
| Lanes.RequestLane.Complete | chunk.go:255-259 | A completed request is counted; a connection is kept only below the rotation limit. |
| Lanes.ConnectionsRotate | chunk.go:255-259 | A rotation limit of k uses each connection for exactly k requests. |
| Lanes.ConnectionStays | chunk.go:255-259 | Without a limit one connection serves every request. |
| Lanes.RequestLane.Ensure | chunk.go:261-281 | A connection that is kept is always below the limit, so rotation never happens here. |
| Lanes.RequestLane.Begin | chunk.go:298-315 | The replies to a request queue behind what is unread, and because nothing is, they are next; or the lane is left without a connection. |
| Lanes.RequestLane.TrySingle | chunk.go:297-334 | One attempt of a one-reply request: the reply answers exactly this copy. |
| Lanes.RequestLane.Single | chunk.go:290-336 | Pairing without ids: the reply returned answers the last copy on the wire, at most two copies are sent and all are this request, a timeout is not followed by another, nothing is left unread, the connection counts the request and is closed at its limit, and the rotation limit changes only from 0 to 1, exactly on a failure of a reused connection. |
| Lanes.RequestLane.ReadBatchB | chunk.go:368-407 | A batch stops at WAIT or EOF, every record consumed answers this request, each is unmasked at the offset the records before it reached, a cut batch yields nothing, and a bad reply keeps what came before it. Every record before the last is DATA with bytes; the last one decides how the batch ends. |
| Lanes.RequestLane.TryDownloadB | chunk.go:353-413 | One attempt at a batch; the request on the wire reads back as this acknowledgement, record size and count. |
| Lanes.RequestLane.DownloadB | chunk.go:341-418 | A whole batch or nothing: a batch cut by a transport fault is discarded and asked for again from the same offset, at most once and never after a timeout. Every copy of the request reads back as this offset, acknowledgement, record size and count. |
| Lanes.PayloadOfB | chunk.go:348-351 | 14 bytes: the acknowledgement in the first 8, the record size in the next 4, the count in the last 2, each most significant byte first. |
| Lanes.RequestLane.ReadBatchBP | bp.go:281-310 | A BP batch reads every reply it asked for whatever their statuses, so none is left unread; all records are unmasked at the request's own offset. A status that is not OK, DATA, WAIT or EOF, or a record cut short, ends it. |
| Lanes.RequestLane.TryDownloadBP | bp.go:263-316 | One attempt at a BP batch; the request on the wire reads back as this record size and count. |
| Lanes.RequestLane.DownloadBP | bp.go:240-321 | The BP form of the same promise; more than one record asks for a batch. Every copy of the request reads back as this offset, record size and count. |
| Lanes.RequestOfBP | bp.go:247-256 | A batch request names the record size in 4 bytes and the count in 2; a single download has no payload and names the size in the length field. |
| Lanes.RequestLane.Close | chunk.go:283-288 | Closed implies no connection. |
| Batches.Unseal | internal/wire/protocol.go:333-339 | What a server seals with the mask of a position, the client unseals there. |
| Batches.SealedByte | internal/wire/protocol.go:333-339 | The seal is a bitwise exclusive or with the hash blocks of a response at that position. |
| Batches.BatchBIsStream | chunk.go:368-392 | Any number of honest B records unseals to the server's stream from where the client asked: the keystream position of each record is its stream offset; EOF only at the end. |
| Batches.UnwrapWrapped | bp.go:229-238 | A wrapped BP record comes back whole. |
| Batches.UnwrapIgnoresTail | bp.go:229-238 | What follows a record is ignored; exactly a record cut short is refused. |
| Batches.BatchBPIsStream | bp.go:281-310 | The same for BP, where every record of a batch is sealed at the offset asked for. |
| Streams.AppendParts | chunk.go:1132-1152 | The read buffer gains exactly the parts in order. |
| Streams.ForwardMore | chunk.go:1305-1310 | Requests never start below anything acknowledged before them. |
| BStream.Downloader.BatchIsStream | chunk.go:1305-1310 | What one B download brought, whole or up to a bad reply, is the stream from the download offset. |
| BStream.DepthStaysInRange | chunk.go:1311-1344 | Over any sequence of batches the pipeline depth stays within its limits, a depth with equal limits never moves, and failures are counted only at the minimum record size. |
| BStream.BatchKeepsTune | chunk.go:1311-1344 | The same for one batch. |
| BStream.FailureIsRetry | chunk.go:1323-1344 | A failed batch is one step of the retry rule. |
| BStream.Downloader.Ask | chunk.go:1306 | One download keeps acknowledgements behind requests and brings the stream from its offset; if an attempt gets through it brings bytes when the server has some, and otherwise exactly the WAIT or EOF it was answered. |
| BStream.Downloader.Fetch | chunk.go:1306-1310 | Read buffer and download offset advance together by what was brought. |
| BStream.Downloader.BatchSize | chunk.go:1293-1304 | The pipeline depth if that many records fit into 1 MiB, and otherwise as many as fit, but no fewer than the depth's floor. |
| BStream.Downloader.Grew | chunk.go:1311-1317 | Data deepens the pipeline by one, counts as a success and clears the failure count. |
| BStream.Downloader.Shrank | chunk.go:1323-1344 | Failure halves the pipeline down to its floor, and only at the floor shrinks the records and counts. |
| BStream.Downloader.Pass | chunk.go:1292-1359 | One pass of fillReadBuffer adapts pipeline, sizer and failure count exactly as the batch it met demands, and fails exactly at the eighth counted failure, with an empty buffer. What it asks for starts at the download offset, acknowledges exactly what is consumed, and names exactly the sizer's current size and that count. |
| BStream.AheadIfHopeless | chunk.go:1318-1345 | When every attempt fails, the retry rule alone decides how a call ends. |
| BStream.Downloader.Fill | chunk.go:1286-1365 | Ready exactly when bytes are buffered; EOF only when the stream is out. Through any number of rounds that are answered WAIT or fail: permanent failure exactly when the failures among them use up the retry rule, otherwise ready at the first round that brings bytes, EOF at the first that says so, and no end without one. |
| BStream.Downloader.HandOver | chunk.go:1378-1381 | The caller gets the front of the buffer, and exactly that much counts as consumed. |
| BStream.Downloader.Read | chunk.go:1367-1382 | For every fault pattern, what was delivered is the server's stream from 0, consumed offset plus buffer is the download offset, EOF means everything, and errors deliver nothing. Buffered bytes are always delivered; with none, WAITs and failures before the first round that brings bytes do not keep them from the caller unless the failures use up the retry rule. |
| BpStream.Downloader.Acknowledge | bp.go:471-483 | Everything consumed is acknowledged before more is asked for, and nothing else. |
| BpStream.Downloader.Ask | bp.go:492 | A BP batch that came in order is the stream from the download offset. |
| BpStream.FailureIsRetry | bp.go:493-503 | A failed BP batch is one step of the retry rule with a limit of one. |
| BpStream.Downloader.Take | bp.go:505-517 | Buffer, offset, pipeline and EOF after a batch that came in order. |
| BpStream.Downloader.Pass | bp.go:470-525 | A failed batch leaves no bytes, a failure at the minimum size ends the call at once, and pipeline and sizer move exactly as the batch demands. What it puts on the wire is the acknowledgement, if one is due, and downloads from the download offset in exactly the sizer's current size and the pipeline depth. |
| BpStream.AheadIfHopeless | bp.go:471-503 | When every attempt fails, the retry rule with limit one decides, or a due acknowledgement at once. |
| BpStream.Downloader.Fill | bp.go:465-529 | Ready exactly when bytes are buffered; EOF only when the stream is out; a due acknowledgement that fails ends the call at once, and otherwise the call ends as for B, with the retry rule of limit one. |
| BpStream.Downloader.HandOver | bp.go:542-545 | The same for BP. |
| BpStream.Downloader.Read | bp.go:531-546 | The same stream and progress theorem for BP. |
| Opening.OpenB | chunk.go:1206-1245 | OPEN puts no stream record on the lane, a server limit below the client's minimum is refused, and every failure closes the lane. |
| Opening.BKeepsCalibrated | chunk.go:1237-1281 | The sizers of a B stream start sound at the smallest of the calibrated size, the maximum and the server's limit, and no size they ever give exceeds the calibrated one and the server's limit. |
| Opening.OpenBP | bp.go:403-436 | Registration and OPEN use sequence numbers 0 and 1, so no stream record is on the lane yet. |
| Upload.Wire.ReceiveKeepsPrefix | chunk.go:1392-1424 | A record with the application's bytes at its own offset keeps the server's stream a prefix of what was written, and extends it if it starts inside. |
| Upload.Wire.DeliverKeepsPrefix | chunk.go:1392-1424 | The same for any copies of logged requests in any order and number. |
| Upload.Wire.CarryCopies | chunk.go:1393-1395 | Every copy put on the wire carries the bytes at its own offset and starts at the acknowledged end. |
| Upload.Uploader.Exchange | chunk.go:1393-1395 | One exchange keeps the server a prefix; OK means the record is in. |
| Upload.Uploader.CountFailure | chunk.go:1401-1410 | A failed exchange is one step of the retry rule. |
| Upload.Uploader.Pass | chunk.go:1392-1424 | One pass of Write: what it acknowledges, when it stops and why. Every copy that goes out carries as many bytes as the sizer's current size, or all that are left, at the acknowledged end. |
| Upload.Uploader.WithinCap | chunk.go:1392-1395 | No record on the wire carries more bytes than the sizer's bound. |
| Upload.Uploader.Write | chunk.go:1384-1426 | B (and BP with shift 2 and limit 1): the server's stream is always a prefix of what was written and all of it on success; permanent failure gives up exactly when the retry rule does; if every round works the call succeeds. With a fixed size it then takes exactly as many requests as the bytes need. |
| Retries.FailureFalls | chunk.go:1396-1411 | Every failure lowers the measure of size above minimum, failure budget and tries left. |
| Retries.GivesUpWithin | bp.go:552-566 | The bound on failures before the call ends. |
| Retries.CountsExactly | internal/xorchunk/chunk.go:1262-1277 | Fixed sizing on X, whatever the size, or a size already at the minimum, ends at exactly the limit. |
| Retries.NeverGivesUp | chunk.go:1401-1406 | A fixed size above the minimum never meets the exit test of B and BP. |
| Retries.GivesUpIff | chunk.go:1396-1411 | Permanent failure ends the call if and only if sizing is adaptive, the size is at the minimum, or fixed sizes count. |
| Retries.DepthFirst | chunk.go:1323-1344 | The first failures of a B download halve the pipeline to its floor, all later ones follow the upload's rule. |
| Retries.DownloadGivesUpIff | chunk.go:1318-1345 | So a B download under permanent failure ends exactly when an upload would, within a stated bound. |
| Sizer.InvAlways | chunk.go:97-202 | Over every sequence of reports: minimum <= size <= maximum, good <= size, bad unknown or above size (except both at the minimum). |
| Sizer.OnlyCurrentReportsCount | chunk.go:100-102 | Stale reports change nothing; success never shrinks and failure never grows. |
| Sizer.CappedAlways | internal/xorchunk/chunk.go:163-320 | A bound on the sizes a sizer can give holds over every sequence of reports. |
| Sizer.CalibratedIsKept | internal/xorchunk/chunk.go:117-138 | Fixed at its calibrated size, as in every session the program opens, a sizer gives exactly the smaller of that size and the server's maximum, for ever. |
| Sizer.OpenedIsSound | internal/xorchunk/chunk.go:163-194 | After opening an X session, with the calibrated ceiling of the direction, the sizer is sound if and only if the server's maximum reaches the minimum; then no size exceeds that maximum. |
| Sizer.OpenedStarts | internal/xorchunk/chunk.go:163-194 | A session starts with the calibrated size, or the option's if there is none, unless the server's maximum is smaller, and its ceiling is the calibrated one, the maximum or the server's. |
| Sizer.OpenedTooSmall | internal/xorchunk/chunk.go:985-996 | Otherwise sizes stay within what the server accepts if and only if sizing is fixed. |
| Sizer.CeilingIsKeptIff | internal/xorchunk/chunk.go:985-996 | With adaptive sizing a calibrated ceiling is kept if and only if the server's maximum does not lie between it and the options' maximum. |
| Sizer.AdaptiveSizer.Open | internal/xorchunk/chunk.go:163-194 | Building the sizer and adjusting it to the server's maximum computes the specification. |
| Sizer.BracketsAlways | chunk.go:97-202 | Against a carrier that passes exactly up to T, good never exceeds T and bad is never at or below it. |
| Sizer.FailuresWithGood | chunk.go:162-187 | In halving mode (shrinkStep 0) with a good size recorded, a run of failures lasts exactly until there were shrinkAfter of them. |
| Sizer.LinearSteps | chunk.go:169-173 | In linear mode (shrinkStep above 0, the program's default) a size fits after exactly as many steps as its distance above T, divided by shrinkStep and rounded up. |
| Sizer.HalvingSteps | chunk.go:168-187 | In halving mode a size fits after exactly as many steps as halvings bring it to T. |
| Sizer.FailuresWithoutGood | chunk.go:162-195 | In linear mode, and in halving mode without a good size: a run of failures lasts exactly until there were shrinkAfter of them for each step down to a size that fits. |
| Sizer.GoodLimitsFailuresIff | chunk.go:166-187 | A recorded good size limits a run of failures to shrinkAfter if and only if the mode is halving or one linear step is enough. |
| Sizer.LinearForgetsGood | chunk.go:169-173 | At the program's default options three failures in a row follow a recorded good size. |
| Sizer.GrowthHalvesGap | chunk.go:126-140 | Growing out of a bracket leaves at most half the gap, rounded up. |
| Sizer.SuccessesGrow | chunk.go:115-140 | A growth takes exactly adaptSuccesses successes in all, eight times as many if and only if a failing size is known within `near` of the good one, and goes half way to the failing size. |
| Sizer.FailuresReturn | chunk.go:162-187 | In halving mode (shrinkStep 0) enough failures at a probed size return to the good one. |
| Sizer.BracketConverges | chunk.go:97-202 | In halving mode (shrinkStep 0), from a bracket, the sizer ends on exactly T with T+1 known bad, within a number of reports proportional to the halvings of the bracket. |
| Sizer.GrowsOnce | chunk.go:97-147 | In either mode, from any sound state below the ceiling, the size changes after exactly that many successes: half way to the failing size, or if none is known above by a quarter, at least 32 bytes, up to the ceiling. |
| Sizer.GrowthIsGentle | chunk.go:126-140 | No growth adds more than a quarter, 32 bytes, or half of the way to the failing size. |
| Sizer.FallsToFit | chunk.go:153-202 | In either mode failures bring the size down to one that fits within the failure budget, with the smallest size that failed recorded. |
| Sizer.ClimbsConverge | chunk.go:97-202 | In either mode, with a failing size known, each climb and the fall after it at least halve the distance from T to the failing size. |
| Sizer.Converges | chunk.go:97-202 | In either mode, from any sound state, whatever it remembers: for every T from the minimum up to below the ceiling the sizer ends on exactly T with T+1 known bad, within a stated number of reports. |
| Sizer.RecoversMaximum | chunk.go:1274-1280 | In either mode, when everything up to the maximum passes, it recovers the maximum (the calibrated size) from any sound state, past any failing size it remembers, within a stated number of reports, and stays there. |
| Sizer.AdaptiveSizer.constructor | chunk.go:61-89 | The start size is clamped into the range and the state is sound. |
| Sizer.AdaptiveSizer.Success | chunk.go:97-147 | The locked method computes the specification. |
| Sizer.AdaptiveSizer.Failure | chunk.go:153-202 | The same for failures; both sizes are returned. |
| Calibration.Confirm | chunk.go:786-834 | Two of three: two successes or two non-timeout failures decide, timeouts never vote, and indecision takes all three. |
| Calibration.Decide | chunk.go:858-890 | A size is accepted exactly when the log shows it, and rejected only after two non-timeout failures at that size. |
| Calibration.Ascend | chunk.go:845-926 | The ascent ends at the ceiling, at a timeout or with a rejected size, within its probe budget. |
| Calibration.RefineRound | chunk.go:928-945 | One round decides the middle of the bracket. |
| Calibration.Refine | chunk.go:928-945 | Refinement ends within the resolution or at a timeout, within three probes a round. |
| Calibration.ProbeMaximum | chunk.go:836-949 | For arbitrary answers the result is in range, is the largest size the log accepts (or the minimum), and the search stopped for a stated reason within its budget: the ceiling, a rejected size within the resolution, a rejected floor, or a last size above the result that timeouts left undecided. X's calibrateMaximum is the same with its own resolution. |
| Calibration.BoundaryFound | chunk.go:836-949 | Against a steady threshold T the result is at most T and within the resolution of min(T, maximum). |
| Calibration.RoundsBound | chunk.go:928-945 | A gap of resolution times 2^k takes at most k rounds. |
| Calibration.CostOfDefaultRange | chunk.go:845-945 | The dearest path of the ascending search over the default range. |
| Calibration.DefaultRangeCosts | chunk.go:845-945 | From 32 bytes to 1 MiB at most 66 probes under any answers, 37 with a steady carrier. |
| Calibration.Descend | chunk.go:983-1013 | The coarse descent and what it may conclude. |
| Calibration.RefineOnce | chunk.go:1015-1032 | One probe a round between a passed and a failed size. |
| Calibration.ProbeMaximumMaxFirst | chunk.go:972-1035 | The result is the largest size that passed; with none, the size that timed out or the floor. |
| Calibration.BoundaryFoundFromMax | chunk.go:972-1035 | It finds the same boundary. |
| Calibration.MaxFirstCosts | chunk.go:959-970 | At most 21 probes. |
| SshCarrier.NewConfig | ssh_carrier.go:38-50 | The clamps raise the sizes to 32 KiB and two batches, and to nothing more. |
| SshCarrier.Step | ssh_carrier.go:64-208 | Every critical section and raw write keeps conservation, bounds and no lost wakeup. |
| SshCarrier.Reachable | ssh_carrier.go:64-208 | In every reachable state raw plus batch in flight plus buffer is what Write accepted, in order, until a raw error, and raw is a prefix of it after one; buffer and batches are bounded; nobody sleeps through the event it waits for. |
| SshCarrier.SignalReachesDrain | ssh_carrier.go:189-191 | With any number of writers the single Signal can only wake the drain loop when it is parked. |
| SshCarrier.BatchIsFull | ssh_carrier.go:91-109 | In every reachable state a batch is everything that is buffered, or full. |
| SshCarrier.WriterFills | ssh_carrier.go:163-191 | In every reachable state a writer that need not wait appends all it still has, or fills the buffer. |
| SshCarrier.NoDeadlock | ssh_carrier.go:64-208 | While bytes are buffered, a writer is parked or Close waits, the drain loop can step; every other caller can. |
| SshCarrier.CloseNilMeansAllWritten | ssh_carrier.go:196-208 | Close returning nil means every accepted byte reached the raw connection. |
| SshCarrier.CloseTerminates | ssh_carrier.go:64-127 | After Close nothing more is accepted and the drain loop ends within a bounded number of steps. |
| SshCarrier.Carrier.CheckWork | ssh_carrier.go:69-81 | The top of the drain loop is one event of the step system. |
| SshCarrier.Carrier.TakeBatch | ssh_carrier.go:91-109 | Cutting a batch is one event: batch and remaining buffer are the old buffer, and the batch is full or the buffer empty. |
| SshCarrier.Carrier.RecordError | ssh_carrier.go:116-124 | Recording a raw error is one event. |
| SshCarrier.Carrier.WriteTurn | ssh_carrier.go:163-191 | One turn of Write is one event: wait, give up, or append what fits and signal. It takes all that is left or fills the buffer. |
| SshCarrier.Carrier.MarkClosing | ssh_carrier.go:198-201 | Close's critical section is one event. |
| Discovery.ProbesNeverBlock | wireselect.go:333-408 | Running and reported probes never exceed the channel's capacity, so probes left behind can always send; each candidate is launched at most once. |
| Discovery.OutcomeIsRight | wireselect.go:351-408 | Success returns a validated candidate; failure means every candidate was probed and rejected. |
| Discovery.FirstValidWins | wireselect.go:333-408 | With one thread the first valid candidate wins. |
| Discovery.SearchEnds | wireselect.go:351-408 | Until there is an outcome something can happen, and launches and receives use up a measure. |
| Discovery.DetectLocked | wireselect.go:333-408 | Any number of probes may finish, and the delay may pass, before each turn of the loop; whatever the loop then does is a run of the step system, so a success is a validated candidate (the first valid one with one thread) and a failure means that none validates. While no probe finishes, each delay that passes launches one more, up to the number of threads. |
| Discovery.Meanwhile | wireselect.go:359-367 | Every probe that finishes puts its result into the channel, behind those waiting. |
| Discovery.Room | wireselect.go:348-367 | A probe that finishes finds room in the channel. |
| Discovery.Threads | wireselect.go:338-344 | The thread count is the option's, clamped to 1 and 16. |
| Discovery.ClearCandidatesAre | wireselect.go:273-298 | With forced clear payloads exactly the B and BP wires of the family are tried, with both masks, the plain one first. |
| Discovery.WireSelector.Mode | wireselect.go:239-268 | A found choice is kept for ever and a failure is not cached; cached or fallback, the choice stays in the configured family and, under forced clear payloads (which main.go:630-633 does not allow with X), it is clear. |
| Discovery.WireSelector.ResolveOnly | wireselect.go:131-145 | The same cache and the same promise, without a fallback. |
| Bytes.XorIsBitwise | internal/wire/protocol.go:94-96 | A bit of an exclusive or is set exactly if it is set in one of the bytes. |
| Bytes.MostSignificantFirst | internal/wire/protocol.go:82-90 | In a field the first byte counts most. |
| Framing.SeedLayout | internal/wire/protocol.go:79-90 | The 30 hashed bytes are the session, the mode, the number, 1 for responses and 0 for requests, and the block number modulo 2^32. |
| Framing.SeedsDiffer | internal/wire/protocol.go:79-90 | No two blocks of any two payloads are hashed from the same bytes: session, mode, number, direction and block follow from them. |
| Framing.MaskedByte | internal/wire/protocol.go:87-99 | Byte i of a payload is combined with byte i % 32 of the hash for block i / 32, read by that layout. |
| Framing.MaskTwice | internal/wire/protocol.go:74-101 | Masking undoes itself. |
| Framing.MaskInPlace | internal/wire/protocol.go:74-101 | The blockwise loop masks byte i with byte i % 32 of block i / 32, and nothing before the slice. |
| Framing.RequestLayout | internal/wire/protocol.go:117-140 | Where everything is in a request: masked mode, session, number, id, length, and each payload byte, clear or masked as a request. |
| Framing.RequestRoundTrip | internal/wire/protocol.go:117-179 | A request, plain or multiplexed, masked or clear, reads back exactly, leaving what follows. |
| Framing.RequestIsCanonical | internal/wire/protocol.go:151-179 | Whatever is accepted is the encoding of what was read. |
| Framing.ResponseRoundTrip | internal/wire/protocol.go:285-339 | So does a response, except that a masked error's body stays masked. |
| Framing.ResponseLayout | internal/wire/protocol.go:281-304 | The same for a response, and what the client makes of each byte of its body. |
| Framing.ResponseAcceptedIff | internal/wire/protocol.go:311-331 | Accepted are exactly complete responses with a known status and an allowed length; which error comes first differs between the two forms. |
| Framing.ResponseIsCanonical | internal/wire/protocol.go:311-331 | Whatever is accepted is the encoding of what was read. |
| Cover.DecodeEncode | internal/cover/profile.go:51-109 | Every profile that can be sent is recognised. |
| Cover.EncodeDecode | internal/cover/profile.go:82-109 | Accepted prefaces re-encode to the same bytes. |
| Cover.PrefaceLayout | internal/cover/profile.go:33-80 | Where everything is in a preface: the ID in clear; under the hash for that ID the magic, the two flags, the header mask, the padding length and the check bytes. |
| Cover.EncodePreface | internal/cover/profile.go:51-80 | The array-filling code computes the specification, with both refusals. |
| Cover.DecodePreface | internal/cover/profile.go:82-109 | The same for decoding. |
| Connection.FramesRoundTrip | internal/wire/protocol.go:117-257 | Any sequence of valid requests reads back with nothing left over. |
| Connection.FramesAreCanonical | internal/wire/protocol.go:151-257 | And frames that are accepted are the encoding of what was read. |
| Connection.ConnectionRoundTrip | internal/cover/profile.go:111-127 | Preface, padding and frames decode to the same profile and the same requests. |
| Connection.ConnectionIsCanonical | internal/cover/profile.go:82-109 | What is read off a connection determines every byte of it but the padding. |
| Connection.FillHeader | internal/wire/protocol.go:117-140 | The header's fields land at their offsets and the payload is untouched. |
| Connection.WriteRequest | internal/wire/protocol.go:192-217 | The frame, or a prefix of it when the connection fails; nothing for an oversized payload. |
| Connection.ReadRequest | internal/wire/protocol.go:151-179 | Reading consumes exactly one frame or reports why not. |
| Connection.WritePreface | internal/cover/profile.go:111-127 | Nothing for a disabled or refused profile, otherwise preface and padding, or a prefix of them when the connection fails. |
| Io.WriteAll | internal/wire/protocol.go:485-497 | A prefix is written, all of it on success, and a writer that takes something every time is enough. |
| RequestIds.AllocIsFreshIff | internal/wire/protocol.go:451-466 | In every reachable state the id handed out next is not in use if and only if fewer than 2^32 - 1 are. |
| RequestIds.NoTwoLiveIdsCoincide | internal/wire/protocol.go:433-477 | From every start, over runs that release only ids in flight: free and live ids partition the first ids of the counter's cycle, as many as the peak in flight, so no two of up to 2^32 - 1 live ids coincide. |
| RequestIds.AllocatingFills | internal/wire/protocol.go:451-466 | From every start, allocating without releasing fills the pool without a gap, up to all 2^32 - 1 ids. |
| RequestIds.WrapCollides | internal/wire/protocol.go:460-464 | Then all ids are live, and the next one handed out is the first again. |
| RequestIds.DoubleReleaseCollides | internal/wire/protocol.go:469-476 | So it is after releasing an id that is not live. |
| RequestIds.RequestIdPool.AllocId | internal/wire/protocol.go:451-466 | The locked method computes the specification, with the counter's wrap. |
| RequestIds.RequestIdPool.ReleaseId | internal/wire/protocol.go:469-476 | The same for releasing. |
| XorFast.XorGeneric | internal/protocol/xor_generic.go:6-10 | The byte loop XORs every byte with the key. |
| XorFast.WordXor | internal/protocol/xor_fast64.go:15-50 | XORing a word with the repeated key XORs each of its bytes. |
| XorFast.LoadXorStore | internal/protocol/xor_fast64.go:15-50 | Load, XOR and store of a word is the byte loop on eight bytes. |
| XorFast.XorInPlace | internal/protocol/xor_fast64.go:15-50 | The aligned, unrolled loop equals the byte loop for every length and address. |
| XorFast.XoredTwice | internal/protocol/xor_generic.go:6-10 | Applying it twice gives the bytes back. |

## Left out

- Upload.Uploader.Write: says nothing after the first call that did not succeed, because the program leaves unacknowledged bytes behind and its callers stop there.
- XPush.Pusher.Write: the same.
- BStream.Downloader.Read: how a call goes on is stated for rounds that are answered whole or fail before any reply; a timeout, an error status or a batch cut part-way leaves it open, beyond what holds for every round.
- BpStream.Downloader.Read: the same.
- XPull.NeverFreesWanted: sequence numbers are unbounded; the program's are 64-bit. Stream offsets are unbounded in the same way.
- Discovery.DetectLocked: the launch delay is a signal that it has passed, not a clock.
- Sockets, dialling, deadlines, sleeps and TCP tuning: only the outcome of each attempt is kept, and a request is put on the wire as one write.
- The text of CPULL, CPUSH, DATA and ACK lines: requests and replies are their fields after splitting.
- X control requests on the push lane: only record requests are in its log.
- BP download requests as frames: their length field is a size hint without a payload; all other BP requests have the B layout.
- Masked responses with an error status: the client never unmasks them, and the round trip says so.
- SHA-256, random padding, session ids: SHA-256 is any function to 32 bytes, the others are parameters.
- Closing requests, and the five attempts at X control requests: one more transaction with no state behind it.
- Sustained throughput measurement, worker counts, progress output, the wall-clock cache of path profiles.
- The enumeration of header masks: a finite list.
- The SSH tunnel wrapper, SOCKS5 parsing, HTTP rewriting, port scan, relay and command line: plumbing around these parts.
- The 32-bit form of the word-wide exclusive or: the same argument with smaller words.
- Branches that cannot be taken: the rotation inside the lane's ensure step, the refinement's test for an empty middle, and the carrier's test for no room after its wait.
