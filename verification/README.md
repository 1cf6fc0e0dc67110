# A verified model of the TFTP client and server

The repository transfers files with TFTP and its options (RFC 1350, RFC 2347,
RFC 2348, RFC 2349, RFC 7440). Reliability is Go-Back-N over 16-bit block
numbers: every sender keeps the beginning of its window, the next block number
and a ring of packets, all modulo 65536. The project models

- the server session (`tftp/src/server/session.c`) as an asynchronous state
  machine whose timer, receive and read operations are in flight in the
  dispatcher, and the worker pool that hands out session slots;
- both loops of the client (`tftp/src/client/client.c`), `receive_file` and
  `send_file`;
- whole transfers: a read request over two channels that keep the order of
  packets and may lose any of them, and a write request over a network that
  may lose, duplicate and reorder at will;
- option negotiation down to the characters of the request and of the OACK;
- the retransmission timer of `tftp/src/adaptive_timeout.c`.

## How the modules fit together

`BlockNumbers`, `RingSlots` and `FileBlocks` hold the 16-bit window test, the
ring index and the blocks of a file. `Session` states what each event does to
a session as functions on values; `SessionObject` is the same session as the
object the C code updates in place, and its event handler is proved equal to
those functions. In the same way `ClientLoops` (objects and loops) is proved
against `Receiver` and `FileSender` (functions), `OptionRecords` and the
methods of `Options` and `Requests` against `Negotiation` and the functions
beside them, and `AdaptiveTimeout.Record` against `Measure` and `Backoff`.

`GoBackN` is the protocol with unbounded numbers. `GetTransfer` composes
session, client and channels; `GetInvariant` relates each state to a
Go-Back-N link, `GetSession`, `GetSteps`, `GetClient` and `GetTheorems` prove
that every step keeps the relation, and `GetResults` draws the conclusions.
`SenderInvariant`, `PutTransfer` and `PutTheorems` do this for write requests.
`ShortReads` settles which sessions can still send their next block, and
`SenderCompletion` which files `send_file` can complete at all. `GetFlow`
follows a read request block by block; `GetCompletion` builds from it the runs
that complete, `GetRefusal` settles the clients for which there are none, and
`RingNecessity` builds the runs that go wrong where the ring is too small.
`PutCompletion` has the runs of write requests that complete.
`SessionJobs` and `SessionRuns` speak about every life of a session whatever
reaches it, `SessionAnswers` about what it answers, `SessionOperations` about
what it has under way and why it closes, `SessionHangs` about the one event
whose handler does not return. `ReceiverAnswers` says the same of the client in
terms of what it received alone. Likewise `AskedAndAnswered` puts a whole
negotiation, and `OackHandling` the OACK of any server, in the words and numbers
of the protocol. `WorkerPool` and `WorkerStarvation` speak about every
interleaving of the accept thread and the workers. `OptionText` records options as pointers into the text
they were parsed from, `ServerLoop` is the server's loop over them for the text
of any client. `Agreement` proves that both ends of a negotiation reach the same
parameters, and `EndToEnd` joins it to the transfers: from the options the user
gave to the file at the other end.

A run is a sequence of step labels that is valid from an initial state; every
result quantifies over all of them.

## Hypotheses

- Read requests: where there are retries the ring must hold every window of the
  transfer, that is the window size divides 65536 or the file has at most 65536
  blocks (`RingNecessity.RoundsAreOwnIff` and `FilesArriveIff` show that exactly
  these transfers are safe, whatever the file of that length); datagrams of a
  pair of sockets are not reordered or duplicated
  (`GetResults.EmptyWindowAcceptsAnything` shows what the window test would
  accept otherwise).
- Write requests: at most 65534 blocks, one session, options given as a
  non-null pointer (`EndToEnd.NullOptionsCannotPut`).
- Slot reuse: no session ever has more than 255 operations outstanding, since
  `pending_jobs` is eight bits wide (`SessionRuns.PendingJobsCountOutstanding`).
- A run of a session ends before a time-out whose handler does not return;
  `SessionHangs.TimeoutReturnsIff` says which these are, and in the composed
  read requests there are none (`GetResults.ReadAlwaysReturns`).
- Packets are at least four bytes long and writes to sockets and files by the
  server are whole; the file read by the server does not change.

## What the proofs found

- An empty window cannot be told from the full circle of block numbers. If the
  acknowledgement of the next block arrives while that block is still being
  read into an empty window, the session accepts it and starts the timer with
  the window behind the next block; once the block is sent the window is empty
  and the timer runs. The loop of the next time-out then has no end: the
  session sends without pause and its worker handles no other event. A
  time-out within the budget does not return if and only if the session is a
  live read session with its OACK settled, the last acknowledgement it took
  was of this kind, and that block alone was sent since
  (`SessionHangs.TimeoutReturnsIff`; `EarlyAckHangs` is such a run, of three
  events, for every file). A peer that acknowledges only the OACK and the last
  65535 of the blocks it was sent never leads there (`SentBlocksAcknowledged`).
- Where a window does not fit the ring, that is where its size does not divide
  65536 and the file has more than 65536 blocks, two blocks of one window share
  a slot. With a retry and a client that accepts the answer there is then a run
  in which a round of retransmission sends a block under the number of another
  (`RingNecessity.RoundsAreOwnIff`), and a run in which some file of that length
  does not arrive as it is (`FilesArriveIff`): the kernel reads the later block
  into the slot of the earlier one, which is sent again. Which file that is
  depends on the bytes. It is every file whose later block is not the beginning
  of the earlier one (`DifferentBlocksSpoil`), and every file at all when the
  later block is the last (`SharedLastBlockSpoils`).
- On a seekable file a read that returns some bytes, but not all of a block
  that ends before the file does, dooms the session: `create_data_packets`
  compares the bytes of the last read, not of the block, with the block size,
  so the block is never sent and no other follows. A live session that is
  reading can still send its next block if and only if it is not doomed
  (`ShortReads.NextBlockComesIff`); a read dooms it if and only if it sends
  nothing and the block ends before the end of a seekable file
  (`ShortReadDoomsIff`); one byte of any file of more than 512 bytes does it
  (`StallHappens`).
- `send_file` compares a 16-bit number with an `int` that is -1 after the wrap.
  With the window of one that write requests use, some run completes the
  transfer if and only if the last block number is not 65535 modulo 65536
  (`SenderCompletion.CompletesIff`; `StuckAfterLastAck` is the run that gets
  stuck). With 255 retries it never gives up either, because the counter wraps
  (`SenderInvariant.GivesUpIff`).
- The server prints the size of the file over the value of the size option. If
  that value is not "0" it is part of the request's text, and a longer size
  reaches what follows: the window, which is read afterwards, is then made of
  the last digits of the size. It is in range if and only if those digits do
  not make a multiple of 65536 (`ServerLoop.WindowInRangeIff`); with a size of
  5 and a window of 4 in the request and 13 digits it is 0
  (`ThirteenDigitsLoseTheWindow`), and the ring index divides by it. This
  client only sends "0".
- A read that fails ends the session with an ERROR but leaves its receive under
  way: of all the ways to close it is the only one (`SessionOperations.LeftListeningIff`),
  and until another packet arrives the session does not report CLOSED and its
  slot is not freed (`FailedReadWaits`). A client that got the ERROR sends none.
- The back-off lowers a timeout above one second instead of doubling it
  (`AdaptiveTimeout.BackoffDoublesIff`; `BackoffLowersThreeSeconds` is a reachable case).
- A round of the accept loop that is abandoned, or whose start event cannot be
  submitted, never returns the credit of its slot. The accept thread waits for
  ever for a worker whose slots are all free if and only if as many credits
  were lost as it has slots (`WorkerStarvation.StarvesIff`), and abandoned
  rounds of the least busy worker lead there for any number of workers
  (`AbandonedRoundsStarve`).
- A size that was asked for and could not be told makes the client report a
  complete, non-empty file as a failure (`EndToEnd.SizeAcceptedIff`).

Where comments and code differ the code is followed: `adaptive_timeout.c`
refers to RFC 6298, whose section 5 doubles the timeout and bounds it, if at
all, by at least 60 seconds, while the code caps the doubled value at one
second.

## Model

| member | source | states |
|---|---|---|
| BlockNumbers.IsInRangeDecidesWindow | tftp/src/server/session.c:59-61 | For every number within one turn of a non-empty window the 16-bit circular test decides exactly the unbounded window test |
| BlockNumbers.IsInRangeMeasuresDistance | tftp/src/client/client.c:93-95 | For every window of at most 65536 blocks the test compares the circular distance from the beginning with the width, and an empty window reads as the full circle |
| BlockNumbers.IsInRangeRightBelowIff | tftp/src/server/session.c:59-61 | For a number below the window the test is right if and only if the window is non-empty and the number lies less than one turn below its end |
| BlockNumbers.WindowTest | tftp/src/server/session.c:471-484 | Counting up from the beginning of a non-empty window, the loop guard fails first after exactly next - begin blocks, also across the wrap |
| BlockNumbers.LoopEndsIff | tftp/src/server/session.c:471-484 | The retransmission loop ends if and only if the window is not empty, after exactly next - begin turns; on an empty window it passes every number of turns |
| RingSlots.RingSlotsDistinctIff | tftp/src/server/session.c:669-678 | The slots of a full window of at least two blocks are pairwise distinct if and only if the window size divides 65536 or the window does not cross the step from one turn of the counter to the next |
| RingSlots.SlotsDistinctWhenRingSafe | tftp/src/server/session.c:708-711 | Under the ring hypothesis two different blocks of one window never share a slot |
| FileBlocks.ShortBlockIsLast | tftp/src/server/session.c:392-404 | A block is short exactly when it is the last one, and the blocks up to it are the whole file |
| SessionObject.TftpSession.constructor | tftp/src/server/session.c:72-101 | A new session is the initial state of the value model |
| SessionObject.TftpSession.Handle | tftp/src/server/session.c:103-218 | One event changes session, outstanding operations, `pending_jobs`, packets sent and measurements exactly as the value model says, and CLOSED is answered exactly when the session is closing and `pending_jobs` is zero; there is no answer exactly when the retransmission loop does not end (`SessionHangs.TimeoutReturnsIff`), and then the round is counted and the timer submitted, and no more |
| SessionObject.TftpSession.Start | tftp/src/server/session.c:105-131 | OACK with timer and receive, ACK 0 with receive, or receive alone; an invalid request closes |
| SessionObject.TftpSession.HandleData | tftp/src/server/session.c:356-412 | A completed read extends the slot of the next block and leads to nothing, an ERROR, or the block and perhaps a timer |
| SessionObject.TftpSession.TransmitNewBlock | tftp/src/server/session.c:386-411 | The complete block is numbered, sent with its own length, timed if nothing is, and starts the timer of an empty window |
| SessionObject.TftpSession.ResendWindow | tftp/src/server/session.c:471-484 | On a non-empty window the loop terminates and sends the stored packet of every block of the window once, in order |
| SessionObject.TftpSession.HandleTimeout | tftp/src/server/session.c:414-486 | Spent budget: cancel the receive, send an ERROR, close; otherwise count, cancel the measurement, restart the timer and send again OACK, last ACK or window, unless the window of data is empty: then, and only then, the loop does not end (`SessionHangs.RoundReturnsIff`) |
| SessionObject.TftpSession.HandleDataPacket | tftp/src/server/session.c:533-574 | Only the expected block, or block 1 as acknowledgement of the OACK, is written, acknowledged and counted; a short one closes |
| SessionObject.TftpSession.HandleAck | tftp/src/server/session.c:575-614 | An accepted number moves the window behind it, ends the measurement it covers, restarts the timer while blocks are unacknowledged, and closes on the short block |
| SessionObject.TftpSession.HandleArrival | tftp/src/server/session.c:151-168 | A cancelled receive or a closing session does nothing; otherwise the packet is handled and the receive is submitted again unless the session closes |
| SessionObject.TftpSession.FetchData | tftp/src/server/session.c:708-728 | The next read continues an incomplete block or starts a new one and is counted |
| SessionJobs.HandleEventKeeps | tftp/src/server/session.c:776-823 | Every event keeps the session well formed and `pending_jobs` equal to the number of outstanding operations modulo 256, and nothing sent is unsent |
| SessionRuns.PendingJobsCountOutstanding | tftp/src/server/session.c:103-218 | After every sequence of events `pending_jobs` is the number of outstanding operations modulo 256; CLOSED is reported exactly when closing with a multiple of 256 outstanding, below 256 with none |
| SessionRuns.RoundSends | tftp/src/server/session.c:445-484 | A round of retransmission that ends sends at least one packet, and exactly the OACK, the last acknowledgement, or the blocks of the window once in order |
| SessionRuns.RoundsBounded | tftp/src/server/session.c:414-437 | In every run the counter of a session is the number of rounds of retransmission since the transfer last advanced, and at most `retries` (section 6 of RFC 7440); a run ends before a round that would not (`SessionHangs.TimeoutReturnsIff`) |
| SessionRuns.GivesUpIff | tftp/src/server/session.c:415-435 | A time-out closes a live session if and only if there were `retries` rounds since the transfer last advanced |
| SessionRuns.BudgetSpentCloses | tftp/src/server/session.c:415-435 | When the budget is spent the next time-out of a live session sends an ERROR, nothing else, and closes it |
| SessionAnswers.FirstPacket | tftp/src/server/session.c:105-131 | In every run the first packet of a valid request is the OACK if options are required and otherwise acknowledgement 0 of a write request; a read request without options has no answer of its own |
| SessionAnswers.TakesInOrder | tftp/src/server/session.c:533-574 | After every sequence of events a write session has written the payloads it took, and takes a DATA packet if and only if its number is one more than their count, modulo 65536 |
| SessionAnswers.TimeoutRepeatsLastAnswer | tftp/src/server/session.c:445-464 | The last packet of a live write session is the OACK until that is acknowledged, and then the acknowledgement whose number is the count of the DATA packets taken, modulo 65536; a time-out sends exactly it again, and apart from the start, the packets taken and the rounds nothing is sent |
| SessionAnswers.WriteTimerRuns | tftp/src/server/session.c:414-464 | In every run the timer of a live write session runs exactly if its options had to be acknowledged |
| SessionAnswers.AckTakenIff | tftp/src/server/session.c:580-591 | A live read session takes acknowledgement 0 of its pending OACK, one whose distance from the beginning of the window is less than the window's length, modulo 65536, and any if the window is empty, and no other |
| SessionOperations.ClosesIff | tftp/src/server/session.c:103-218 | A live session closes on an invalid request, a failed read, a spent budget, an error or a foreign packet of the peer and the end of the transfer, and on nothing else; it sends an ERROR, alone, exactly in the second, third and fifth case |
| SessionOperations.AlwaysVigilant | tftp/src/server/session.c:151-168 | In every run in which only asked-for cancellations happen a live session has exactly one receive under way, and a timer whenever it says that one is running |
| SessionOperations.TimersBalance | tftp/src/server/session.c:602-609 | In every run the timers under way are those started and not completed, one for the OACK, each round, each block sent into an empty window and each acknowledgement that leaves blocks; and so are the removals, one for each acknowledgement taken |
| SessionOperations.QuietEvents | tftp/src/server/session.c:132-168 | A cancelled time-out or receive, the end of a removal, and any time-out or packet of a closing session change nothing and submit nothing |
| SessionOperations.LeftListeningIff | tftp/src/server/session.c:356-384 | A session that closes leaves a receive that nobody cancels if and only if a read has failed |
| SessionOperations.FailedReadWaits | tftp/src/server/session.c:356-384 | After a failed read, in every continuation without a packet, the session reports CLOSED only with 256 or more operations under way |
| SessionOperations.MeasuresIff | tftp/src/server/session.c:386-391 | An adaptive session times the first block it sends while none is timed, or its OACK, and stops on a measurement or a round of retransmission, and on nothing else |
| SessionHangs.RoundReturnsIff | tftp/src/server/session.c:471-484 | A round of a read session with its OACK settled returns if and only if its loop ends, if and only if the window is not empty, after next - begin packets; otherwise the loop passes every number of turns |
| SessionHangs.TimerOnEmptyWindowIff | tftp/src/server/session.c:583-609 | After every sequence of events a live read session with its OACK settled has a running timer and an empty window if and only if the last acknowledgement it took was of the block to be sent next, came on an empty window, and exactly one block has been sent since |
| SessionHangs.TimeoutReturnsIff | tftp/src/server/session.c:414-484 | After every sequence of events, for every next event: its handler fails to return if and only if it is a time-out within the budget of such a session |
| SessionHangs.SentBlocksAcknowledged | tftp/src/server/session.c:583-609 | Every handler returns after every sequence of events in which each acknowledgement taken was the number of the OACK or of one of the last 65535 blocks sent |
| SessionHangs.EarlyAckHangs | tftp/src/server/session.c:583-609 | For every read request without options and with at least one retry: the acknowledgement of block 1 before block 1 is read leads, for any content of that block, to a session whose next time-out never returns |
| GoBackN.DeliverKeeps | tftp/src/client/client.c:468-573 | A receiver that takes the oldest message, accepts only the expected block and repeats its last acknowledgement otherwise keeps the link invariant |
| GoBackN.ReceiveAckKeeps | tftp/src/server/session.c:575-614 | A sender that takes the oldest acknowledgement keeps the link invariant |
| GetTheorems.RunInv | tftp/src/server/session.c:356-615 | In every run of a read request session, client, channels and everything sent follow a Go-Back-N link with unbounded numbers |
| GetResults.GetSafety | tftp/src/client/client.c:468-573 | In every run the client's output is a prefix of the server's file, and it is the file when `receive_file` returns true |
| GetResults.SessionIsGoBackN | tftp/src/server/session.c:190-204 | In every run each step of the session is one step of a Go-Back-N sender with unbounded numbers whose window holds 0 to w blocks and whose truncation is the session's window |
| GetResults.EveryTransmission | tftp/src/server/session.c:386-410 | Everything ever sent, first time or again, is the OACK, an ERROR or DATA k with the 16-bit number k and exactly the bytes of block k, short exactly for the last block, even while a read fills the slot of the next block; no transmission goes back a full window |
| GetResults.TimerFollowsWindow | tftp/src/server/session.c:591-609 | A live session's timer runs exactly while the OACK or a block is unacknowledged, and a round then sends next - begin packets, at least one |
| GetResults.ReadAlwaysReturns | tftp/src/server/session.c:445-484 | In every run of a read request, with the client and the two channels, the handler of every event returns: a session that retransmits has an OACK or a non-empty window to send |
| GetResults.KarnsRule | tftp/src/server/session.c:593-600 | Whenever a round trip is measured, the block or OACK that started the measurement has been sent exactly once (section 3 of RFC 6298) |
| GetResults.MeasuredIff | tftp/src/server/session.c:593-600 | In every run an arriving acknowledgement is measured if and only if a block is being timed and it acknowledges that block |
| GetResults.LockStepTransfer | tftp/src/server/session.c:190-204 | With a window of one no block is sent before the client has all blocks before it, and block numbers sent never decrease (section 4 of RFC 7440) |
| GetResults.DataAfterOack | tftp/src/server/session.c:190-197 | No DATA is sent while the OACK is unacknowledged (RFC 2347) |
| GetResults.NoReadAfterShortBlock | tftp/src/server/session.c:401-404 | Once a short block has been sent no read is outstanding and none will be submitted |
| GetResults.PeerKeepsToProtocol | tftp/src/client/client.c:936-961 | All the client sends the session is acknowledgements and errors |
| GetResults.EmptyWindowAcceptsAnything | tftp/src/server/session.c:583 | Once the OACK is settled a session accepts every number if and only if its window is empty, and then the window moves unless the number is the one before it |
| ShortReads.ShortReadSendsIff | tftp/src/server/session.c:873-884 | In every run a read that ends well sends the next block, as the only packet, if and only if it alone has the size of a block or, on a seekable file, reaches its end, on a pipe, returns nothing; otherwise nothing |
| ShortReads.NextBlockComesIff | tftp/src/server/session.c:873-884 | In every run a live session that is reading can send its next block in some continuation if and only if it is not doomed: some bytes of the block are read and the block ends before the end of a seekable file |
| ShortReads.StuckForever | tftp/src/server/session.c:930-939 | In every continuation of a run a doomed session, or one that is closing and no longer reading, stays so and never sends another block |
| ShortReads.ShortReadDoomsIff | tftp/src/server/session.c:708-728 | In every run a read of a live session that does not lead to a block dooms it if and only if the file is seekable and the block ends before the file |
| ShortReads.StallHappens | tftp/src/server/session.c:873-884 | For every seekable file of more than 512 bytes requested without options, a read of one byte is a valid run that ends doomed |
| GetCompletion.GetCompletes | tftp/src/client/client.c:468-573 | If the client accepts the answer of the server, then for every file, block size, window and ring, on a disk or a pipe, the run in which nothing is lost is valid, and after it the client has succeeded with the whole file |
| GetCompletion.GetCompletesIff | tftp/src/client/client.c:496-531 | For every window and ring, fitting or not, some run of a read request ends with success if and only if the client accepts the OACK, or did not ask for a list that only an OACK could grant |
| GetRefusal.RefusingRun | tftp/src/client/client.c:496-531 | A client that does not accept the answer outputs nothing in any run, whatever the window and the ring |
| RingNecessity.RoundsAreOwnIff | tftp/src/server/session.c:471-484 | In every run whose reads deliver the bytes of the file, every round of retransmission sends exactly the blocks of the window, each with its own number and payload, if and only if the window size divides 65536, or the file has at most 65536 blocks, or nothing is ever sent again because there is no retry or the client does not accept the answer |
| RingNecessity.FilesArriveIff | tftp/src/server/session.c:669-678 | For every length: all files of that length arrive as they are, the output being a prefix of the file in every run whose reads deliver the bytes of the file, if and only if the same condition holds |
| RingNecessity.DifferentBlocksSpoil | tftp/src/server/session.c:708-728 | Where two blocks that one window may hold share a slot and the later is not the beginning of the earlier, a run whose reads deliver the bytes of the file ends with an output that is no prefix of it: the later block is being read into the slot when a time-out sends the earlier one again |
| RingNecessity.SharedLastBlockSpoils | tftp/src/server/session.c:669-678 | Where the later of the two is the last block, this is so for every file: a time-out sends the slot as a whole block under the last number |
| ClientLoops.Reception.ReceiveFile | tftp/src/client/client.c:468-573 | For every sequence of results of `recvfrom` the loop ends in the state of the receiver function: output, acknowledgements, outcome |
| ClientLoops.Reception.ReceivePacket | tftp/src/client/client.c:1061-1090 | The inner loop repeats the last packet for each time-out until a packet, an error, or the spent budget |
| ClientLoops.Reception.HandleData | tftp/src/client/client.c:514-561 | DATA as first answer withdraws the options; the expected block is written and acknowledged, any other answered with the last packet |
| ReceiverAnswers.OutputsKept | tftp/src/client/client.c:533-561 | For every sequence of results the running client has output exactly the payloads of the DATA packets that came with the next number |
| ReceiverAnswers.DataAnswered | tftp/src/client/client.c:514-561 | A DATA packet with the number after the count of those kept is written and acknowledged, a short one ends the transfer, a failed write ends it with an ERROR for a full disk only; any other is answered with the last packet, and one in place of the OACK for a list is refused |
| ReceiverAnswers.OackAnswered | tftp/src/client/client.c:496-513 | The first answer, if it is an OACK, is acknowledged with 0 or refused with an ERROR; a later one is not answered |
| ReceiverAnswers.OthersAnswered | tftp/src/client/client.c:562-571 | A socket error or any other packet ends the transfer without an answer; a stranger's changes only the count of time-outs |
| Receiver.AttemptsBounded | tftp/src/client/client.c:1061-1090 | A running receiver has seen at most `retries` time-outs in a row, and gives up on the next if and only if it has seen exactly that many |
| Receiver.TimeoutRepeatsLastPacket | tftp/src/client/client.c:1079-1087 | Every time-out within the budget sends exactly the last packet again, the request if there was none |
| ClientLoops.Transmission.SendFile | tftp/src/client/client.c:575-760 | For every sequence of results of `recvfrom` the nested loops end in the state of the sender function, and the window is never empty when they wait or retransmit |
| ClientLoops.Transmission.FillWindow | tftp/src/client/client.c:603-640 | The sending phase terminates with the window full or the file read, each block read, numbered, stored and sent once |
| ClientLoops.Transmission.ResendWindow | tftp/src/client/client.c:698-724 | The retransmission loop terminates and sends the stored packet of every block of the window once, in order |
| SenderInvariant.RunKeeps | tftp/src/client/client.c:601-754 | After every sequence of results the window, the ring and everything sent agree with the file, and outside the sending phase something is unacknowledged until the transfer completes |
| SenderInvariant.SenderIsGoBackN | tftp/src/client/client.c:601-754 | Each turn of the receiving phase is one step of a Go-Back-N sender with unbounded numbers, with 1 to w blocks in the window, where the 16-bit test accepts exactly the numbers of the window |
| SenderInvariant.TimeoutStep | tftp/src/client/client.c:683-724 | A time-out sends every unacknowledged block once, with its own number and payload |
| SenderInvariant.RoundsBounded | tftp/src/client/client.c:683-740 | With at most 254 retries the rounds since the window last moved, counted over the run, equal the counter and are at most retries + 1, and there are at most (retries + 1) times the number of blocks in all |
| SenderInvariant.GivesUpIff | tftp/src/client/client.c:683-691 | After n time-outs in a row the sender has given up if and only if retries is at most 254 and n exceeds retries + 1 |
| SenderInvariant.OtherOutcomes | tftp/src/client/client.c:641-754 | A socket error or a packet other than an acknowledgement ends the sender without an answer; a stranger's packet and an acknowledgement outside the window change nothing |
| SenderCompletion.NeverCompletes | tftp/src/client/client.c:739 | Whatever the window and whatever is received, no run completes a file whose last block number is 65535 modulo 65536 |
| SenderCompletion.CompletesIff | tftp/src/client/client.c:601-754 | With a window of one some sequence of results completes the transfer if and only if the last block number is not 65535 modulo 65536 |
| SenderCompletion.FileOf65535Blocks | tftp/src/client/client.c:601-640 | A file of 65534 full blocks has such a number, 65535: its last block is empty |
| SenderCompletion.StuckAfterLastAck | tftp/src/client/client.c:698-739 | For such a file the run that acknowledges each block in order ends with all blocks sent once, none outstanding and the transfer running; its retransmission loop passes every number of turns, and no continuation completes |
| PutTheorems.RunInv | tftp/src/server/session.c:533-574 | In every run of a write request under loss, duplication and reordering the session has written exactly the blocks before the one it expects, and what the client knows acknowledged is written |
| PutTheorems.PutSafety | tftp/src/client/client.c:575-760 | In every such run the file written is a prefix of the client's file, and it is the whole file when `send_file` returns true |
| PutCompletion.PutCompletes | tftp/src/client/client.c:351-402 | Every write request, with any window and options, of any file of at most 65534 blocks has a run in which the client, which waits for the answer to its request, gets it, sends the file and returns true, and the whole file is written |
| WorkerPool.CreditsBalance | tftp/src/server/worker_pool.c:46-72 | Over every interleaving the free slots of each worker equal its semaphore, the credit held, the post under way and the credits lost together, so the scan finds a slot before `unreachable()`, and the slot is free |
| WorkerPool.SlotReuseSafe | tftp/src/server/worker.c:74-87 | In every run no completion submitted by an earlier session of a slot is outstanding, and an inactive slot has nothing outstanding and no start event queued |
| WorkerPool.RoundEnds | tftp/src/server/worker_pool.c:64-72 | A round leaves its slot active with the start event queued, or free without it if that could not be submitted; no semaphore and no other slot changes |
| WorkerPool.SlotFreedIff | tftp/src/server/worker.c:74-87 | A worker frees a slot, and goes on to post its credit, if and only if the session reports CLOSED |
| WorkerStarvation.StarvesIff | tftp/src/server/worker_pool.c:46-72 | In every run in which the accept thread waits for a worker: all its slots are free and no continuation takes a credit, if and only if as many of its credits were lost, by abandoned rounds or failed starts, as it has slots |
| WorkerStarvation.AbandonedRoundsStarve | tftp/src/server/server.c:77-153 | For any number of workers and credits, abandoned rounds that choose the least busy worker each time are a valid run; after as many as there are credits all slots are free and every choice starves the thread |
| WorkerPool.AbandonKeeps | tftp/src/server/server.c:77-153 | An abandoned round changes nothing in the worker, in particular it returns no credit, and keeps the invariant |
| WorkerPool.LeastBusyWorker | tftp/src/server/worker_pool.c:75-92 | The worker chosen is the first among those with the most credits |
| WorkerPool.SharedWorker.GetJob | tftp/src/server/worker_pool.c:46-62 | One credit is taken and the scan ends at the first free slot |
| WorkerPool.SharedWorker.StartJob | tftp/src/server/worker_pool.c:64-72 | The slot is active afterwards if and only if the start event was submitted, and no other slot changes |
| WorkerPool.SharedWorker.Release | tftp/src/server/worker.c:82-87 | A terminated session frees its slot and then posts one credit |
| CStrings.PrintRoundTrip | tftp/src/client/client.c:253-263 | Every number of 64 bits printed in decimal is read back whole by `strtoul`, with nothing to strip |
| CStrings.StripKeepsValue | tftp/src/tftp.c:337-339 | Dropping blanks and plus signs in front of a number that is read whole does not change its value |
| CStrings.NumbersRead | tftp/src/tftp.c:337-380 | `strtoul` reads any of the six blanks, a sign and decimal digits up to the first other character: a minus negates modulo 2^64, and a number of more than 64 bits saturates and is reported |
| CStrings.NoNumberRead | tftp/src/tftp.c:337-380 | A text that starts otherwise is read as 0 and left whole |
| CStrings.StrippedAway | tftp/src/tftp.c:337-339 | Exactly the blanks and plus signs in front of a value are stripped |
| CStrings.EqualNoCaseIff | tftp/src/tftp.c:326 | Two strings compare equal exactly if each character is that of the word or its capital, 32 codes below |
| OptionText.ParseOptions | tftp/src/tftp.c:320-406 | On any text the pointer walk terminates and records, for each option, the place of its last valid value or a buffer of its own |
| OptionText.LocateReads | tftp/src/tftp.c:320-406 | What is read at the recorded places is the fold over the name/value pairs of the text |
| Options.ParsingSound | tftp/src/tftp.c:320-406 | An inactive option ends active if and only if some pair spells its name, each letter small or capital, and has a valid value; its value is that of the last such pair, and everything else changes nothing |
| Options.ValidNumberIff | tftp/src/tftp.c:337-380 | Of the printed numbers, of any size, the block size accepts exactly 8 to 65464, the time-out 1 to 255, the window 1 to 65535 and the size those of 64 bits |
| Options.StoredIsStripped | tftp/src/tftp.c:337-339 | The value recorded for a number is the number without the blanks and plus signs in front of it |
| Options.ValidTypeIff | tftp/src/tftp.c:385-392 | The type is valid exactly if it spells "directory" in any mixture of cases |
| OptionText.LocateTwice | tftp/src/server/session_options.c:117-123 | Parsing the same text again records the same places |
| OptionText.TokenAfterPrint | tftp/src/server/session_options.c:100 | After a size is printed at some place of the text, a string that starts within the print is the rest of it, and any other is what it was |
| Options.DecodeEncode | tftp/src/tftp.c:115-126 | The walk over a printed list of pairs, at any offset, meets exactly those pairs |
| Requests.InitRequest | tftp/src/tftp.c:105-153 | A request is printed whole if it fits 510 bytes and refused otherwise; the result is its size with the opcode, at most 512 |
| Requests.InitOack | tftp/src/server/session.c:825-851 | The OACK holds exactly the active options, in order, in a packet of exactly their length |
| Requests.CheckTokens | tftp/src/server/session.c:690-705 | The loop accepts a request exactly when its number of terminated strings, not counting an empty one at the very end, is even and at least two |
| Requests.SplitFits | tftp/src/server/session_options.c:28-32 | The token check guarantees that name and mode lie within the datagram, so the size of the options does not underflow |
| Requests.ValidModeIff | tftp/src/server/session_options.c:44-55 | The mode is valid exactly if it spells "octet" or "netascii" in any mixture of cases |
| Requests.PrintedRequest | tftp/src/server/session.c:680-706 | A printed request passes the check if and only if its last value is not empty, and then splits into the name, mode and options it was made of |
| Requests.RequestRoundTrip | tftp/src/tftp.c:105-153 | Every NUL-free name, valid mode and list of options is recovered from the printed request: valid values as they are stored, invalid ones dropped, size "0" as an active placeholder |
| OptionRecords.SessionOptions.IsListing | tftp/src/server/session_options.c:117-123 | A listing is asked for if and only if the pairs of the text hold a valid type; of the options only the recorded places change |
| OptionRecords.SessionOptions.Parse | tftp/src/server/session_options.c:57-115 | The loops of `parse_options` leave text, recognised places, block size, window, time-out and flags as the negotiation function says, the size printed into the text included |
| OptionRecords.ClientRecord.constructor | tftp/src/client/client.c:230-284 | The options a request starts with, for every set of options given and for none |
| OptionRecords.ClientRecord.HandleOackPacket | tftp/src/client/client.c:762-849 | The OACK is refused exactly when it holds an option that was not requested; otherwise each field takes its acknowledged value or keeps the requested one |
| ServerLoop.AnyRequestWithinRange | tftp/src/server/session_options.c:57-115 | Whatever the option text of a request, from any client, block size and time-out of the server are within the ranges of their RFCs, and the window is the one requested, within its range, unless the size was printed over it, and then made of the last digits of the size |
| ServerLoop.WindowInRangeIff | tftp/src/server/session_options.c:94-103 | For every text and file size the window is at least 1 if and only if the size is not printed over it or its digits there do not make a multiple of 65536 |
| ServerLoop.ThirteenDigitsLoseTheWindow | tftp/src/server/session_options.c:94-103 | With a size of 5 and a window of 4 in the request and a file size of 13 digits the server continues with a window of 0 |
| ServerLoop.ThirteenDigitsExist | tftp/src/server/session_options.c:100 | There are such sizes: 10^12 is printed with 13 digits |
| ServerLoop.OackReportsIff | tftp/src/server/session.c:825-851 | For every text and file size the OACK reports the block size, window and time-out in use if and only if the size is printed over none of these values, or leaves the same number there; for the window, which is read afterwards, a number below 65536 |
| ServerLoop.OackReportsParameters | tftp/src/server/session.c:825-851 | In particular if the printed size is no longer than the value it replaces; the size reported is then the one of the file |
| Agreement.ServerDecides | tftp/src/server/session_options.c:57-115 | For every set of options of this client: what the server acknowledges and the values it continues with |
| Agreement.NegotiationAgrees | tftp/src/client/client.c:762-849 | The server acknowledges only requested options; the client accepts the OACK and both ends continue with the same block size, window and acknowledged time-out; if nothing was recognised the server uses the defaults of RFC 1350 |
| AskedAndAnswered.BlockSizeAsGiven | tftp/src/client/client.c:230-284 | A given n is in the request and in the OACK as blksize, and is the block size at both ends, if and only if 8 <= n <= 65464; otherwise it is 512 without the pair |
| AskedAndAnswered.WindowAsGiven | tftp/src/client/client.c:230-284 | Likewise the window of a read request for 1 to 65535; otherwise, and for write requests, it is 1 |
| AskedAndAnswered.TimeoutAsGiven | tftp/src/client/client.c:230-284 | Likewise the time-out for 1 to 255 seconds, 2 at the client and its own at the server otherwise; a read request may ask for "adaptive", which is granted if it is enabled |
| AskedAndAnswered.SizeAndTypeAsGiven | tftp/src/client/client.c:230-284 | The size is asked for as "0" and told in decimal if it can be; a listing is asked for and granted as "directory" if it is enabled |
| AskedAndAnswered.OptionsAsGiven | tftp/src/client/client.c:277-283 | A request has options, and is answered with an OACK, exactly if one of these is asked for, and recognised |
| AskedAndAnswered.RequestSpelled | tftp/src/tftp.c:105-153 | The text of the request letter by letter: name, mode and the options asked for in their order, each with its terminator |
| Negotiation.AdaptiveIff | tftp/src/server/session_options.c:67 | An adaptive time-out is recognised in any mixture of cases |
| OackHandling.RefusedIff | tftp/src/client/client.c:762-830 | Whatever the text, an OACK is refused if and only if it gives some option that was not asked for a valid value |
| OackHandling.AcceptedAs | tftp/src/client/client.c:762-849 | Otherwise block size, window, time-out and size are the numbers given last for them, or stay; adaptive time-outs and a listing that are not granted are withdrawn |
| EndToEnd.GetAgrees | tftp/src/client/client.c:516-531 | For every set of options and for none the printed request passes the server's check and the resulting read transfer is consistently configured, if its ring fits |
| EndToEnd.GetDelivers | tftp/src/client/client.c:286-327 | From the user's options to the client's disk: every run outputs a prefix of the file, the file on success, and success survives the final size check exactly under the stated condition |
| EndToEnd.SizeAcceptedIff | tftp/src/client/client.c:314-317 | Any number of bytes received passes the final check if and only if the size was not asked for, or is the number told, or is 0 where none was told |
| EndToEnd.GetConfigured | tftp/src/client/client.c:286-317 | The transfer runs with the numbers given, where they may be asked for, with each end's own retries, and with a client that accepts the answer unless it asked for a listing the server does not grant |
| EndToEnd.PutAgrees | tftp/src/client/client.c:375-421 | For every set of options a write request is configured with the same block size at both ends and a window of one |
| EndToEnd.AnswerWithdraws | tftp/src/client/client.c:381-393 | Acknowledgement 0 withdraws options that were asked for: blocks of 512 bytes, two seconds, no size, the same window |
| EndToEnd.PutDelivers | tftp/src/client/client.c:329-426 | From the user's options to the server's disk: every run writes a prefix of the file, and the whole file when the client succeeds |
| EndToEnd.NullOptionsCannotPut | tftp/src/client/client.c:230-235 | Null options leave a write request with blocks of zero bytes and a window of zero against 512 at the server |
| AdaptiveTimeout.Record.StopTimer | tftp/src/adaptive_timeout.c:26-48 | A measurement updates the record as the estimator says and extends its history: SRTT moves an eighth, and RTTVAR a quarter, of the way to the round trip and its distance |
| AdaptiveTimeout.Record.CancelTimer | tftp/src/adaptive_timeout.h:22-24 | A cancelled measurement stops the timer and changes nothing else |
| AdaptiveTimeout.Record.BackOffTimer | tftp/src/adaptive_timeout.c:50-53 | A back-off updates the timeout as the estimator says and extends the history |
| AdaptiveTimeout.EstimatorBounded | tftp/src/adaptive_timeout.c:14-53 | Over every interleaving of round trips in [lo, hi] and back-offs SRTT stays in [lo, hi], RTTVAR in [0, max(hi/2, hi-lo)] and RTO between 10 microseconds and 60 seconds |
| AdaptiveTimeout.StepResponse | tftp/src/adaptive_timeout.c:33-44 | From any estimates, after n measurements of the same r, with d the distance at first: SRTT - r is (7/8)^n times what it was, and RTTVAR is (3/4)^n (v - 2d) + 2d (7/8)^n |
| AdaptiveTimeout.MeasuredTimeout | tftp/src/adaptive_timeout.c:45-47 | After a measurement the timeout is the whole number of nanoseconds in SRTT + max(10 microseconds, 4 RTTVAR), or a minute |
| AdaptiveTimeout.BackoffsFromStart | tftp/src/adaptive_timeout.c:14-19 | Without a measurement k back-offs make the timeout 2^k/256 seconds, and one second from the eighth on |
| AdaptiveTimeout.BackoffsExact | tftp/src/adaptive_timeout.c:50-53 | k back-offs in a row from n nanoseconds give exactly min(10^9, 2^k n) nanoseconds |
| AdaptiveTimeout.BackoffDoublesIff | tftp/src/adaptive_timeout.c:50-53 | A back-off doubles exactly up to half a second and raises the timeout exactly below one second |
| AdaptiveTimeout.BackoffLowersThreeSeconds | tftp/src/adaptive_timeout.c:45-53 | After one round trip of one second the timeout is three seconds, and the back-off makes it one |
| AdaptiveTimeout.ConstantFromStart | tftp/src/adaptive_timeout.c:33-44 | With a constant round trip r from the first measurement on, SRTT is r and RTTVAR is (3/4)^n r/2 |
| AdaptiveTimeout.RtoSettles | tftp/src/adaptive_timeout.c:33-46 | Then from some measurement on the timeout before truncation is min(60, r + granularity) |
| AdaptiveTimeout.RtoConverges | tftp/src/adaptive_timeout.c:33-46 | From every state with a measurement and for every tolerance, a constant round trip brings the timeout within the tolerance of that limit for good |
| AdaptiveTimeout.ToTimespecTruncates | tftp/src/utils/time.h:18-41 | The conversion truncates to whole nanoseconds and is normalised |

## Left out

- Netascii translation and its file size: the documentation calls support partial, and the expansion depends on block boundaries; only octet mode is modelled.
- Sockets, addresses, io_uring, directory listings and opening of files: their outcomes are nondeterministic steps or parameters; a packet from a stranger leaves the transfer as it is.
- Failures in which the server process ends or a session never starts: failed submissions, failed sends, exhausted memory, unknown modes and files that cannot be opened.
- Several sessions created by a retransmitted request: one session is modelled. A retransmitted request reaches the listener, which is not part of the transfer.
- Liveness of whole transfers: there is no dallying, so a lost last acknowledgement may fail one end. Safety, bounded retransmission and the existence of runs that complete are proved.
- The `bytes_sent` statistics: a stale acknowledgement on an empty window adds 65536 blocks, so nothing is conserved.
- Karn's rule in the client's sender, which does not test whether its timer was cancelled, and the real-time choice of its time-outs: a time-out may occur at any wait.
- The path on which `handle_put_request` leaves its `switch` after a refused OACK, or an ACK other than 0, and sends the file all the same: the OACK of this server is never refused, by `Agreement.NegotiationAgrees`.
- A local read error in `send_file` and the size option of write requests, which the code marks as to be done.
- The contents of the OACK in the transfer modules: it is one packet there; `EndToEnd` connects its text with the configuration of the transfer.
- SessionOptions.Parse: assumes that a size printed into the text ends within the server's buffer; beyond it the behaviour of the source is undefined.
- Requests longer than 512 bytes and unterminated text in a full datagram: a text that ends early is followed by zeros, as in the server's copy.
- `dispatcher.pending_requests` and the shutdown of workers that depends on it.
- Rounding of `double`: times are real numbers; the conversion to nanoseconds truncates as in the code.
- Session objects keep whether a round trip is being measured and for which block; the estimate itself is kept by `AdaptiveTimeout.Record`.
- Logging, command line, examples, packet-loss wrappers, statistics callbacks and tables of error packets.
- SessionObject.TftpSession.Start: a request whose file cannot be opened goes on like one without options whose read fails, which the model covers; one with an unknown mode reads as netascii, which it does not.
- SessionObject.TftpSession.Handle: the packets of a round that does not end are not part of the state; the method reports that there is no answer instead of going round.
- RoundsBounded: counts the rounds of runs that end before a time-out whose handler does not return; `SessionHangs.TimeoutReturnsIff` says exactly which these are.
- DifferentBlocksSpoil: for a single file and a ring that is too small the two conditions under which it is spoiled are proved to suffice, not to be the only ones; `FilesArriveIff` is exact for each length.
- NeverCompletes: the model sends nothing on a time-out with an empty window, where the loop of the source would not end; `StuckAfterLastAck` shows that state.
- EmptyWindowAcceptsAnything: shows what the session would do with a reordered acknowledgement; safety of read requests on channels that reorder is not claimed.
- SlotReuseSafe: assumes at most 255 outstanding operations per session, because the counter of the code is eight bits wide.
- PutSafety: assumes at most 65534 blocks, because the client compares block numbers with an untruncated integer.
