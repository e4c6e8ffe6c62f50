# HiSLIP server: a verified model

This project models the server half of a HiSLIP (IVI-6.1) implementation for instruments: a session with a
synchronous and an asynchronous channel, Synchronized Mode with its MessageIDs and RMT-delivered bookkeeping, device
clear, status and service requests, locks, and the framing and read-ahead beneath them.

- `Engine.dfy` says what every handler does to a session, as functions on values; `Handlers.dfy` and `SyncMode.dfy` are
  the same handlers as objects updated in place, each proved to compute its function.
- `Responses.dfy` gives a response in closed form for every script of device reads.
- `Runs.dfy`, `RunProperties.dfy`, `Channels.dfy`, `Gate.dfy`, `Attribution.dfy` and `Identifiers.dfy` prove what
  holds over whole runs of events; `Answers.dfy` is the table of replies, code by code.
- `InFlight.dfy` breaks the handling of a message into its steps, interleaves status queries, clears and service
  requests with them, and shows that every handler is made of such steps.
- `TwoParty.dfy` adds a client that keeps the rules and the messages under way in both directions;
  `ClearResidue.dfy` and `LateReport.dfy` settle the two ways in which that pair can still go wrong.
- `ScpiPolicy.dfy` and `ScpiTokens.dfy` are the streaming query classifier and its declarative meaning.
- `Locks.dfy`, `SessionTable.dfy`, `MessageIds.dfy`, `Transactions.dfy`, `Messages.dfy`, `Framing.dfy`, `ReadAhead.dfy`
  are the parts the rest stands on.

The device is an arbitrary script: each read yields bytes, an end flag and an error flag, and every other call may fail.
A read that finds the script used up fails. Streams are byte sequences.

## Findings

Where the code and what is written about it differ, the model follows the code.

- Completing a device clear does not reset the response policy (`server/session.go:311-321`), though the text says the
  protocol state starts over. Program text abandoned by a clear therefore still counts for the next message. A client
  that keeps every rule can then be met with an RMT mismatch. `ClearResidue.MismatchIsReachable` gives such a run, and
  `ClearResidue.ClearDecides` the exact condition for every run.
- A response's DataEnd is written before the server raises its RMT expectation (`server/data.go:300-305`). A client that
  reports the response with a status query can have that report served in between, where it is lost, and its next
  message is then a mismatch. `LateReport.OrderDecides` says that this order decides, and `LateReport.RaceIsReachable`
  that the state is reached.
- A device write or trigger that fails leaves the transaction with a complete input (`server/data.go:129-141`,
  `server/data.go:278-283`). Every DataEnd and Trigger after it is refused before it reaches the device, until a Data
  message, a clear request or a clear completion (`RunProperties.BlockedExactly`, `RunProperties.RefusalPersists`,
  `RunProperties.ReleaseLetsThrough`).
- The Interrupted transaction carries the MessageID of the query it interrupts, not of the interrupting message as its
  comment says (`server/data.go:336-372`).
- A maximum message size that is too short or too small leaves the current limit alone; it does not restore the
  server's own maximum as the comments say (`server/serve.go:505-517`, `server/initialize.go:154-161`).
  `Gate.LimitTracksRequests` states what it does.

## Model

| member | source | states |
|---|---|---|
| `TwoParty.NeverInterrupted` | server/rmt.go:110-117 | in every run of the server with a client that keeps the rules, every completed clear clean and every report served after the expectation it answers: no RMT mismatch is declared, no Interrupted transaction is sent, the session stays open and no transaction is left unfinished |
| `TwoParty.CountersAgree` | protocol/messageid.go:83-94 | in the same runs, outside a clear, the client's last MessageID is the server's last received one advanced by 2k modulo 2^32, k being the synchronous messages under way |
| `TwoParty.ResponsesMatchQueries` | server/data.go:289-308 | a waiting client whose query has been handled has the end of its response coming, and every DataEnd it takes carries the MessageID of its own last message |
| `TwoParty.RunInv` | server/session.go:311-321 | the invariant behind these: numbering, program text, at most one response outstanding, RMT expected exactly while a terminator or its report is somewhere between the two ends, through the stages of a device clear |
| `TwoParty.StepInv` | server/serve.go:183-258 | every client, network and server step keeps that invariant |
| `TwoParty.SameQuestion` | server/session.go:163-185 | the server's streaming classifier answers exactly the client's own question about its program text |
| `ClearResidue.ClearDecides` | server/session.go:311-321 | in every legal run that was orderly so far, when the server is about to complete a clear: the client is free of RMT mismatches in every continuation if and only if the abandoned text, put in front of a message, never changes whether that message holds a query |
| `ClearResidue.ResidueDecides` | server/session.go:311-321 | the same from every state the invariant allows, in terms of the classifier: it is as new |
| `ClearResidue.ClientStartsOver` | server/clear.go:70-107 | whatever is left in the classifier, the client comes from the completed clear to the acknowledgement and a new start |
| `ClearResidue.MismatchIsReachable` | server/session.go:311-321 | a concrete legal run (open a string, clear) reaches a clear after which a mismatch can be declared |
| `LateReport.OrderDecides` | server/data.go:300-305 | with a report under way while the server stands between a DataEnd and its RMT expectation: expectation first, and no continuation brings a mismatch; report first, and one does |
| `LateReport.RaceIsReachable` | server/data.go:300-305 | a legal run reaches that state |
| `ScpiTokens.ResidueIsHarmless` | server/policy.go:156-236 | a left-over classifier state treats every later message as a new one would exactly when no query had been found and the text stood outside strings, block headers and block data |
| `ScpiTokens.LureTells` | server/policy.go:156-236 | for every harmful left-over state, a text in which it finds a query and a new classifier does not |
| `Runs.RunInv` | server/transaction.go:85-135 | in every run: between handlers no response is pending, the session is clearing exactly when its transaction is, the transmit limit stays at least 16, the classifier stays well formed |
| `Runs.StepCases` | server/serve.go:183-410 | every step of a run, in closed form: program message, trigger, clear request, clear completion, status query, service request, or a bystander that touches none of the synchronized state |
| `Runs.HandleDataResult` | server/serve.go:262-300 | a Data or DataEnd on a ready session ends in one of five ways and is never passed on as an error |
| `Runs.ScratchIsValid` | server/serve.go:482-487 | the response buffer slice is non-empty, within both limits, and always passes validation on an attached session |
| `RunProperties.BlockedExactly` | server/data.go:129-141 | in every run the transaction holds a complete input between handlers if and only if the device failed a DataEnd or Trigger and no Data message, clear request or clear completion has come since |
| `RunProperties.InvalidTransitionHistory` | server/transaction.go:119-135 | after any run, an invalid transition is met if and only if a clear is requested during a clear, or a DataEnd or Trigger follows one the device failed with nothing in between to release it |
| `RunProperties.RefusalPersists` | server/data.go:129-141 | a message refused for that reason reaches no device, gets one error, and leaves the next one refused too |
| `RunProperties.ReleaseLetsThrough` | server/data.go:129-141 | after a Data message, a clear request or a clear completion the next DataEnd or Trigger reaches the device again |
| `RunProperties.ReliableRun` | server/data.go:114-143 | with a device that accepts writes and triggers, the transaction is idle, receiving or clearing between handlers, every DataEnd or Trigger outside a clear returns it to idle, and only a second clear request is an invalid transition |
| `RunProperties.NothingHappensWhileClearing` | server/clear.go:117-122 | during a clear no synchronous message other than DeviceClearComplete reaches the device or changes the session |
| `RunProperties.DeviceClearHandshake` | server/clear.go:32-107 | whatever happens on either channel between request and completion while the session lasts: RMT, status, MessageID and transaction state end as at session start; the device saw one clear, last, and before it only serial polls and remote/local changes; nothing of a response was written; the classifier is as before |
| `RunProperties.DeviceTrace` | server/data.go:126-142 | in every run the device's writes and triggers are exactly the accepted messages that were not refused, in arrival order, with end set only for DataEnd |
| `RunProperties.ClassifierTracksText` | server/session.go:163-185 | in every run the classifier stands where one scan of all program text since the last completed message would stand; a clear does not empty that text |
| `RunProperties.ResponseExactlyForQueries` | server/serve.go:270-294 | the device is read exactly at a delivered DataEnd whose whole program message, whatever its length and chunking, holds a question mark in plain text |
| `RunProperties.BetweenServiceRequests` | server/async.go:81-95 | between two AsyncServiceRequests lies an answered status query or a completed clear |
| `RunProperties.ServiceRequestIsReported` | server/async.go:46-64 | a service request not wiped by a clear is reported as RQS in the next answered status query, however many polls failed before it |
| `RunProperties.ResponseFitsLimit` | server/data.go:80-94 | no Data or DataEnd of a response exceeds the session's transmit limit or the server's |
| `RunProperties.EveryResponseFits` | server/initialize.go:139-152 | the same after any run, in particular any sequence of maximum message size requests |
| `Channels.RunBalanced` | server/data.go:347-372 | in every run both logs hold only messages legal on their channel, every Interrupted is matched in order by one AsyncInterrupted with the same MessageID, and the counter says how many |
| `InFlight.StatusResponseBits` | server/status.go:157-186 | with status queries, clears and service requests interleaved anywhere in the handling of a message: MAV exactly when SendResponse is at work on the message with the query's own MessageID, uncut, and RMT-delivered is clear; RQS the device's or a latched request; every other bit the device's |
| `InFlight.RunInv` | server/serve.go:262-300 | in every such interleaving the response under way is to the message being served, that is the message last recorded, and the pending flag is up exactly while it is uncut |
| `InFlight.SyncHandlerIsPath` | server/serve.go:183-258 | every synchronous message's handler, taken alone, is a path of these steps |
| `InFlight.ResponseIsPath` | server/data.go:159-249 | a response attempt, taken alone, is the flag going up, the rounds of the loop, and the flag going down |
| `InFlight.AsyncHandlerIsStep` | server/serve.go:332-410 | every asynchronous message's handler is one of these steps, at whatever point it comes |
| `Gate.UsableConfigurations` | server/config.go:87-125 | exactly which configurations are accepted once defaults are filled in, what the defaults are, and the start values of every session of such a server |
| `Gate.AcceptedExactly` | server/dispatch.go:160-201 | by message number, version, length and session state alone: exactly which client messages pass the gate on each channel, and for every other the one reason it is refused for |
| `Gate.SessionEndsExactly` | server/serve.go:183-258 | a synchronous message ends the session if and only if it cannot be framed or, not being discarded by a clear, needs a newer version, is an operation before pairing, is the client's FatalError or is a second Initialize; no device failure and no other refusal ever ends it |
| `Answers.SyncReplyTable` | server/serve.go:183-300 | for every synchronous message in every state, exactly the messages written in reply, by literal code |
| `Answers.AsyncReplyTable` | server/serve.go:332-410 | for every asynchronous message in every state, exactly the reply, by literal code, and exactly the calls made to the device |
| `Answers.RefusalIsTold` | server/errors.go:99-115 | the error or fatal error, by literal code, that each refusal is answered with |
| `Answers.StepCounts` | server/serve.go:541-559 | how every event moves the counters of mismatches, interruptions, unanswered and truncated responses |
| `Identifiers.StepIdentifiers` | server/data.go:126-143 | for every event in every state: the message last received, the message the transaction belongs to, and the DataEnd last sent, by what the event was |
| `Identifiers.LastSent` | server/session.go:244-257 | between two completed clears, whatever the events, the session remembers the MessageID of the last DataEnd it sent |
| `Attribution.EveryAnswerWasAsked` | server/data.go:289-372 | in every run every Data, DataEnd and Interrupted written carries the MessageID of a DataEnd received |
| `Attribution.StepAdds` | server/data.go:159-249 | a step's new Data, DataEnd and Interrupted carry the MessageID of the DataEnd that step handles, and no other step adds any |
| `Gate.StepLimit` | server/initialize.go:139-152 | only an accepted size request changes the transmit limit, to the client's own value unless below 256; the reply is the receive limit |
| `Gate.LimitTracksRequests` | server/initialize.go:139-152 | in every run the transmit limit is the last acceptable request, or the configured one before any |
| `Gate.StepLocks` | server/async.go:148-178 | each event moves the locks by the operations it stands for, and the reply to a lock message is that operation's result |
| `Gate.LocksFollowMessages` | server/server.go:129-142 | in every run the locks are what lock messages, session ends and other sessions' operations make of them, so the lock invariant holds throughout |
| `Responses.ResponseIsWellFormed` | server/data.go:159-249 | for every device script a response from a complete input meets no invalid transition, ends idle, writes the packets and the one ending its outcome calls for, sets RMT-expected exactly when it writes a DataEnd, and changes nothing else |
| `Responses.StreamAnswers` | server/data.go:175-248 | the loop in closed form from any round, by induction on the script |
| `Responses.PayloadsAreWhatTheDeviceProduced` | server/data.go:178-203 | packets plus final chunk are exactly the bytes the device produced; packets are non-empty and fit the buffer; a failed read leaves nothing behind |
| `Responses.ClientGetsWhatTheDeviceProduced` | server/data.go:175-248 | the payload bytes of a response are the bytes the device produced, less the last chunk if it was interrupted |
| `Responses.EndsAsTheDeviceDid` | server/data.go:204-247 | the end of a response by what the device did and whether input was queued, with the literal error code |
| `Responses.ProducedIsScript` | server/device.go:33-36 | what is read of a device is its script up to the first end or error |
| `Responses.TranscriptCarriesQueryId` | server/data.go:289-372 | every Data, DataEnd and Interrupted of a response carries the query's MessageID, and the last message is its only DataEnd or Interrupted |
| `Handlers.Connection.RunSync` | server/serve.go:151-180 | the channel loop from the first byte to the last: the session becomes the run over the messages of the stream; a peer reads from the channel exactly what that run wrote; and every Data, DataEnd or Interrupted the peer reads has the parameter of a DataEnd in the input stream |
| `Handlers.Device.Read` | server/device.go:33-36 | a read fills the buffer's first bytes and never more than its size |
| `Handlers.Connection.StreamResponse` | server/data.go:175-248 | the loop over device reads through one scratch buffer refines the recursive form |
| `Handlers.Connection.SendResponse` | server/data.go:159-249 | the whole session after a response attempt, its outcome and its error |
| `Handlers.Connection.HandleSync` | server/serve.go:183-258 | the whole session after any synchronous message, and whether the channel ends |
| `Handlers.Connection.HandleAsync` | server/serve.go:332-410 | the whole session after any asynchronous message |
| `Handlers.Connection.LockInfo` | server/async.go:188-209 | the exclusive flag and the number of holders |
| `Handlers.HoldersCount` | server/locks.go:349-361 | the holder of both locks is counted once |
| `SyncMode.RMT.ReceivedSyncMessage` | server/rmt.go:110-117 | mismatch exactly when flag and expectation differ; the expectation is gone either way |
| `SyncMode.RMT.ReceivedStatusQuery` | server/rmt.go:130-134 | only a set flag lowers the expectation |
| `SyncMode.Status.ReceivedSyncMessage` | server/status.go:75-80 | records the MessageID, resetting an unused zero value first |
| `SyncMode.Status.LatchServiceRequest` | server/status.go:110-117 | one request at a time; a refused one changes nothing |
| `SyncMode.Status.TakeServiceRequest` | server/status.go:139-144 | reports and clears the latch |
| `SyncMode.Status.MAV` | server/status.go:157-165 | the three conditions of MAV |
| `SyncMode.Status.Byte` | server/status.go:177-186 | only bit 4 is decided here |
| `Transactions.AllowedExactly` | server/transaction.go:85-135 | the transitions there are, one by one |
| `Transactions.Transaction.To` | server/transaction.go:119-135 | moves exactly along the declared edges, or reports an error and stays |
| `Transactions.Transaction.DoCompleteInput` | server/transaction.go:150-156 | the MessageID is taken over only on success |
| `Transactions.Transaction.DoComplete` | server/transaction.go:169-175 | back to idle with no MessageID, only on success |
| `Messages.MessageWriter.Write` | server/writer.go:51-60 | a message is refused exactly when illegal on the channel, and the bytes on the stream are the wire form of everything accepted |
| `Messages.EncodedExactly` | server/writer.go:51-86 | the type byte, control code, parameter and payload of every message the server sends, by literal value |
| `Messages.PeerReads` | protocol/codec.go:78-96 | what a peer reads from a channel that carries a log is that log, message by message |
| `Messages.StatusBits` | server/status.go:11-16 | MAV is bit 4 and RQS is bit 6 of the status byte, and the other bits lie where the device put them |
| `Messages.RegisterRoundTrip` | server/status.go:11-16 | the status register with named bits is the status byte |
| `ScpiTokens.QueryDetection` | server/policy.go:156-236 | every message has a tokenisation (strings with doubled quotes, definite-length blocks, malformed headers as text) and the scanner says query exactly when every tokenisation has a question mark in plain text |
| `ScpiTokens.QuotesHide` | server/policy.go:163-192 | for both quotes, nothing inside a quoted string is a query and a question mark after it is |
| `ScpiTokens.Classify` | server/policy.go:143-236 | the policy object answers by that definition for every message in every chunking |
| `ScpiTokens.Tokenise` | server/policy.go:156-236 | every byte string has a tokenisation |
| `ScpiTokens.ScanTokens` | server/policy.go:156-236 | scanning token by token agrees with scanning the bytes |
| `ScpiTokens.DoubledQuoteStateIsRedundant` | server/policy.go:175-192 | dropping the doubled-quote state never changes the answer |
| `ScpiPolicy.ChunkingIsIrrelevant` | server/policy.go:156-236 | any chunking leaves exactly the full state that the whole message leaves |
| `ScpiPolicy.ScanWellFormed` | server/policy.go:194-234 | a declared length stays below 10^9, block data always has bytes remaining, and the quote is a quote |
| `ScpiPolicy.ScanBlock` | server/policy.go:226-233 | the bulk skip of block data equals skipping byte by byte |
| `ScpiPolicy.SCPIQueryPolicy.Feed` | server/policy.go:156-236 | the loop with its non-consuming transitions and bulk skip ends, and computes the byte-by-byte scan |
| `Locks.RunInv` | server/locks.go:176-342 | every reachable lock state: the key is set exactly when the shared lock is held, and an exclusive holder beside shared holders is one of them |
| `Locks.RefinesTable22` | server/locks.go:165-313 | in every reachable state, with any number of sessions, every request and release answers and moves as Table 22 says |
| `Locks.AnswersExactly` | server/locks.go:165-342 | what each answer means for the whole table: who holds which lock, under which key |
| `Locks.ToldIsHeld` | server/locks.go:165-342 | in every run a session holds exactly the locks it was told it was granted and not told it released, and every shared holder was granted the lock under the key in force |
| `Locks.AnswersExclude` | server/locks.go:165-342 | by the answers alone: never two exclusive holders, never two lock strings among shared holders, an exclusive holder beside shared ones is one of them |
| `Locks.ErrorIsStable` | server/locks.go:176-230 | a request answered LockError is still answered so after anything other sessions do |
| `Locks.FailureIsTemporary` | server/locks.go:240-249 | a failed request changes nothing, and every other session holding nothing is enough for it to be granted |
| `Locks.FailureEndsWhenOthersRelease` | server/locks.go:322-342 | once every other holder has done ReleaseAll, in any order, a failed request is granted |
| `Locks.ErrorMeansWaitingCannotHelp` | server/locks.go:176-230 | a request is answered LockError if and only if nothing other sessions do can lead to its being granted |
| `Locks.ReleaseAllIsRepeatedRelease` | server/locks.go:322-342 | ReleaseAll leaves what Release repeated until refused leaves, in at most two releases |
| `Locks.OthersKeepTheirLocks` | server/locks.go:292-342 | what one session does never takes a lock from another |
| `Locks.LockManager.State` | server/locks.go:125-136 | the state of the table |
| `Locks.LockManager.TryRequest` | server/locks.go:165-173 | one attempt, and when waiters are woken |
| `Locks.LockManager.TryExclusiveLocked` | server/locks.go:176-196 | the exclusive request's branches |
| `Locks.LockManager.TrySharedLocked` | server/locks.go:199-230 | the shared request's branches; granted means the session is among the holders, under the key it asked for |
| `Locks.LockManager.Release` | server/locks.go:292-313 | the exclusive lock first, then the shared one |
| `Locks.LockManager.ReleaseAll` | server/locks.go:322-342 | both locks at once |
| `Locks.LockManager.Info` | server/locks.go:349-361 | the holders, each counted once: the shared holders if any, else the exclusive one |
| `Locks.LockManager.Held` | server/locks.go:364-368 | whether a session holds any lock |
| `ReadAhead.RunInv` | server/reader.go:69-108 | in every interleaving each of the two buffers is in exactly one place, messages are in stream order and every message in flight still carries what was read for it |
| `ReadAhead.HandledMessageIsIntact` | server/reader.go:148-175 | the message being handled is the next of the stream and intact in its buffer, the reader is at most one message ahead, and a pending message is a later one really received |
| `ReadAhead.PendingExactly` | server/reader.go:173-175 | in every interleaving, until both sides have stopped, input is reported as queued exactly when a message has been read that is neither handed over nor still in the reader's hand |
| `ReadAhead.HandedOverInOrder` | server/reader.go:162-165 | in every interleaving the messages handed over so far, as found in the buffers, are exactly the first ones of the stream |
| `ReadAhead.DeliveredInOrder` | server/reader.go:148-165 | each step hands over the next message or none, takes back every released buffer, and ends the channel only after the last message |
| `ReadAhead.NothingIsLost` | server/serve.go:166-179 | a loop that runs to the end of the channel was handed every message the peer wrote, in order and intact, over-limit ones as header and error, and then the end of the stream |
| `ReadAhead.NoDeadlock` | server/reader.go:87-108 | unless the consumer has stopped, some step is possible |
| `Framing.FramingRoundTrip` | server/reader.go:117-144 | any list of messages written back to back is read back as that list, an over-limit one as its header and an error, and what follows is found again |
| `Framing.AcceptedIsWire` | server/reader.go:117-144 | an accepted message accounts for every byte consumed |
| `Framing.ReadMessage` | server/reader.go:117-144 | reading one message through a fixed buffer, with every error case |
| `Framing.ReadPayload` | protocol/codec.go:35-58 | exactly n bytes, in order, in pieces no larger than the buffer, or the exact reason why not |
| `Framing.WriteMessage` | protocol/codec.go:78-96 | the wire form is appended, or the length disagreement reported and nothing written |
| `Framing.CheckLength` | protocol/codec.go:16-21 | accepted exactly when unlimited or within the limit |
| `Framing.HeaderRoundTrip` | protocol/header.go:46-73 | a header is read back from its own bytes |
| `Framing.DecodeIsExact` | protocol/header.go:46-59 | whatever decodes re-encodes to the bytes it came from |
| `Framing.HeaderLayout` | protocol/header.go:62-73 | the offset and byte order of every field an encoded header has |
| `Framing.DecodeLayout` | protocol/header.go:46-59 | the same for decoding, with the two errors |
| `Framing.CutShort` | server/reader.go:117-144 | a message cut short anywhere reads as the end of the stream |
| `Framing.LostAtBadPrologue` | server/reader.go:117-144 | a stream that does not stand at a header is lost there |
| `Framing.Encode` | protocol/header.go:62-73 | the first sixteen bytes of the buffer and nothing else, or a short-buffer error |
| `Framing.DecodeMaxSize` | server/serve.go:508-517 | the loop computes the big-endian value; a short payload gives zero |
| `Framing.PutUint64` | server/serve.go:520-525 | the loop writes the big-endian bytes, which decode to the value again |
| `MessageIds.NthIsArithmetic` | protocol/messageid.go:40-42 | the k-th identifier is 0xffffff00 + 2k modulo 2^32 |
| `MessageIds.NthIsNeverNoMessageId` | protocol/messageid.go:83-87 | no identifier of the sequence is NoMessageID |
| `MessageIds.NthCoincides` | protocol/messageid.go:83-87 | two identifiers coincide exactly when their indices agree modulo 2^31 |
| `MessageIds.LastTaken` | protocol/messageid.go:92-94 | the identifier before the next is the last taken, or 0xfffffefe before any |
| `MessageIds.Counter.Take` | protocol/messageid.go:83-87 | the counter object follows the sequence |
| `MessageIds.Counter.Last` | protocol/messageid.go:92-94 | the last taken identifier, or the initial status query value |
| `SessionTable.Table.AllocateId` | server/server.go:112-126 | the first free non-zero identifier in cyclic order; failure only when all 65535 are in use |
| `SessionTable.Table.AllocateSession` | server/server.go:91-109 | refused exactly when the configured number, or every identifier, is in use |
| `SessionTable.Table.RemoveSession` | server/server.go:138-140 | the entry goes and nothing else |
| `SessionTable.CycleCovers` | server/server.go:112-126 | every identifier comes up within one turn of the cycle |

## Left out

- Handlers.Connection.RunSync: context cancellation is not modelled, and the read-ahead of the channel is a model of its own (`ReadAhead.dfy`); the asynchronous loop has its handler here and no loop.
- Handlers.Connection.HandleSync: stream writes succeed, and of the counters only those of interruptions and response outcomes are kept; error messages carry no text. The handlers' own checks of message type and readiness are not repeated, because the gate has made them for every message that arrives (`Gate.AcceptedExactly`).
- Handlers.Connection.HandleAsync: the same; a lock request is one attempt, and the waiting loop with its timer and wake-up channel (`server/locks.go:240-278`) is not modelled, so nothing is said about lost wake-ups or about a waiter that outlives its session.
- Handlers.Connection.SendResponse: stream writes succeed, and the check for a missing input-queued predicate, which the channel loop always supplies, is left out.
- Handlers.Connection.StreamResponse: stream writes succeed.
- Framing.ReadMessage: end of stream before and inside a message are one error, and the stream has no other.
- Framing.ReadPayload: end of stream is the only error of the stream.
- Framing.WriteMessage: stream writes succeed.
- Messages.MessageWriter.Write: stream writes succeed.
- Responses.ResponseIsWellFormed: a handler is one atomic step here; what a clear that arrives inside a response does to the transaction is covered for status reporting only (`InFlight.dfy`).
- TwoParty.NeverInterrupted: apart from the step between a DataEnd and the RMT expectation a handler is one atomic step, no clear is served in that step, and the device accepts writes and triggers while its reads may fail.
- ReadAhead.RunInv: goroutines are interleaved steps over a shared state; the Go memory model is not modelled.
- Initialize and AsyncInitialize appear as the creation and pairing of a session; sub-addresses, vendor identifiers and the version and feature negotiation on the wire are not modelled.
- Contexts, timers and cancellation of device operations.
- TLS, SASL and the HiSLIP 2.0 messages, which the source decodes and does not implement.
- Listening sockets, the example instruments, interoperability clients and command-line programs.
- Names and descriptions of message types, states and codes.
