# Remote smartcard: a verified model of the server and client core

A virtual smartcard reader (vpcd) on one machine is served by a card in a reader on another. The
server turns every APDU from vpcd into a numbered command, queues it on a gRPC stream to the remote
client, and waits on a one-shot for the response; the client runs the command on its card and sends
the response back by a direct RPC (the server also accepts it on the stream). Timeouts, late and
duplicate responses, replaced and cleared channels and removed sessions can come between any two
steps. This project models that machinery and proves what it keeps.

`dafny verify dfyconfig.toml` checks everything.

## What is proved

* **Transparency, end to end and exact.** In every run that issues at most 2^64 commands, the bytes
  vpcd gets for an APDU are `6F 00` or exactly what the card in the target reader answered to that
  APDU when it executed that very command (`Transparency.ApduTransparency`). For every larger number
  of commands this fails: ids are 64 bits wide and wrap, and `Wraparound.TransparentExactlyUpTo`
  builds the run in which an old response answers a new APDU. The theorems about responses, pending ids
  and execution order carry the same bound, for the same reason; those about vpcd clients, readers,
  registrations and the order of answers hold for runs of any length.
* **The answer does arrive.** Failure is not the only way to be transparent: a response that arrives
  while its command is waited for is what vpcd gets (`Delivery.PromptAnswerIsCards`), and from every
  reachable state an undisturbed exchange returns the card's own bytes (`Delivery.UndisturbedExchange`).
* **The model's vpcd clients are the code.** All steps of a vpcd client in a run fall into consecutive
  parts, one per answer, and each part is exactly the looks the code takes for that request, with the
  answer the code computes from them (`ClientRefinement.AnswersAreComputed`). Hence a GetATR request gets
  the registered ATR if and only if there is one at its own lookup (`AtrLaws`).
* **Byte streams.** vpcd's messages and the server's responses are parsed and printed inversely over
  whole streams. Whatever bytes vpcd sends, the message loop, shown what its client saw in a run, writes
  the frames of that run's answers, and vpcd reads back exactly the card's bytes if and only if no answer
  is longer than 65535 bytes, although the card buffer takes 65538 (`EndToEnd.VpcdGetsTheCardsAnswers`).
* **Order.** On one stream, issue order is execution order; of two commands in transit, the older is sure
  to be executed first if and only if both are on one stream (`ExecutionOrder.OrderCertainIff`).
* **The card cache** behaves like one persistent connection per reader, with exact conditions for
  opening and giving up, conservation of connections and bounds on retry work (`CardLaws`). What every
  call comes to, second tries included, follows from the replies of the PC/SC stack alone (`CardOutcomes`).
* **Timed bookkeeping**: expiry is exact and tells exactly the right waiters, heartbeats keep every
  session if and only if the longest silence is within the timeout, and both backoff schedules have
  closed forms with exact conditions for overflow.

## How it is organised

* `Prelude`, `Messages`: shared vocabulary.
* `SessionSpec`, `VpcdSpec`, `CardSlot`, `ClientCommands`, `Vicc`: what each operation does, as
  functions on values, and the laws of single operations.
* `SessionManager`, `Service`, `VpcdClient`, `CardCache`, `CommandLoop`, `Backoff`, `Heartbeats`: the
  program's objects as classes and its loops as methods, each proved to do what those functions say.
* `World`: the whole system as a state machine whose atomic steps are those same functions. A critical
  section under the session lock is one step. A response once produced may be delivered at any later
  time, any number of times, or never, so that loss, delay, duplication and reordering are all covered.
  A client process may read a card's ATR, and so fill its connection cache, at any time.
* `Correlation`, `Invariant`: the inductive invariant. `CorePreservation`, `StreamPreservation`,
  `TaskPreservation`, `RegistrationPreservation`: every step keeps its parts.
* `Transparency`, `Runs`, `Delivery`, `Wraparound`, `ProtocolLaws`, `ClientLaws`, `AnswerOrder`,
  `ExecutionOrder`, `AtrLaws`, `Expiry`: the results over runs. `ClientRefinement` shows that the vpcd
  clients inside `World` do as the code in `VpcdClient` does. `CardLaws` and `EndToEnd`: results over whole
  call and byte sequences.
* `SessionLaws`, `CardOutcomes`: what single operations on sessions and on a card come to, written out on
  the data and on the replies of the PC/SC stack.

## Where code and comments differ

The code is followed. The comment at `server/src/vpcd.rs:7-17` describes an older wire format; GetATR is
control byte 4, a one-byte frame is a control message, a longer one an APDU. A timed-out command, and one
whose sending failed after it was numbered, stays in `pending`. When a stream ends, its cleanup clears
whichever channel the session has by then, even a newer stream's. After a second failed transmit the new
handle stays cached, and a failed ATR query never drops a handle. The client's main loop resets its delay
after every failed connection too, so that it never waits longer than the initial delay; the exponential
schedule holds between resets. A heartbeat is awaited inside the loop, so beats leave late when calls take
longer than the 30 s interval, and a client may be silent for four such calls. Command 2^64 would get id
0, the handshake's, and so could not be answered. Integer overflow is modelled as in release builds (wrap-around), except that doubling a `Duration` panics.

## Model

| member | source | states |
|---|---|---|
| Transparency.ApduTransparency | server/src/vpcd.rs:349-422 | In every run (up to 2^64 commands): each APDU answer has at least two bytes and is 6F00 or the card's own answer to that APDU, from the execution of the command this very vpcd client issued for it. |
| Transparency.StepKeepsInv | server/src/session_manager.rs:109-184 | Every step of server, clients, network, clock and vpcd clients keeps the whole invariant. |
| Transparency.RunKeepsInv | server/src/session_manager.rs:109-184 | Every run keeps the invariant. |
| Transparency.OwnersAgree | server/src/vpcd.rs:367-393 | The execution an answer came from is of a command issued by the vpcd client that gave the answer, for its session, reader and request. |
| Wraparound.TransparentExactlyUpTo | server/src/session_manager.rs:16-21 | All runs that issue n commands are transparent if and only if n is at most 2^64. |
| Wraparound.SameIdIff | server/src/session_manager.rs:16-21 | Two commands share an id exactly when they are a multiple of 2^64 apart; one has the handshake's id 0 exactly when 2^64 divides its number. |
| Wraparound.StaleAnswer | server/src/session_manager.rs:170-184 | Once ids wrap, a response left undelivered since the first command is accepted for command 2^64 + 1 and handed to vpcd for another APDU. |
| Delivery.ResponseIsTaken | server/src/session_manager.rs:170-184 | A response whose command is still waited for is accepted for its session and completes exactly that command. |
| Delivery.PromptAnswerIsCards | server/src/vpcd.rs:395-421 | On either path, a response that arrives in time is what vpcd gets next: the card's bytes whenever the card answered with a status word, and its ATR for GetATR. |
| Delivery.UndisturbedExchange | client/src/grpc_client.rs:292-318 | From every reachable state, an APDU taken up on a working, empty stream and left undisturbed comes back as the bytes that the PC/SC stack replies to its transmission, or to the second one after reconnecting; 6F00 only when that is not two bytes or more. |
| Delivery.ExecutionKeepsConnection | client/src/grpc_client.rs:292-404 | Executing an APDU command takes it off the stream, answers as the card replies, and leaves the connection as the card calls left it; no other connection changes. |
| Delivery.InspectionKeepsConnection | client/src/main.rs:364-395 | Reading a card's ATR before connecting leaves only the connection it made. |
| ClientRefinement.AnswersAreComputed | server/src/vpcd.rs:261-422 | Over every run: all steps of a vpcd client are, in order and without rest, the looks its code takes for each request it has answered, then those for the one it is working on; each answer is the one the code computes from its own looks, and its recorded source is where the code got it. |
| ClientRefinement.RunExplained | server/src/vpcd.rs:229-422 | Any continuation of a run keeps every vpcd client's steps so accounted for. |
| ClientRefinement.MoveAccounts | server/src/vpcd.rs:229-422 | Whatever a vpcd client has looked at so far, its next step is the code's next look, and finishes the request exactly with the code's answer. |
| ClientRefinement.CodeSends | server/src/vpcd.rs:356-421 | When the channel shows at some look after looks that waited, the code's answer is decided by sending in the world then and by the reply, for every delay of the reply up to 30 s. |
| ClientRefinement.CodeGivesUp | server/src/vpcd.rs:229-258 | When all looks wait, or one finds the session gone, the code gives its failure answer. |
| EndToEnd.VpcdGetsTheCardsAnswers | server/src/vpcd.rs:110-188 | For any bytes vpcd sends and any run in which their requests are taken up and answered, with replies after any times within 30 s: the message loop, shown what the client saw at its own steps, writes one answer to each request in order and as far as vpcd takes them; APDU answers are the card's or 6F00 and 2 to 65538 bytes long; and vpcd reads them back if and only if all are at most 65535 bytes. |
| EndToEnd.LoopGivesTheAnswers | server/src/vpcd.rs:110-133 | Shown a vpcd client's own looks, and whatever each reply's delay within 30 s, the message loop's responses are that client's answers, byte for byte and in order. |
| EndToEnd.LoopDelivers | server/src/vpcd.rs:110-189 | What the loop writes is the frames of its responses as far as vpcd takes them, readable if and only if all fit. |
| EndToEnd.ResponsePathIff | client/src/grpc_client.rs:378-396 | Card bytes split into data and status word, rejoined, framed and peeled off come back unchanged if and only if their length is from 2 to 65535. |
| EndToEnd.OneAnswerEach | server/src/vpcd.rs:110-133 | The answers of an idle vpcd client are one to each request it took up, in that order. |
| AnswerOrder.EveryRequestAnsweredOnce | server/src/vpcd.rs:110-133 | Over every run: the requests answered, then the one being worked on, are exactly those taken up, in order. |
| ProtocolLaws.NoOrphanedWaiter | server/src/session_manager.rs:109-184 | A waiting vpcd client's command is pending in its session's current channel, or its one-shot holds its own answer, or its sender was dropped. |
| ProtocolLaws.PendingIdsDisjoint | server/src/session_manager.rs:16-21 | Pending ids of all sessions are pairwise disjoint, belong to issued commands, and are not 0 until the counter has come round. |
| ProtocolLaws.CompletedOnce | server/src/session_manager.rs:170-184 | No command is completed twice in a run. |
| ProtocolLaws.DuplicateRefused | server/src/session_manager.rs:170-184 | A response to a completed command is refused on either path and for every session, and leaves the system as it was. |
| ProtocolLaws.RefusalChangesNothing | server/src/session_manager.rs:170-184 | Handling a response that is refused changes neither the table nor any one-shot. |
| ProtocolLaws.AckIffPending | server/src/grpc_service.rs:389-432 | The direct RPC acknowledges a nonzero id exactly when it is pending in the session named, and id 0 always. |
| ProtocolLaws.DeliveryCompletes | server/src/grpc_service.rs:357-367 | A delivered response records exactly its own command as complete, or nothing changes at all. |
| ProtocolLaws.IssueOrderIsExecutionOrder | server/src/session_manager.rs:141-167 | On every stream, the commands executed are a prefix of those sent, and numbers increase along both. |
| ProtocolLaws.ExecutedOnce | client/src/grpc_client.rs:292-318 | No two executions in a run are of the same command, on whatever streams. |
| ExecutionOrder.OrderCertainIff | client/src/grpc_client.rs:292-318 | Of two commands in transit, of one vpcd client or of any, the older is executed first in every continuation if and only if both are on the same stream. |
| ExecutionOrder.ExecutedStaysFirst | client/src/grpc_client.rs:292-318 | Once one command is executed and another is not, their order is certain, as it is when the first has been answered. |
| ExecutionOrder.OtherStreamOvertakes | server/src/vpcd.rs:395-421 | From every state with two commands in transit on different streams, some continuation executes the newer one first. |
| AtrLaws.RegisteredAtrIsGiven | server/src/vpcd.rs:273-286 | In every run, however long: a GetATR request is answered from the table if and only if an ATR was registered at that request's own lookup, with that ATR, and the answer records how many registrations there were then. |
| AtrLaws.AtrCoherence | server/src/vpcd.rs:261-346 | Each GetATR answer is the ATR registered at its own lookup if there is one; otherwise what the card reported to a command this client issued for it, or empty. The field kept from earlier plays no part. |
| AtrLaws.LookupFindsRegistered | server/src/vpcd.rs:273-286 | A lookup finds exactly the ATR registered last, if its session is there and the ATR is not empty. |
| ClientLaws.OneAnswerPerCommand | server/src/vpcd.rs:395-421 | In every run, even after ids have wrapped, distinct answers never come from the same command. |
| ClientLaws.OneClientPerReader | server/src/grpc_service.rs:110-148 | In every run, however long, at most one vpcd client is started for a reader of a session. |
| ClientLaws.ClientIffFirstHadCard | server/src/grpc_service.rs:110-148 | A vpcd client runs or is about to exactly for the readers whose first registration had a card while the feature was on. |
| ClientLaws.WaitersBoundedByReaders | server/src/vpcd.rs:110-118 | A session is never waited on by more commands than it has registered readers. |
| ClientLaws.RunKeepsRegistration | server/src/session_manager.rs:95-101 | Over every run: each session's readers are as last registered, and vpcd clients match first registrations. |
| Correlation.IssueOne | server/src/session_manager.rs:141-167 | Numbering and filing a command keeps every pending entry under its own id, in its own session, with an unused one-shot. |
| Correlation.CompleteOne | server/src/session_manager.rs:170-184 | The entry filed under a response's id is the command of that id, and completing it keeps the correlation. |
| Correlation.DropChannels | server/src/session_manager.rs:109-123 | Dropping whole channels closes exactly what was pending there; no waiter is left behind. |
| Correlation.FreshId | server/src/session_manager.rs:16-21 | Until the counter has come round, a new id is nowhere pending. |
| StreamPreservation.StreamStepKeepsOrder | server/src/grpc_service.rs:315-386 | Opening, registering, ending, breaking and draining a stream keep the order of its commands. |
| StreamPreservation.AppendKeepsStreams | server/src/session_manager.rs:141-167 | Queueing a newly numbered command keeps numbers increasing along its stream and every other stream as it was. |
| StreamPreservation.ExecutesHonestly | client/src/grpc_client.rs:328-372 | Executing a command yields a response that carries its id and session and, as the server reads it, exactly what the card said. |
| TaskPreservation.ReplyJustified | server/src/vpcd.rs:395-421 | However a wait ends, what is handed to vpcd is what the card said to the command waited for, or the fixed failure answer. |
| TaskPreservation.CachedIsLatest | server/src/vpcd.rs:273-286 | What a lookup finds in the table is the ATR registered last. |
| RegistrationPreservation.RegisterKeepsRegistration | server/src/grpc_service.rs:110-148 | Registering a reader keeps readers current and vpcd clients matched to first registrations. |
| RegistrationPreservation.EstablishKeepsRegistration | server/src/grpc_service.rs:76-100 | A new session starts without readers and disturbs no other. |
| SessionManager.SharedRuntime.NextCommandId | server/src/session_manager.rs:16-21 | The counter hands out the id of the next number, wrapping at 2^64. |
| SessionManager.Session.constructor | server/src/session_manager.rs:70-82 | A new session has no readers, no channel, and is active now. |
| SessionManager.Session.Touch | server/src/session_manager.rs:85-87 | Only the activity time changes. |
| SessionManager.Session.IsExpired | server/src/session_manager.rs:90-92 | True exactly when the whole-second age exceeds the timeout. |
| SessionManager.Session.UpdateReader | server/src/session_manager.rs:95-101 | The reader is as given; all else stays. |
| SessionManager.Session.SetCommandChannel | server/src/session_manager.rs:109-115 | The session has the new queue with nothing pending, and what was pending is closed. |
| SessionManager.Session.ClearCommandChannel | server/src/session_manager.rs:118-123 | The session has no channel, and what was pending is closed. |
| SessionManager.Session.SendCommandAsync | server/src/session_manager.rs:141-167 | Refused without a channel; else numbered, filed and queued; on a closed queue the number is spent and the entry stays; on a full queue, where it is numbered and filed before it waits, the outcome is that of sending once there is room. |
| SessionManager.Session.HandleResponse | server/src/session_manager.rs:170-184 | The entry of the response's id is removed and its one-shot filled if still received; otherwise refused and unchanged. |
| SessionManager.SessionManager.CreateSession | server/src/session_manager.rs:202-209 | The table gains exactly the new session. |
| SessionManager.SessionManager.TouchSession | server/src/session_manager.rs:222-229 | The named session's activity time changes if it is there, and says whether it was. |
| SessionManager.SessionManager.RemoveSession | server/src/session_manager.rs:232-235 | Exactly the named session goes and is handed to the caller with its channel as it was. |
| SessionManager.SessionManager.DropSession | server/src/session_manager.rs:247-250 | A session removed and dropped closes its waiters. |
| SessionManager.SessionManager.CleanupExpired | server/src/session_manager.rs:238-252 | Removes and returns, each once, exactly the expired sessions, and closes exactly their waiters. |
| SessionManager.PendingSplit | server/src/session_manager.rs:247-250 | Removing sessions one by one closes in all what removing them together would. |
| SessionManager.DropTwice | server/src/session_manager.rs:247-250 | Closing senders in two goes is closing them in one. |
| SessionLaws.SetChannelReplaces | server/src/session_manager.rs:109-115 | The session has that queue and nothing pending; exactly the unused one-shots pending before are closed. |
| SessionLaws.ClearChannelRemoves | server/src/session_manager.rs:118-123 | The session has no channel; exactly the unused one-shots pending in it are closed. |
| SessionLaws.SendNumbersFilesAndQueues | server/src/session_manager.rs:141-167 | Field by field: the next number, its entry under the number modulo 2^64, its one-shot, the request at the end of an open queue; on a closed one the number and the entry are spent all the same. |
| SessionLaws.UnexpectedResponseIsRefused | server/src/session_manager.rs:170-184 | Without a channel, or with nothing pending under its id, a response is refused and nothing changes. |
| SessionLaws.PendingResponseIsTaken | server/src/session_manager.rs:170-184 | The response's entry alone is taken out, and it is found in its one-shot if anyone still receives; all other entries and one-shots stay. |
| SessionLaws.FirstMessageConnects | server/src/grpc_service.rs:334-373 | A stream's first message gives the session it names, and no other, the stream's queue, or ends the stream when there is none; it answers nothing, whatever its id. |
| SessionLaws.EndDisconnects | server/src/grpc_service.rs:375-382 | The end of a stream leaves the session it named without a channel and closes what was pending there; no other session changes. |
| SessionLaws.FullMeansHundred | server/src/grpc_service.rs:315-328 | Sending waits exactly when 100 requests are queued, and then until some have left from the front or the receiver is gone. |
| Service.SmartcardService.EstablishSession | server/src/grpc_service.rs:76-100 | The table gains one fresh session of this client. |
| Service.SmartcardService.UpdateReaderInfo | server/src/grpc_service.rs:102-156 | The reader is updated or the session reported missing; a vpcd client is started exactly for a new reader with a card while the feature is on. |
| Service.SmartcardService.Heartbeat | server/src/grpc_service.rs:278-297 | Touches the session and reports whether it is known. |
| Service.SmartcardService.SendCommandResponse | server/src/grpc_service.rs:389-432 | The direct path: table, one-shots and acknowledgement after a response, for id 0, unknown sessions and unknown ids too. |
| Service.SmartcardService.SendToClient | server/src/vpcd.rs:367-393 | The block a vpcd client runs under the lock: what sending does to the table, the counter and the queue, and None when the session is gone. |
| Service.CommandStream.RegisterSession | server/src/grpc_service.rs:339-355 | The stream's first message names its session and gives it the stream's queue, or finds no session. |
| Service.CommandStream.Message | server/src/grpc_service.rs:334-373 | One message on the stream: registration if it is the first, then delivery if its id is nonzero. |
| Service.CommandStream.End | server/src/grpc_service.rs:375-382 | Whatever channel the named session has by then is cleared. |
| Service.HandshakeIsRegistration | server/src/grpc_service.rs:339-355 | Handling the client's opening message is the whole-system registration step. |
| Service.StreamTurnsAreSteps | server/src/grpc_service.rs:357-382 | Later messages and the end of a stream are the whole-system delivery and ending steps. |
| Service.TableHandlersAreSteps | server/src/grpc_service.rs:76-156 | The world's steps on the table, field by field: a new session is active now and empty, a beat sets the activity time, a registration replaces the reader and starts a client for a new reader with a card, a removal closes what was pending. |
| Service.DirectResponseIsStep | server/src/grpc_service.rs:389-432 | The direct RPC is the whole-system delivery step. |
| Service.SendingIsStep | server/src/vpcd.rs:367-393 | That block is the whole-system sending step, taken once there is room. |
| Vicc.ParseInvertsPrint | server/src/vpcd.rs:142-172 | The receive loop over the frames of any valid messages delivers exactly those messages and ends gracefully. |
| Vicc.WireFormat | server/src/vpcd.rs:142-189 | The frame of data is its big-endian 16-bit length and the data; received, one byte 0, 1, 2 or 4 is that control message, any other single byte and no bytes are faults, and more bytes are an APDU. |
| Vicc.EndsEarly | server/src/vpcd.rs:142-159 | A stream that ends before a whole message ends gracefully at an orderly close inside the length, with the matching fault otherwise. |
| Vicc.PrintInvertsParse | server/src/vpcd.rs:142-172 | On any byte stream, what is delivered, printed back, is a prefix of it; the end is graceful exactly at an orderly close with less than a length prefix left. |
| Vicc.CutStream | server/src/vpcd.rs:142-159 | A stream cut anywhere delivers exactly the complete messages; the end is graceful inside a length prefix and an error inside a body. |
| Vicc.FrameReadsBackIff | server/src/vpcd.rs:175-189 | A response frame decodes to its data if and only if the data is at most 65535 bytes. |
| Vicc.OversizeDesynchronises | server/src/vpcd.rs:175-189 | Data of 65536 bytes reads as an empty response, and its bytes are taken for later frames. |
| Vicc.ResponsesReadBackIff | server/src/vpcd.rs:175-189 | A sequence of response frames is read back as sent if and only if each fits. |
| VpcdClient.PollingSucceedsIff | server/src/vpcd.rs:229-258 | Polling a table that changes arbitrarily succeeds exactly when some look within 300 finds the session with a channel and all earlier ones find it without; it ends at such a look, or at one that finds no session, or after all 300, having slept 100 ms for each look before. |
| VpcdClient.PollingGoesOneWay | server/src/vpcd.rs:229-258 | These are the only ways polling can go: the channel up, the session gone, or 300 looks at a session without a channel. |
| VpcdClient.ApduAnsweredIff | server/src/vpcd.rs:349-422 | An APDU is answered with the data and status word of the client's response exactly when the channel shows, the queue is open, and a successful APDU response comes within 30 s; otherwise with 6F00. |
| VpcdClient.AtrAnsweredIff | server/src/vpcd.rs:261-346 | A GetATR is answered with the registered ATR if there is one, else with the ATR of a successful response within 30 s of reaching the client, else with nothing. |
| VpcdClient.AskMeans | server/src/vpcd.rs:356-421 | A command is sent exactly when the channel shows and the queue is open; its reply counts exactly within 30 s; what is slept and waited is exact. |
| VpcdClient.OnlyRequestsAreAnswered | server/src/vpcd.rs:194-226 | Nothing is written for PowerOff, PowerOn and Reset; a frame with the answer for GetATR and APDUs. |
| VpcdClient.LoopIsPipeline | server/src/vpcd.rs:110-133 | The message loop writes the frames of the responses to the messages received, in order, as far as the peer takes them. |
| VpcdClient.ResponsesMatchAskers | server/src/vpcd.rs:194-226 | The k-th response is the answer to the k-th APDU or GetATR control message, and there are no others. |
| VpcdClient.AskersInOrder | server/src/vpcd.rs:194-226 | The positions of APDUs and GetATR control messages, and of nothing else, are listed completely and in order. |
| VpcdClient.PowerIsLastSaid | server/src/vpcd.rs:198-211 | Power is as the last power message said, or as before when there was none. |
| VpcdClient.VpcdReadsTheResponses | server/src/vpcd.rs:110-189 | Any valid messages in, exactly the responses out and readable if and only if all fit. |
| VpcdClient.VpcdClient.Connect | server/src/vpcd.rs:93-136 | The loop over one connection, with power on at its start: bytes written and power afterwards, for every input and every failing peer. |
| VpcdClient.VpcdClient.Turn | server/src/vpcd.rs:110-133 | One turn of the loop: what is read, written and left. |
| VpcdClient.VpcdClient.ReceiveMessage | server/src/vpcd.rs:142-172 | The next message, a graceful end, or the exact fault. |
| VpcdClient.VpcdClient.SendResponse | server/src/vpcd.rs:175-189 | Writes the frame, or as much of it as the peer takes. |
| VpcdClient.VpcdClient.HandleMessage | server/src/vpcd.rs:194-226 | For each kind of message: what is returned, if anything, and the power state; PowerOff, PowerOn and Reset return nothing. |
| VpcdClient.VpcdClient.WaitForCommandChannel | server/src/vpcd.rs:229-258 | Ready at a look that finds the channel after looks that found none, not ready at one that finds no session or after 300; 100 ms of sleep for each look before. Nothing without a target. |
| VpcdClient.VpcdClient.AskClient | server/src/vpcd.rs:356-395 | Polls, sends and waits as specified (its meaning is `AskMeans`), at most 30 s of sleep and 30 s of waiting; says what sending does to the session and the runtime. |
| VpcdClient.VpcdClient.GetAtrFromClient | server/src/vpcd.rs:261-346 | The ATR found in the table, else the client's, else none; never dependent on the ATR kept from before, which changes exactly when one is found. |
| VpcdClient.VpcdClient.ForwardApdu | server/src/vpcd.rs:349-422 | Exactly one answer of at least two bytes after bounded waiting; the response's data and status word when a successful one comes within 30 s of reaching the client, however late within that. |
| ClientCommands.SplitThenJoin | client/src/grpc_client.rs:378-396 | Splitting off the status word and joining it again is the identity exactly on two bytes or more. |
| ClientCommands.ApduResponseIsCardsAnswer | client/src/grpc_client.rs:375-404 | What the server makes of an APDU response is the card's answer to that APDU whenever it gave one of two bytes or more, and 6F00 otherwise. |
| ClientCommands.AtrResponseIsCardsAtr | client/src/grpc_client.rs:439-470 | What the server makes of a GetAtr response is the ATR the card reported, or empty. |
| ClientCommands.ApduCommandMeans | client/src/grpc_client.rs:375-404 | In terms of the PC/SC replies alone: the response to an APDU command is what the card replied, split, or a failure when the card gave none. |
| ClientCommands.AtrCommandMeans | client/src/grpc_client.rs:439-470 | In terms of the PC/SC replies alone: the ATR of the card's status, success without an ATR when the error names a missing card, a failure otherwise. |
| ClientCommands.ConnectCommandMeans | client/src/grpc_client.rs:407-426 | Connecting succeeds exactly when the card's status does, with that ATR. |
| ClientCommands.CommandsWithoutCard | client/src/grpc_client.rs:328-372 | Without a PC/SC context, for a disconnect and for an empty command no card is touched, and what each is answered. |
| CommandLoop.EachCommandOnce | client/src/grpc_client.rs:292-318 | Every command up to the stream's end or first error is run once, in order, on what the earlier ones left; the i-th response carries the i-th id and the card's own answer. |
| CommandLoop.NoMoreResponses | client/src/grpc_client.rs:292-318 | Exactly the commands before the end or the first error get a response. |
| CommandLoop.ServingIsOneRun | client/src/grpc_client.rs:292-318 | However many commands are served, each reader sees one run of card calls on its persistent connection. |
| CommandLoop.GrpcClient.ProcessCommand | client/src/grpc_client.rs:328-372 | One command run through the cache: response, connection and PC/SC log, with other readers untouched. |
| CommandLoop.GrpcClient.ServeCommands | client/src/grpc_client.rs:292-318 | The loop gives the responses, and leaves the connections, of running the commands one by one. |
| CardSlot.ConnectStops | client/src/pcsc_reader.rs:53-93 | For any retry limit the loop returns the first success preceded only by retryable errors, or the error it stops at; it sleeps once less than it tries, and its fall-through error is unreachable. |
| CardSlot.StopsAtOnce | client/src/pcsc_reader.rs:53-93 | There is only one attempt the loop can stop at. |
| CardOutcomes.BusyReaderIsRetried | client/src/pcsc_reader.rs:53-93 | A reader busy for k calls is tried exactly k + 1 times with k sleeps of 500 ms, within the limit, and the last reply decides. |
| CardOutcomes.TransmitReplies | client/src/pcsc_reader.rs:101-128 | For every connection, environment and limit: the result is the card's reply to the first try, or after a failure to a second one on a connection made anew. |
| CardOutcomes.CardRepliesOnce | client/src/pcsc_reader.rs:101-128 | The replies of the environment leave one result and one connection only. |
| CardOutcomes.WorkingConnectionTransmits | client/src/pcsc_reader.rs:101-128 | On a cached connection that works there is one transmission, and its reply is the result. |
| CardOutcomes.FailedConnectionIsReplaced | client/src/pcsc_reader.rs:101-114 | When the cached connection fails: one removal, reconnecting, a second transmission, whose reply is the result; or the error at which reconnecting stops. |
| CardOutcomes.QueryIdentifies | client/src/pcsc_reader.rs:130-142 | For every connection, environment and limit: the result is the card's reply to a status call on the cached or a new connection. |
| CardOutcomes.CachedConnectionIsAsked | client/src/pcsc_reader.rs:130-142 | A cached connection is asked exactly once, its reply is the result, and the handle stays. |
| CardOutcomes.NewConnectionIsAsked | client/src/pcsc_reader.rs:130-142 | Without one, the reply to the status call after the successful connect is the result, or the error at which connecting stops. |
| CardLaws.OnePersistentConnection | client/src/pcsc_reader.rs:34-50 | For any calls and any environment, the PC/SC log is that of one connection, opened only when none is open and given up only right after a failed transmit or on request, and on request at most as often as disconnecting was requested; the cached handle is the open one. |
| CardLaws.OnlyDisconnectDrops | client/src/pcsc_reader.rs:95-142 | Transmitting and asking for the ATR never give up a connection on request; a disconnect does exactly when there is one; asking for the ATR keeps the handle. |
| CardLaws.ReopenedOnlyForCause | client/src/pcsc_reader.rs:34-50 | However many calls are made, a reader is connected at most once more than there are failed transmissions and requested disconnects. |
| CardLaws.ConnectionsConserved | client/src/pcsc_reader.rs:34-50 | Opens minus removals is 1 when the reader is cached and 0 otherwise. |
| CardLaws.ReplayConserves | client/src/pcsc_reader.rs:34-50 | Opens and removals balance along every legal log. |
| CardLaws.TransmitReturnsCardAnswer | client/src/pcsc_reader.rs:101-128 | A transmit succeeds exactly when its last card call was answered, and returns that answer to that APDU, given on the handle cached afterwards. |
| CardLaws.QueryReturnsCardAtr | client/src/pcsc_reader.rs:130-142 | An ATR query succeeds exactly when its last card call did, and returns what that reported. |
| CardLaws.RetryCost | client/src/pcsc_reader.rs:53-128 | With retry limit n, k transmits and m ATR queries cost at most 2k transmissions, n(2k+m) connect attempts and (n-1)(2k+m) sleeps of 500 ms. |
| CardLaws.CacheRefinesPrivateConnections | client/src/pcsc_reader.rs:34-50 | Calls on many readers, interleaved in any way, give each reader the answers and the connection of its own private run. |
| CardCache.CardConnectionManager.GetOrConnect | client/src/pcsc_reader.rs:34-50 | The cached handle, or a new one that is then cached; other readers' handles stay. |
| CardCache.CardConnectionManager.ConnectWithRetry | client/src/pcsc_reader.rs:53-93 | The retry loop gives the result, calls and sleeps of its specification. |
| CardCache.CardConnectionManager.Disconnect | client/src/pcsc_reader.rs:95-99 | The reader's handle is dropped if there is one; no other. |
| CardCache.CardConnectionManager.TryTransmit | client/src/pcsc_reader.rs:116-128 | One transmission on the cached or a new connection; the buffer is cut to what the card wrote. |
| CardCache.CardConnectionManager.Transmit | client/src/pcsc_reader.rs:101-114 | On failure drops the handle, reconnects and tries once more: the result and connection of `Transmit`, whose meaning is `CardOutcomes.TransmitReplies`. |
| CardCache.CardConnectionManager.GetAtr | client/src/pcsc_reader.rs:130-142 | Asks the card's status on the cached or a new connection and never drops it: the result of `QueryAtr`, whose meaning is `CardOutcomes.QueryIdentifies`. |
| Expiry.ExpiredIff | server/src/session_manager.rs:90-92 | Expired exactly from one whole second past the timeout on. |
| Expiry.CleanupExact | server/src/session_manager.rs:238-252 | Exactly the sessions idle too long go, the others stay as they are, and one-shots change only for what was pending in a removed session. |
| Expiry.CleanupTwice | server/src/session_manager.rs:238-252 | Cleaning up again at the same time changes nothing. |
| Expiry.CleanupTellsItsWaiters | server/src/session_manager.rs:238-252 | In every reachable state, a client waiting for a pending command is told at once exactly when its own session is cleaned up. |
| Heartbeats.RunningIff | client/src/main.rs:321-361 | The loop is still running exactly when nothing ended it and no three beats in a row failed. |
| Heartbeats.ExitsBy | client/src/main.rs:325-361 | A closed channel, a requested shutdown, an unknown session and the third failure in a row each end the loop with their own exit, whatever comes after. |
| Heartbeats.RunLoop | client/src/main.rs:321-361 | The loop with its failure counter exits as specified. |
| Heartbeats.SilenceBounded | client/src/main.rs:321-349 | With calls of at most d, a client still in its loop was last heard of at most 3 max(30 s, d) + d ago, or setup + 2 max(30 s, d) + d when setup is longer than one such gap. |
| Heartbeats.MomentKeepsSession | client/src/main.rs:321-349 | Each moment keeps what bounds the silence, late beats and missed ticks included, and the loop ends only by a third failure in a row. |
| Heartbeats.EstablishedEnters | client/src/main.rs:298-321 | A session established by the whole-system step is one a client enters its loop with, within the setup time. |
| Heartbeats.HeartbeatsKeepSessionIff | client/src/main.rs:321-349 | For calls of any length: over all beats, lost, late or not, and all cleanups, every client in its loop keeps its session if and only if that silence is within the timeout. |
| Heartbeats.DefaultsAreSafeIff | server/src/session_manager.rs:194-199 | With the 300 s default and setup within 30 s, sessions are safe with calls of at most d if and only if d is less than 75.25 s. |
| Heartbeats.BoundIsSharp | server/src/session_manager.rs:90-92 | When the silence can reach the first second past the timeout, beats lost after calls of full length and a cleanup remove a running client's session. |
| Backoff.DelayClosedForm | client/src/main.rs:119-126 | The k-th delay is the initial one for k = 0 and min(initial * 2^k, max) after. |
| Backoff.DelayDoubles | client/src/main.rs:119-126 | Each delay is twice the one before, cut off at the maximum. |
| Backoff.NeverOverflowsIff | client/src/main.rs:123 | No call ever overflows if and only if twice the initial delay fits and, unless that is zero, twice the maximum does. |
| Backoff.ReconnectConfig.NextDelay | client/src/main.rs:119-126 | Returns the delay of its closed form since creation or reset, or overflows exactly when doubling does not fit. |
| Backoff.ReconnectConfig.Reset | client/src/main.rs:128-130 | Starts the schedule again. |
| Backoff.MainLoop | client/src/main.rs:189-233 | The main loop always waits the initial delay, once per lost connection, until shutdown. |
| Backoff.RoundsAreLosses | client/src/main.rs:189-233 | The loop waits once for each lost connection until one finishes cleanly or a shutdown comes with a wait. |
| Backoff.RetryWaitsClosedFormIff | server/src/vpcd.rs:455-478 | k errors in a row cost k(k+1)/2 seconds up to 5 and 5k-10 beyond, exactly until the 32-bit counter wraps. |
| Backoff.WaitAfterRun | server/src/vpcd.rs:455-478 | Each wait in any mix of attempts: 100 ms after a connection, r seconds but at most 5 after the r-th error in a row. |
| VpcdClient.StartClient | server/src/vpcd.rs:442-482 | A client's life: every connection it gets is served for its reader, and between attempts it waits as scheduled, over any mix of errors and normal disconnects. |

## Left out

- TLS, certificates, key generation, the Windows store, configuration, the command line and logging: wrappers around files and libraries.
- The server's stub calls (`transmit`, `card_connect`, `card_disconnect`, `get_status`, `control`, `stream_card_events`, `get_capabilities`) return constants, and `list_readers` only copies the table.
- gRPC, tokio and PC/SC themselves: a stream is a queue that may break, a response may be delivered any number of times or never, the session lock makes a critical section one step, session ids are fresh, time is a number that never decreases, and a card is an arbitrary function of the calls made so far.
- `remove_reader`: nobody calls it. `cleanup_expired` and `remove_session` are uncalled too, but are steps of the environment.
- `KeepAliveStream`, the reader filter, shutdown signalling inside waits, and the virtual tester tool, which speaks the older wire format.
- SessionManager.Session.SendCommandAsync: how waiting for room in a full queue ends is a parameter; that it ends is taken as given, so nothing is said about progress under a full queue of 100.
- A removed session's waiters are told when the caller drops it; the whole-system step drops it at once, as nobody keeps it.
- VpcdClient.VpcdClient.AskClient: sees the shared table through values given by its surroundings, one per look, rather than through a shared object; the block under the lock on shared objects is `Service.SmartcardService.SendToClient`, and `ClientRefinement.AnswersAreComputed` ties the client to the whole system.
- VpcdClient.VpcdClient.ForwardApdu: time spent waiting for the session lock or for queue space is not counted.
- Transparency.ApduTransparency: says nothing beyond 2^64 commands, because it is false there (`Wraparound.TransparentExactlyUpTo`).
- Heartbeats.HeartbeatsKeepSessionIff: the longest call is a parameter, since the program sets no timeout on it; timers are taken to fire when due, and client and server to share a clock.
- EndToEnd.VpcdGetsTheCardsAnswers: speaks of one connection that carries all of a client's requests; `VpcdClient.StartClient` serves any number of them.
- The texts of errors the operating system reports, and the handle and protocol numbers of Connect responses beyond the constants the client sends.
