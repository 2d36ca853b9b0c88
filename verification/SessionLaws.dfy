/** What each operation on sessions changes, and what it leaves alone, written out on the data. */
module SessionLaws {
  import opened Prelude
  import opened Messages
  import opened SessionSpec

  // ---------------------------------------------------------------------------------------
  // One session

  /** A new session is active now, without readers, and its client is not connected. */
  lemma NewSessionIsIdle(clientId: string, now: nat)
    ensures NewSession(clientId, now) == SessionState(clientId, now, now, map[], None)
  {
  }

  /** The one-shot `k` is pending in the session's channel. */
  ghost predicate PendingAs(s: SessionState, id: u64, k: Serial) {
    s.channel.Some? && id in s.channel.value.pending && s.channel.value.pending[id] == k
  }

  /** Exactly the unused one-shots that were pending in the session are closed. */
  ghost predicate ClosesPending(s: SessionState, before: Runtime, after: Runtime) {
    && after.issued == before.issued && after.queues == before.queues
    && after.oneshots.Keys == before.oneshots.Keys
    && forall k | k in before.oneshots ::
         after.oneshots[k]
           == if before.oneshots[k].cell == Empty && exists id: u64 :: PendingAs(s, id, k)
              then Oneshot(Closed, before.oneshots[k].receiving) else before.oneshots[k]
  }

  lemma DroppingClosesPending(s: SessionState, rt: Runtime)
    ensures ClosesPending(s, rt, rt.(oneshots := DropSenders(rt.oneshots, PendingSerials(s))))
  {
    forall k: Serial ensures k in PendingSerials(s) <==> exists id: u64 :: PendingAs(s, id, k) {
      if k in PendingSerials(s) {
        var id :| id in s.channel.value.pending && s.channel.value.pending[id] == k;
        assert PendingAs(s, id, k);
      }
    }
  }

  /** A session given a channel has that queue and nothing pending; what was pending is closed. */
  lemma SetChannelReplaces(s: SessionState, rt: Runtime, queue: nat)
    ensures var u := SetChannel(s, rt, queue);
            && u.session == SessionState(s.clientId, s.createdAt, s.lastActivity, s.readers, Some(Channel(queue, map[])))
            && ClosesPending(s, rt, u.runtime)
  {
    DroppingClosesPending(s, rt);
  }

  /** A session whose channel is cleared has none; what was pending is closed. */
  lemma ClearChannelRemoves(s: SessionState, rt: Runtime)
    ensures var u := ClearChannel(s, rt);
            && u.session == SessionState(s.clientId, s.createdAt, s.lastActivity, s.readers, None)
            && ClosesPending(s, rt, u.runtime)
  {
    DroppingClosesPending(s, rt);
  }

  /** The reader is as given; other readers, and the rest of the session, are as before. */
  lemma UpdateReaderReplaces(s: SessionState, name: string, atr: seq<byte>, cardPresent: bool)
    ensures var s' := UpdateReader(s, name, atr, cardPresent);
            && s' == SessionState(s.clientId, s.createdAt, s.lastActivity, s'.readers, s.channel)
            && s'.readers.Keys == s.readers.Keys + {name}
            && s'.readers[name] == ReaderInfo(name, atr, cardPresent)
            && (forall other | other in s.readers && other != name :: s'.readers[other] == s.readers[other])
  {
  }

  // ---------------------------------------------------------------------------------------
  // Sending and answering

  /** Without a channel, sending does nothing. */
  lemma SendNeedsChannel(s: SessionState, rt: Runtime, command: Command, reader: string)
    requires s.channel.None?
    ensures SendCommand(s, rt, command, reader) == Sending(s, rt, NotConnected)
  {
  }

  /** With one, the next number is taken, its id is filed for a new one-shot, and the request goes
      to the end of the queue if that still has its receiver. Otherwise the call fails, and the
      number, the entry and the one-shot, with nobody receiving, stay. An older command filed under
      the same id loses its sender; nothing else changes. */
  lemma SendNumbersFilesAndQueues(s: SessionState, rt: Runtime, command: Command, reader: string)
    requires s.channel.Some?
    ensures var ch := s.channel.value;
            var k := rt.issued + 1;
            var id := k % 0x1_0000_0000_0000_0000;
            var open := ch.queue in rt.queues && rt.queues[ch.queue].open;
            var sending := SendCommand(s, rt, command, reader);
            && sending.result == (if open then Sent(k) else SendFailed)
            && sending.session == SessionState(s.clientId, s.createdAt, s.lastActivity, s.readers,
                                               Some(Channel(ch.queue, ch.pending[id := k])))
            && sending.runtime.issued == k
            && sending.runtime.queues
                 == (if open then
                       rt.queues[ch.queue := Queue(rt.queues[ch.queue].buffer + [CommandRequest(id, Some(command), reader)], true)]
                     else rt.queues)
            && sending.runtime.oneshots.Keys == rt.oneshots.Keys + {k}
            && sending.runtime.oneshots[k] == Oneshot(Empty, open)
            && (forall j | j in rt.oneshots && j != k ::
                  sending.runtime.oneshots[j]
                    == if rt.oneshots[j].cell == Empty && PendingAs(s, id, j)
                       then Oneshot(Closed, rt.oneshots[j].receiving) else rt.oneshots[j])
  {
  }

  /** A response is refused, without effect, when the session has no channel or nothing is pending
      under its id. */
  lemma UnexpectedResponseIsRefused(s: SessionState, rt: Runtime, response: CommandResponse)
    ensures s.channel.None? ==> HandleResponse(s, rt, response) == Handling(s, rt, Failure(NoChannel))
    ensures s.channel.Some? && response.commandId !in s.channel.value.pending ==>
              HandleResponse(s, rt, response) == Handling(s, rt, Failure(UnknownCommand))
  {
  }

  /** The response to a pending command takes its entry out and goes to its one-shot, where it is
      found if anyone still receives; every other entry and one-shot is as before. */
  lemma PendingResponseIsTaken(s: SessionState, rt: Runtime, response: CommandResponse, k: Serial)
    requires PendingAs(s, response.commandId, k) && k in rt.oneshots
    ensures var h := HandleResponse(s, rt, response);
            var ch := s.channel.value;
            && h.result == Success(())
            && h.session == SessionState(s.clientId, s.createdAt, s.lastActivity, s.readers,
                                         Some(Channel(ch.queue, ch.pending - {response.commandId})))
            && h.runtime.issued == rt.issued && h.runtime.queues == rt.queues
            && h.runtime.oneshots
                 == rt.oneshots[k := Oneshot(if rt.oneshots[k].receiving then Full(response) else Closed,
                                             rt.oneshots[k].receiving)]
  {
  }

  // ---------------------------------------------------------------------------------------
  // The table

  /** Touching a session sets its activity time, and changes nothing else anywhere. */
  lemma TouchIsLocal(t: Table, sid: string, now: nat)
    ensures var t' := Touch(t, sid, now);
            && t'.Keys == t.Keys
            && (sid in t ==> t'[sid] == SessionState(t[sid].clientId, t[sid].createdAt, now, t[sid].readers, t[sid].channel))
            && (forall other | other in t && other != sid :: t'[other] == t[other])
  {
  }

  /** Responding touches the named session only. */
  lemma RespondIsLocal(t: Table, rt: Runtime, sid: string, response: CommandResponse)
    ensures sid !in t ==> Respond(t, rt, sid, response) == Reception(t, rt, Failure(NoSession))
    ensures sid in t ==>
              var h, r := HandleResponse(t[sid], rt, response), Respond(t, rt, sid, response);
              && r.table.Keys == t.Keys && r.table[sid] == h.session && r.runtime == h.runtime && r.result == h.result
              && forall other | other in t && other != sid :: r.table[other] == t[other]
  {
  }

  /** A stream's first message gives the session it names the stream's queue, or ends the stream if
      there is no such session. It cannot answer anything: nothing is pending on a new channel. */
  lemma FirstMessageConnects(t: Table, rt: Runtime, queue: nat, response: CommandResponse)
    ensures var sid := response.sessionId;
            var turn := StreamMessage(t, rt, queue, None, response);
            && turn.sessionId == Some(sid) && (turn.stop <==> sid !in t)
            && turn.table.Keys == t.Keys
            && (forall other | other in t && other != sid :: turn.table[other] == t[other])
            && (sid !in t ==> turn.runtime == rt)
            && (sid in t ==>
                  && turn.table[sid] == SessionState(t[sid].clientId, t[sid].createdAt, t[sid].lastActivity, t[sid].readers,
                                                     Some(Channel(queue, map[])))
                  && ClosesPending(t[sid], rt, turn.runtime))
  {
    if response.sessionId in t { SetChannelReplaces(t[response.sessionId], rt, queue); }
  }

  /** Later messages are responses for the session the stream has named, whatever session they name
      themselves; id 0 is none. */
  lemma LaterMessageResponds(t: Table, rt: Runtime, queue: nat, sid: string, response: CommandResponse)
    ensures var turn := StreamMessage(t, rt, queue, Some(sid), response);
            && turn.sessionId == Some(sid) && !turn.stop
            && (response.commandId == 0 ==> turn.table == t && turn.runtime == rt)
            && (response.commandId > 0 ==>
                  var r := Respond(t, rt, sid, response); turn.table == r.table && turn.runtime == r.runtime)
  {
  }

  /** When a stream ends, the session it has named is without a channel, and no other changes. */
  lemma EndDisconnects(t: Table, rt: Runtime, sid: string)
    requires sid in t
    ensures var end := StreamEnd(t, rt, Some(sid));
            && end.table.Keys == t.Keys
            && (forall other | other in t && other != sid :: end.table[other] == t[other])
            && end.table[sid] == SessionState(t[sid].clientId, t[sid].createdAt, t[sid].lastActivity, t[sid].readers, None)
            && ClosesPending(t[sid], rt, end.runtime)
  {
    ClearChannelRemoves(t[sid], rt);
  }

  /** A queue of 100 requests is full; then, and only then, sending waits, until requests have left
      the front of the queue or its receiver has gone. */
  lemma FullMeansHundred(s: SessionState, rt: Runtime, relief: Relief)
    requires s.channel.Some? && s.channel.value.queue in rt.queues && rt.queues[s.channel.value.queue].open
    ensures var q := s.channel.value.queue;
            var buffer := rt.queues[q].buffer;
            var rt' := AfterWaiting(s, rt, relief);
            && rt'.issued == rt.issued && rt'.oneshots == rt.oneshots
            && (|buffer| < 100 ==> rt'.queues == rt.queues)
            && (|buffer| >= 100 ==>
                  rt'.queues == rt.queues[q :=
                    match relief
                    case RoomMade(n) => Queue(if n <= |buffer| then buffer[n..] else [], true)
                    case ReceiverGone => Queue([], false)])
  {
    var buffer := rt.queues[s.channel.value.queue].buffer;
    assert buffer[|buffer|..] == [];
  }
}
