/** The gRPC handlers that change the session table, each working under the session lock. */
module Service {
  import opened Prelude
  import opened Messages
  import Spec = SessionSpec
  import opened SessionSpec
  import opened SessionManager
  import World
  import Laws = SessionLaws

  class SmartcardService {
    const manager: SessionManager
    const runtime: SharedRuntime
    const autoVpcd: bool
    /** The vpcd clients started so far, in order. */
    var started: seq<World.Pair>

    ghost predicate Valid()
      reads this, manager, manager.sessions.Values, runtime
    {
      manager.Valid() && runtime.Valid() && PendingKnown(manager.View(), runtime.View())
    }

    ghost function View(): TableChange
      reads manager, manager.sessions.Values, runtime
    {
      TableChange(manager.View(), runtime.View())
    }

    constructor (manager: SessionManager, runtime: SharedRuntime, autoVpcd: bool)
      requires manager.Valid() && runtime.Valid() && PendingKnown(manager.View(), runtime.View())
      ensures Valid() && this.manager == manager && this.runtime == runtime && this.autoVpcd == autoVpcd
      ensures started == []
    {
      this.manager := manager;
      this.runtime := runtime;
      this.autoVpcd := autoVpcd;
      this.started := [];
    }

    method EstablishSession(clientId: string, freshId: string, now: nat) returns (sessionId: string)
      requires Valid() && freshId !in manager.sessions
      modifies manager`sessions
      ensures Valid() && sessionId == freshId
      ensures View() == old(View()).(table := old(View().table)[freshId := NewSession(clientId, now)])
    {
      ghost var before := manager.View();
      var session := manager.CreateSession(clientId, freshId, now);
      sessionId := session.id;
      assert PendingSerials(manager.View()[freshId]) == {};
    }

    /** Some(name) is the virtual reader's name, None that the session was not found. A client
        is started only for a reader new to the session that has a card, with the feature on. */
    method UpdateReaderInfo(sessionId: string, readerName: string, atr: seq<byte>, cardPresent: bool)
      returns (virtualName: Option<string>)
      requires Valid()
      modifies manager.sessions.Values, this`started
      ensures Valid() && manager.sessions == old(manager.sessions)
      ensures virtualName == if sessionId in old(View().table) then Some("Virtual PCD (" + readerName + ")") else None
      ensures View() == if virtualName.None? then old(View())
                        else old(View()).(table := old(View().table)[sessionId :=
                               Spec.UpdateReader(old(View().table)[sessionId], readerName, atr, cardPresent)])
      ensures started == old(started) +
                (if virtualName.Some? && readerName !in old(View().table)[sessionId].readers && autoVpcd && cardPresent
                 then [World.Pair(sessionId, readerName)] else [])
    {
      ghost var before := manager.View();
      var known, isNew := manager.UpdateReader(sessionId, readerName, atr, cardPresent);
      SamePendingKnown(before, manager.View(), runtime.View());
      if !known {
        return None;
      }
      if isNew && autoVpcd && cardPresent {
        started := started + [World.Pair(sessionId, readerName)];
      }
      virtualName := Some("Virtual PCD (" + readerName + ")");
    }

    method Heartbeat(sessionId: string, now: nat) returns (valid: bool)
      requires Valid()
      modifies manager.sessions.Values
      ensures Valid() && manager.sessions == old(manager.sessions)
      ensures valid <==> sessionId in old(View().table)
      ensures View() == old(View()).(table := Spec.Touch(old(View().table), sessionId, now))
    {
      ghost var before := manager.View();
      valid := manager.TouchSession(sessionId, now);
      SamePendingKnown(before, manager.View(), runtime.View());
    }

    /** Look the session up and hand it the response. */
    method Deliver(sessionId: string, response: CommandResponse) returns (result: Result<(), Refusal>)
      requires Valid()
      modifies manager.sessions.Values, runtime`oneshots
      ensures Valid() && manager.sessions == old(manager.sessions)
      ensures Reception(manager.View(), runtime.View(), result)
                == Spec.Respond(old(manager.View()), old(runtime.View()), sessionId, response)
    {
      if sessionId !in manager.sessions {
        return Failure(NoSession);
      }
      ghost var before, rtBefore := manager.View(), runtime.View();
      var session := manager.sessions[sessionId];
      assert PendingSerials(before[sessionId]) <= rtBefore.oneshots.Keys;
      result := session.HandleResponse(runtime, response);
      assert manager.View() == before[sessionId := session.View()];
      RespondKeepsKnown(before, rtBefore, sessionId, response);
    }

    /** The block in which a vpcd client holds the lock: look the session up and send it a
        command. None when the session is gone. */
    method SendToClient(sessionId: string, command: Command, reader: string, relief: Relief) returns (result: Option<SendResult>)
      requires Valid()
      modifies manager.sessions.Values, runtime
      ensures Valid() && manager.sessions == old(manager.sessions)
      ensures if sessionId !in old(View().table) then result == None && View() == old(View())
              else
                var rt := AfterWaiting(old(View().table)[sessionId], old(View().runtime), relief);
                var s := Spec.SendCommand(old(View().table)[sessionId], rt, command, reader);
                result == Some(s.result) && View() == TableChange(old(View().table)[sessionId := s.session], s.runtime)
    {
      if sessionId !in manager.sessions {
        return None;
      }
      ghost var before, rtBefore := manager.View(), runtime.View();
      var session := manager.sessions[sessionId];
      var sent := session.SendCommandAsync(runtime, command, reader, relief);
      result := Some(sent);
      assert manager.View() == before[sessionId := session.View()];
      SendKeepsKnown(before, AfterWaiting(before[sessionId], rtBefore, relief), sessionId, command, reader);
    }

    /** The direct path for responses. */
    method SendCommandResponse(response: CommandResponse) returns (result: Result<(), Refusal>)
      requires Valid()
      modifies manager.sessions.Values, runtime`oneshots
      ensures Valid() && manager.sessions == old(manager.sessions)
      ensures Reception(manager.View(), runtime.View(), result)
                == Spec.DirectResponse(old(manager.View()), old(runtime.View()), response)
    {
      if response.commandId > 0 {
        result := Deliver(response.sessionId, response);
      } else {
        result := Success(());
      }
    }
  }

  lemma SendKeepsKnown(t: Table, rt: Runtime, sid: string, command: Command, reader: string)
    requires PendingKnown(t, rt) && sid in t
    ensures var s := SendCommand(t[sid], rt, command, reader); PendingKnown(t[sid := s.session], s.runtime)
  {
    var s := SendCommand(t[sid], rt, command, reader);
    assert rt.oneshots.Keys <= s.runtime.oneshots.Keys;
    assert PendingSerials(s.session) <= PendingSerials(t[sid]) + {rt.issued + 1};
  }

  lemma RespondKeepsKnown(t: Table, rt: Runtime, sid: string, response: CommandResponse)
    requires PendingKnown(t, rt)
    ensures var r := Respond(t, rt, sid, response); PendingKnown(r.table, r.runtime)
  {
  }

  lemma SamePendingKnown(t: Table, t': Table, rt: Runtime)
    requires PendingKnown(t, rt)
    requires forall sid | sid in t' :: sid in t && PendingSerials(t'[sid]) == PendingSerials(t[sid])
    ensures PendingKnown(t', rt)
  {
  }

  lemma ChangeKeepsKnown(t: Table, rt: Runtime, sid: string, s: SessionState, dropped: set<Serial>)
    requires PendingKnown(t, rt) && PendingSerials(s) == {}
    ensures PendingKnown(t[sid := s], rt.(oneshots := DropSenders(rt.oneshots, dropped)))
  {
  }

  /** The server's task for one command stream, from its first message to its end. */
  class CommandStream {
    const service: SmartcardService
    const queue: nat
    var sessionId: Option<string>
    var ended: bool

    constructor (service: SmartcardService, queue: nat)
      ensures this.service == service && this.queue == queue && sessionId == None && !ended
    {
      this.service := service;
      this.queue := queue;
      this.sessionId := None;
      this.ended := false;
    }

    /** Name the session of the stream and give it the stream's queue. */
    method RegisterSession(sid: string) returns (found: bool)
      requires service.Valid() && sessionId.None?
      modifies this`sessionId, service.manager.sessions.Values, service.runtime`oneshots
      ensures service.Valid() && service.manager.sessions == old(service.manager.sessions)
      ensures sessionId == Some(sid)
      ensures found <==> sid in old(service.View().table)
      ensures if found then
                var u := Spec.SetChannel(old(service.View().table)[sid], old(service.runtime.View()), queue);
                service.View() == TableChange(old(service.View().table)[sid := u.session], u.runtime)
              else service.View() == old(service.View())
    {
      sessionId := Some(sid);
      found := sid in service.manager.sessions;
      if found {
        ghost var before, rtBefore := service.manager.View(), service.runtime.View();
        var session := service.manager.sessions[sid];
        session.SetCommandChannel(service.runtime, queue);
        assert service.manager.View() == before[sid := session.View()];
        ChangeKeepsKnown(before, rtBefore, sid, session.View(), PendingSerials(before[sid]));
      }
    }

    /** One message from the client. */
    method Message(response: CommandResponse)
      requires service.Valid() && !ended
      modifies this, service.manager.sessions.Values, service.runtime`oneshots
      ensures service.Valid() && service.manager.sessions == old(service.manager.sessions)
      ensures StreamTurn(service.View().table, service.View().runtime, sessionId, ended)
                == Spec.StreamMessage(old(service.View().table), old(service.View().runtime), queue,
                                      old(sessionId), response)
    {
      if sessionId.None? {
        var found := RegisterSession(response.sessionId);
        if !found {
          ended := true;
          return;
        }
      }
      if response.commandId > 0 {
        var _ := service.Deliver(sessionId.value, response);
      }
    }

    /** The stream is over: clear the session's current channel, whichever it is. */
    method End()
      requires service.Valid()
      modifies this`ended, service.manager.sessions.Values, service.runtime`oneshots
      ensures service.Valid() && service.manager.sessions == old(service.manager.sessions)
      ensures ended && sessionId == old(sessionId)
      ensures service.View() == Spec.StreamEnd(old(service.View().table), old(service.View().runtime), sessionId)
    {
      ended := true;
      if sessionId.Some? && sessionId.value in service.manager.sessions {
        ghost var before, rtBefore := service.manager.View(), service.runtime.View();
        var sid := sessionId.value;
        var session := service.manager.sessions[sid];
        session.ClearCommandChannel(service.runtime);
        assert service.manager.View() == before[sid := session.View()];
        ChangeKeepsKnown(before, rtBefore, sid, session.View(), PendingSerials(before[sid]));
      }
    }
  }

  // ---------------------------------------------------------------------------------------
  // The handlers are the steps of the whole-system state machine

  /** The handshake message a client opens its stream with. */
  function Handshake(sid: string): CommandResponse {
    CommandResponse(0, sid, true, "", None)
  }

  /** Handling a stream's handshake is the world's registration step. */
  lemma HandshakeIsRegistration(w: World.World, q: nat)
    requires q in w.streams && w.streams[q].phase == World.Opened
    ensures var turn := StreamMessage(w.table, w.runtime, q, None, Handshake(w.streams[q].sessionId));
            var w' := World.Next(w, World.OnStream(q, World.RegisterStream));
            && w'.table == turn.table && w'.runtime == turn.runtime
            && (w'.streams[q].phase == if turn.stop then World.Ended else World.Registered)
  {
  }

  /** A later message on the stream is the world's delivery step, and its end the world's. */
  lemma StreamTurnsAreSteps(w: World.World, q: nat, j: nat)
    requires q in w.streams && w.streams[q].phase == World.Registered && j < |w.executed|
    ensures var sid := Some(w.streams[q].sessionId);
            var turn := StreamMessage(w.table, w.runtime, q, sid, w.executed[j].response);
            var delivered := World.Next(w, World.StreamReply(q, j));
            var end := StreamEnd(w.table, w.runtime, sid);
            var ended := World.Next(w, World.OnStream(q, World.EndStream));
            && delivered.table == turn.table && delivered.runtime == turn.runtime && !turn.stop
            && ended.table == end.table && ended.runtime == end.runtime
  {
  }

  /** The direct RPC is the world's direct delivery step. */
  lemma DirectResponseIsStep(w: World.World, j: nat)
    requires j < |w.executed|
    ensures var r := DirectResponse(w.table, w.runtime, w.executed[j].response);
            var w' := World.Next(w, World.DirectReply(j));
            && w'.table == r.table && w'.runtime == r.runtime
            && (w'.completed != w.completed <==> w.executed[j].response.commandId > 0 && r.result.Success?)
  {
  }

  /** A vpcd client's block under the lock is the world's sending step, taken once there is room. */
  lemma SendingIsStep(w: World.World, i: nat, relief: Relief)
    requires i < |w.tasks| && World.TaskEnabled(w, w.tasks[i], World.IssueCommand)
    requires w.tasks[i].sessionId in w.table && w.table[w.tasks[i].sessionId].channel.Some?
    ensures var t := w.tasks[i];
            var s := SendCommand(w.table[t.sessionId], AfterWaiting(w.table[t.sessionId], w.runtime, relief),
                                 World.CommandFor(t.phase.request), t.readerName);
            var w' := World.Next(w, World.OnTask(i, World.IssueCommand));
            && w'.table == w.table[t.sessionId := s.session] && w'.runtime == s.runtime
            && (w'.tasks[i].phase.Waiting? <==> s.result.Sent?)
            && (s.result.Sent? ==> w'.tasks[i].phase == World.Waiting(t.phase.request, s.result.serial))
  {
  }

  /** Establishing, touching, registering and removing are the world's steps on the table: a new
      session is active now and empty; a beat sets its activity time; a registration replaces the
      reader and starts a client exactly for a new reader with a card while the feature is on; a
      removal drops the session and closes what was pending in it. */
  lemma TableHandlersAreSteps(w: World.World, sid: string, clientId: string, reader: string, atr: seq<byte>, present: bool)
    ensures sid !in w.known ==>
              World.Next(w, World.OnTable(World.Establish(sid, clientId))).table
                == w.table[sid := SessionState(clientId, w.now, w.now, map[], None)]
    ensures sid in w.table ==>
              var s := w.table[sid];
              World.Next(w, World.OnTable(World.Heartbeat(sid))).table
                == w.table[sid := SessionState(s.clientId, s.createdAt, w.now, s.readers, s.channel)]
    ensures var p := World.Pair(sid, reader);
            var w' := World.Next(w, World.OnTable(World.Register(World.Registration(p, atr, present))));
            if sid !in w.table then w' == w
            else
              var s := w.table[sid];
              && w'.table == w.table[sid := SessionState(s.clientId, s.createdAt, s.lastActivity,
                                                         s.readers[reader := ReaderInfo(reader, atr, present)], s.channel)]
              && w'.starting == w.starting + if reader !in s.readers && w.autoVpcd && present then [p] else []
    ensures sid in w.table ==>
              var w' := World.Next(w, World.OnTable(World.Remove(sid)));
              w'.table == w.table - {sid} && Laws.ClosesPending(w.table[sid], w.runtime, w'.runtime)
  {
    if sid in w.table {
      Laws.DroppingClosesPending(w.table[sid], w.runtime);
      assert PendingIn(w.table, {sid}) == PendingSerials(w.table[sid]);
    }
  }
}
