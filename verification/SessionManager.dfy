/** Sessions and their manager as objects, proved to do what SessionSpec says.

    Time and fresh session ids come from outside and are parameters. */
module SessionManager {
  import opened Prelude
  import opened Messages
  import Spec = SessionSpec
  import opened SessionSpec

  /** What the program shares between all sessions: the id counter and the channels in use. */
  class SharedRuntime {
    var counter: u64
    var issued: nat
    var oneshots: map<Serial, Oneshot>
    var queues: map<nat, Queue>

    /** The wrapping counter has been advanced once per command. */
    predicate Valid()
      reads this
    {
      counter == IdOf(issued + 1)
    }

    function View(): Runtime
      reads this
    {
      Runtime(issued, oneshots, queues)
    }

    constructor ()
      ensures Valid() && View() == Runtime(0, map[], map[])
    {
      counter, issued, oneshots, queues := 1, 0, map[], map[];
    }

    /** Atomically fetch the counter and add one, wrapping at 2^64. */
    method NextCommandId() returns (id: u64)
      requires Valid()
      modifies this`counter, this`issued
      ensures Valid() && issued == old(issued) + 1 && id == IdOf(issued)
    {
      id := counter;
      counter := if counter == U64_MODULUS - 1 then 0 else counter + 1;
      issued := issued + 1;
    }

    method Drop(serials: set<Serial>)
      modifies this`oneshots
      ensures oneshots == DropSenders(old(oneshots), serials)
    {
      oneshots := DropSenders(oneshots, serials);
    }

    /** `send` on a one-shot: fails, losing the value, when the receiver is gone. */
    method Complete(serial: Serial, response: CommandResponse) returns (delivered: bool)
      requires serial in oneshots
      modifies this`oneshots
      ensures delivered == old(oneshots)[serial].receiving
      ensures oneshots == Fill(old(oneshots), serial, response)
    {
      var o := oneshots[serial];
      delivered := o.receiving;
      oneshots := oneshots[serial := o.(cell := if delivered then Full(response) else Closed)];
    }

    /** `send` on a queue: waits while it is full, which `relief` ends, and fails when its
        receiver is gone. */
    method Enqueue(q: nat, request: CommandRequest, relief: Relief) returns (ok: bool)
      modifies this`queues
      ensures var full := q in old(queues) && old(queues)[q].open && |old(queues)[q].buffer| >= QUEUE_CAPACITY;
              var before := if full then old(queues)[q := Relieved(old(queues)[q], relief)] else old(queues);
              && (ok <==> q in before && before[q].open)
              && queues == if ok then before[q := before[q].(buffer := before[q].buffer + [request])] else before
    {
      if q in queues && queues[q].open && |queues[q].buffer| >= QUEUE_CAPACITY {
        queues := queues[q := Relieved(queues[q], relief)];
      }
      ok := q in queues && queues[q].open;
      if ok {
        queues := queues[q := queues[q].(buffer := queues[q].buffer + [request])];
      }
    }
  }

  class Session {
    const id: string
    const clientId: string
    const createdAt: nat
    var lastActivity: nat
    var readers: map<string, ReaderInfo>
    var channel: Option<Channel>

    function View(): SessionState
      reads this
    {
      SessionState(clientId, createdAt, lastActivity, readers, channel)
    }

    constructor (clientId: string, id: string, now: nat)
      ensures this.id == id && View() == NewSession(clientId, now)
    {
      this.id := id;
      this.clientId := clientId;
      this.createdAt := now;
      this.lastActivity := now;
      this.readers := map[];
      this.channel := None;
    }

    method Touch(now: nat)
      modifies this`lastActivity
      ensures View() == old(View()).(lastActivity := now)
    {
      lastActivity := now;
    }

    method IsExpired(now: nat, timeoutSecs: nat) returns (expired: bool)
      ensures expired <==> now - lastActivity >= (timeoutSecs + 1) * NANOS_PER_SECOND
      ensures expired <==> Spec.IsExpired(View(), now, timeoutSecs)
    {
      var elapsed := if now >= lastActivity then now - lastActivity else 0;
      expired := elapsed / NANOS_PER_SECOND > timeoutSecs;
    }

    method UpdateReader(name: string, atr: seq<byte>, cardPresent: bool)
      modifies this`readers
      ensures View() == Spec.UpdateReader(old(View()), name, atr, cardPresent)
    {
      readers := readers[name := ReaderInfo(name, atr, cardPresent)];
    }

    /** Replacing the channel drops the old one with everything pending in it. */
    method SetCommandChannel(rt: SharedRuntime, queue: nat)
      modifies this`channel, rt`oneshots
      ensures Updated(View(), rt.View()) == Spec.SetChannel(old(View()), old(rt.View()), queue)
    {
      rt.Drop(PendingSerials(View()));
      channel := Some(Channel(queue, map[]));
    }

    method ClearCommandChannel(rt: SharedRuntime)
      modifies this`channel, rt`oneshots
      ensures Updated(View(), rt.View()) == Spec.ClearChannel(old(View()), old(rt.View()))
    {
      if channel.Some? {
        rt.Drop(PendingSerials(View()));
        channel := None;
      } else {
        NoneDropped(rt.oneshots);
      }
    }

    /** Insert a pending command; a sender already filed under the id is dropped. */
    method FilePending(rt: SharedRuntime, commandId: u64, serial: Serial)
      requires channel.Some?
      modifies this`channel, rt`oneshots
      ensures var ch := old(channel).value;
              var displaced := if commandId in ch.pending then {ch.pending[commandId]} else {};
              && channel == Some(ch.(pending := ch.pending[commandId := serial]))
              && rt.oneshots == DropSenders(old(rt.oneshots), displaced)
    {
      var ch := channel.value;
      if commandId in ch.pending {
        rt.Drop({ch.pending[commandId]});
      } else {
        NoneDropped(rt.oneshots);
      }
      channel := Some(ch.(pending := ch.pending[commandId := serial]));
    }

    /** The command is numbered and filed before the call waits for room; all the same the outcome
        is that of sending once there is room. */
    method SendCommandAsync(rt: SharedRuntime, command: Command, reader: string, relief: Relief) returns (result: SendResult)
      requires rt.Valid()
      modifies this`channel, rt
      ensures rt.Valid()
      ensures Sending(View(), rt.View(), result)
                == Spec.SendCommand(old(View()), AfterWaiting(old(View()), old(rt.View()), relief), command, reader)
    {
      if channel.None? {
        return NotConnected;
      }
      var commandId := rt.NextCommandId();
      var serial := rt.issued;
      FilePending(rt, commandId, serial);
      var ok := rt.Enqueue(channel.value.queue, CommandRequest(commandId, Some(command), reader), relief);
      // On an error the receiver is dropped; the sender stays pending.
      rt.oneshots := rt.oneshots[serial := Oneshot(Empty, ok)];
      result := if ok then Sent(serial) else SendFailed;
    }

    method HandleResponse(rt: SharedRuntime, response: CommandResponse) returns (result: Result<(), Refusal>)
      requires channel.Some? ==> channel.value.pending.Values <= rt.oneshots.Keys
      modifies this`channel, rt`oneshots
      ensures Handling(View(), rt.View(), result) == Spec.HandleResponse(old(View()), old(rt.View()), response)
    {
      if channel.None? {
        return Failure(NoChannel);
      }
      var ch := channel.value;
      var commandId := response.commandId;
      if commandId in ch.pending {
        var serial := ch.pending[commandId];
        channel := Some(ch.(pending := ch.pending - {commandId}));
        var _ := rt.Complete(serial, response);
        return Success(());
      }
      return Failure(UnknownCommand);
    }
  }

  lemma NoneDropped(oneshots: map<Serial, Oneshot>)
    ensures DropSenders(oneshots, {}) == oneshots
  {
  }

  lemma NothingRemoved(t: Table, rt: Runtime)
    ensures RemoveAll(t, rt, {}) == TableChange(t, rt)
  {
    NoneDropped(rt.oneshots);
    assert PendingIn(t, {}) == {};
  }

  lemma DropTwice(oneshots: map<Serial, Oneshot>, a: set<Serial>, b: set<Serial>)
    ensures DropSenders(DropSenders(oneshots, a), b) == DropSenders(oneshots, a + b)
  {
  }

  lemma PendingSplit(t: Table, done: set<string>, sid: string)
    requires sid !in done
    ensures PendingIn(t, done) + PendingIn(t - done, {sid}) == PendingIn(t, done + {sid})
  {
    forall k | k in PendingIn(t, done + {sid})
      ensures k in PendingIn(t, done) + PendingIn(t - done, {sid})
    {
      var s :| s in done + {sid} && s in t && k in PendingSerials(t[s]);
      if s !in done { assert (t - done)[s] == t[s]; }
    }
    forall k | k in PendingIn(t - done, {sid})
      ensures k in PendingIn(t, done + {sid})
    {
      assert k in PendingSerials(t[sid]);
    }
  }

  /** Removing one more session after some others is removing them all. */
  lemma RemovedOneMore(t: Table, rt: Runtime, done: set<string>, sid: string)
    requires sid !in done
    ensures var first := RemoveAll(t, rt, done); RemoveAll(first.table, first.runtime, {sid}) == RemoveAll(t, rt, done + {sid})
  {
    PendingSplit(t, done, sid);
    DropTwice(rt.oneshots, PendingIn(t, done), PendingIn(t - done, {sid}));
    assert (t - done) - {sid} == t - (done + {sid});
  }

  class SessionManager {
    var sessions: map<string, Session>
    var timeoutSecs: nat

    /** Every session is filed under its own id, so that no object is filed twice. */
    ghost predicate Valid()
      reads this
    {
      forall sid | sid in sessions :: sessions[sid].id == sid
    }

    ghost function View(): Table
      reads this, sessions.Values
    {
      map sid | sid in sessions :: sessions[sid].View()
    }

    constructor ()
      ensures Valid() && View() == map[] && timeoutSecs == DEFAULT_TIMEOUT_SECS
    {
      sessions := map[];
      timeoutSecs := DEFAULT_TIMEOUT_SECS;
    }

    method CreateSession(clientId: string, sid: string, now: nat) returns (session: Session)
      requires Valid() && sid !in sessions
      modifies this`sessions
      ensures Valid() && fresh(session) && session.id == sid
      ensures sessions == old(sessions)[sid := session]
      ensures View() == old(View())[sid := NewSession(clientId, now)]
    {
      session := new Session(clientId, sid, now);
      sessions := sessions[sid := session];
    }

    method TouchSession(sid: string, now: nat) returns (found: bool)
      requires Valid()
      modifies sessions.Values
      ensures Valid() && sessions == old(sessions)
      ensures found <==> sid in sessions
      ensures View() == Spec.Touch(old(View()), sid, now)
    {
      if sid in sessions {
        sessions[sid].Touch(now);
        found := true;
      } else {
        found := false;
      }
    }

    method UpdateReader(sid: string, name: string, atr: seq<byte>, cardPresent: bool) returns (known: bool, isNew: bool)
      requires Valid()
      modifies sessions.Values
      ensures Valid() && sessions == old(sessions)
      ensures known <==> sid in old(View())
      ensures known ==> (isNew <==> name !in old(View())[sid].readers)
      ensures View() == if known then old(View())[sid := Spec.UpdateReader(old(View())[sid], name, atr, cardPresent)]
                        else old(View())
    {
      known, isNew := false, false;
      if sid in sessions {
        known := true;
        isNew := name !in sessions[sid].readers;
        sessions[sid].UpdateReader(name, atr, cardPresent);
      }
    }

    /** The session is handed to the caller, with its channel as it was. */
    method RemoveSession(sid: string) returns (removed: Option<Session>)
      requires Valid()
      modifies this`sessions
      ensures Valid() && sessions == old(sessions) - {sid} && View() == old(View()) - {sid}
      ensures removed == if sid in old(sessions) then Some(old(sessions)[sid]) else None
      ensures removed.Some? ==> removed.value.View() == old(View())[sid]
    {
      removed := if sid in sessions then Some(sessions[sid]) else None;
      sessions := sessions - {sid};
    }

    /** Remove a session and drop it, with its channel. */
    method DropSession(rt: SharedRuntime, sid: string)
      requires Valid()
      modifies this`sessions, rt`oneshots
      ensures Valid() && timeoutSecs == old(timeoutSecs)
      ensures sessions == old(sessions) - {sid}
      ensures TableChange(View(), rt.View()) == Spec.RemoveAll(old(View()), old(rt.View()), {sid})
    {
      ghost var before := View();
      var removed := RemoveSession(sid);
      if removed.Some? {
        assert PendingIn(before, {sid}) == PendingSerials(before[sid]);
        rt.Drop(PendingSerials(removed.value.View()));
      } else {
        assert PendingIn(before, {sid}) == {};
        NoneDropped(rt.oneshots);
      }
    }

    /** Collect the expired ids, then remove them one by one. */
    method CleanupExpired(rt: SharedRuntime, now: nat) returns (expired: seq<string>)
      requires Valid()
      modifies this`sessions, rt`oneshots
      ensures Valid() && timeoutSecs == old(timeoutSecs)
      ensures TableChange(View(), rt.View()) == Spec.CleanupExpired(old(View()), old(rt.View()), now, timeoutSecs)
      ensures forall sid :: sid in expired <==> sid in ExpiredIds(old(View()), now, timeoutSecs)
      ensures forall i, j :: 0 <= i < j < |expired| ==> expired[i] != expired[j]
    {
      hide Spec.RemoveAll, IsExpired;
      ghost var before, rtBefore := View(), rt.View();
      expired := ListExpired(now);
      ghost var done: set<string> := {};
      NothingRemoved(before, rtBefore);
      var i := 0;
      while i < |expired|
        invariant 0 <= i <= |expired|
        invariant Valid() && timeoutSecs == old(timeoutSecs)
        invariant done == set k | 0 <= k < i :: expired[k]
        invariant TableChange(View(), rt.View()) == Spec.RemoveAll(before, rtBefore, done)
      {
        var sid := expired[i];
        DropSession(rt, sid);
        RemovedOneMore(before, rtBefore, done, sid);
        done := done + {sid};
        i := i + 1;
      }
      assert done == ExpiredIds(before, now, timeoutSecs);
    }

    method ListExpired(now: nat) returns (expired: seq<string>)
      requires Valid()
      ensures forall sid :: sid in expired <==> sid in ExpiredIds(View(), now, timeoutSecs)
      ensures forall i, j :: 0 <= i < j < |expired| ==> expired[i] != expired[j]
    {
      expired := [];
      var todo := sessions.Keys;
      while todo != {}
        invariant todo <= sessions.Keys
        invariant forall sid :: sid in expired <==> sid !in todo && sid in ExpiredIds(View(), now, timeoutSecs)
        invariant forall i, j :: 0 <= i < j < |expired| ==> expired[i] != expired[j]
        decreases |todo|
      {
        var sid :| sid in todo;
        var stale := sessions[sid].IsExpired(now, timeoutSecs);
        if stale {
          expired := expired + [sid];
        }
        todo := todo - {sid};
      }
    }
  }
}
