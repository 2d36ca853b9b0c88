/** Every step keeps commands, one-shots and pending tables correlated. */
module CorePreservation {
  import opened Prelude
  import opened Messages
  import opened CardSlot
  import opened SessionSpec
  import opened VpcdSpec
  import opened ClientCommands
  import opened World
  import opened Correlation
  import opened Invariant

  /** The parts of the world that correlation is about. */
  ghost predicate SameCore(w: World, w': World) {
    && ChannelsOf(w'.table) == ChannelsOf(w.table)
    && w'.runtime == w.runtime && w'.issues == w.issues && w'.executed == w.executed
  }

  ghost predicate CoreOk(w: World) {
    Correlated(ChannelsOf(w.table), w.runtime, w.issues, w.executed)
  }

  // ---------------------------------------------------------------------------------------
  // Channels of a changed table

  lemma ChannelsWithout(t: Table, ids: set<string>)
    ensures ChannelsOf(t - ids) == ChannelsOf(t) - ids
  {
  }

  lemma ChannelsUpdated(t: Table, sid: string, s: SessionState)
    ensures ChannelsOf(t[sid := s])
              == if s.channel.Some? then ChannelsOf(t)[sid := s.channel.value] else ChannelsOf(t) - {sid}
  {
  }

  lemma ChannelsUntouched(t: Table, sid: string, s: SessionState)
    requires if sid in t then t[sid].channel == s.channel else s.channel.None?
    ensures ChannelsOf(t[sid := s]) == ChannelsOf(t)
  {
  }

  lemma PendingOfChannels(t: Table, ids: set<string>)
    ensures IsPendingSet(ChannelsOf(t), ids, PendingIn(t, ids))
  {
    var ch := ChannelsOf(t);
    forall sid, id | sid in ids && sid in ch && id in ch[sid].pending
      ensures ch[sid].pending[id] in PendingIn(t, ids)
    {
      assert ch[sid].pending[id] in PendingSerials(t[sid]);
    }
    forall k | k in PendingIn(t, ids)
      ensures exists sid, id :: sid in ids && sid in ch && id in ch[sid].pending && ch[sid].pending[id] == k
    {
      var sid :| sid in ids && sid in t && k in PendingSerials(t[sid]);
      var id :| id in ch[sid].pending && ch[sid].pending[id] == k;
    }
  }

  lemma RemovalKeepsCorrelated(w: World, ids: set<string>)
    requires Correlated(ChannelsOf(w.table), w.runtime, w.issues, w.executed)
    ensures var c := RemoveAll(w.table, w.runtime, ids);
            Correlated(ChannelsOf(c.table), c.runtime, w.issues, w.executed)
  {
    PendingOfChannels(w.table, ids);
    ChannelsWithout(w.table, ids);
    DropChannels(ChannelsOf(w.table), w.runtime, w.issues, w.executed, ids, PendingIn(w.table, ids));
  }

  lemma OneSessionsPending(t: Table, sid: string)
    requires sid in t
    ensures PendingIn(t, {sid}) == PendingSerials(t[sid])
  {
  }

  lemma ClearingKeepsCorrelated(w: World, sid: string)
    requires Correlated(ChannelsOf(w.table), w.runtime, w.issues, w.executed)
    requires sid in w.table
    ensures var u := ClearChannel(w.table[sid], w.runtime);
            Correlated(ChannelsOf(w.table) - {sid}, u.runtime, w.issues, w.executed)
  {
    PendingOfChannels(w.table, {sid});
    OneSessionsPending(w.table, sid);
    DropChannels(ChannelsOf(w.table), w.runtime, w.issues, w.executed, {sid}, PendingSerials(w.table[sid]));
  }

  lemma RespondKeepsCorrelated(w: World, sid: string, j: nat)
    requires Correlated(ChannelsOf(w.table), w.runtime, w.issues, w.executed)
    requires j < |w.executed| && HonestResponse(w.executed[j])
    requires w.runtime.issued <= U64_MODULUS
    ensures var w' := DoRespond(w, sid, w.executed[j].response);
            Correlated(ChannelsOf(w'.table), w'.runtime, w'.issues, w'.executed)
  {
    var response := w.executed[j].response;
    if sid in w.table {
      var ch := ChannelsOf(w.table);
      var h := HandleResponse(w.table[sid], w.runtime, response);
      ChannelsUpdated(w.table, sid, h.session);
      if h.result.Success? {
        assert AnsweredBy(w.executed, SerialOf(response.commandId), response);
        CompleteOne(ch, w.runtime, w.issues, w.executed, sid, response);
      } else {
        ChannelsUntouched(w.table, sid, h.session);
      }
    }
  }

  /** With a fresh id nothing is displaced: a send files one more pending command. */
  lemma SendFiles(s: SessionState, rt: Runtime, command: Command, reader: string)
    requires s.channel.Some? && IdOf(rt.issued + 1) !in s.channel.value.pending
    ensures var r := SendCommand(s, rt, command, reader);
            var k := rt.issued + 1;
            && r.result != NotConnected
            && r.session.channel == Some(s.channel.value.(pending := s.channel.value.pending[IdOf(k) := k]))
            && r.runtime == Runtime(k, rt.oneshots[k := Oneshot(Empty, r.result.Sent?)], r.runtime.queues)
            && (r.result.Sent? ==> r.result.serial == k)
  {
  }

  /** What sending a vpcd client's command changes, when its id is fresh. */
  lemma SendEffects(w: World, i: nat, t: Task)
    requires CanSend(w, t.sessionId) && t.phase.Ready?
    requires IdOf(w.runtime.issued + 1) !in w.table[t.sessionId].channel.value.pending
    ensures var sid := t.sessionId;
            var channel := w.table[sid].channel.value;
            var command := CommandFor(t.phase.request);
            var k := w.runtime.issued + 1;
            var s := SendingOf(w, t);
            var w' := SendFor(w, i, t);
            && ChannelsOf(w'.table) == ChannelsOf(w.table)[sid := channel.(pending := channel.pending[IdOf(k) := k])]
            && w'.runtime == Runtime(k, w.runtime.oneshots[k := Oneshot(Empty, s.result.Sent?)], s.runtime.queues)
            && w'.issues == w.issues[k := Issue(sid, t.readerName, command, channel.queue, i)]
            && (s.result.Sent? ==> s.result.serial == k)
  {
    var sid := t.sessionId;
    SendFiles(w.table[sid], w.runtime, CommandFor(t.phase.request), t.readerName);
    ChannelsUpdated(w.table, sid, SendingOf(w, t).session);
  }

  lemma SendKeepsCore(w: World, i: nat, t: Task)
    requires CoreOk(w) && CanSend(w, t.sessionId) && t.phase.Ready?
    requires w.runtime.issued + 1 <= U64_MODULUS
    ensures CoreOk(SendFor(w, i, t))
  {
    var sid := t.sessionId;
    var s := SendingOf(w, t);
    FreshId(ChannelsOf(w.table), w.runtime, w.issues, sid);
    SendEffects(w, i, t);
    IssueOne(ChannelsOf(w.table), w.runtime, w.issues, w.executed, sid, s.result.Sent?,
             Issue(sid, t.readerName, CommandFor(t.phase.request), w.table[sid].channel.value.queue, i), s.runtime.queues);
  }

  lemma SendCounts(w: World, i: nat, t: Task)
    requires CanSend(w, t.sessionId) && t.phase.Ready?
    ensures SendFor(w, i, t).runtime.issued == w.runtime.issued + 1
  {
  }

  lemma RegisterStreamKeepsCorrelated(w: World, q: nat)
    requires Correlated(ChannelsOf(w.table), w.runtime, w.issues, w.executed)
    requires StreamEnabled(w, q, RegisterStream)
    ensures var w' := DoRegisterStream(w, q);
            Correlated(ChannelsOf(w'.table), w'.runtime, w'.issues, w'.executed)
  {
    var sid := w.streams[q].sessionId;
    if sid in w.table {
      var u := SetChannel(w.table[sid], w.runtime, q);
      ClearingKeepsCorrelated(w, sid);
      AttachChannel(ChannelsOf(w.table) - {sid}, u.runtime, w.issues, w.executed, sid, q);
      ChannelsUpdated(w.table, sid, u.session);
      assert (ChannelsOf(w.table) - {sid})[sid := Channel(q, map[])] == ChannelsOf(w.table)[sid := Channel(q, map[])];
    }
  }

  lemma EndStreamKeepsCorrelated(w: World, q: nat)
    requires Correlated(ChannelsOf(w.table), w.runtime, w.issues, w.executed)
    requires StreamEnabled(w, q, EndStream)
    ensures var w' := DoEndStream(w, q);
            Correlated(ChannelsOf(w'.table), w'.runtime, w'.issues, w'.executed)
  {
    var sid := w.streams[q].sessionId;
    if sid in w.table {
      var u := ClearChannel(w.table[sid], w.runtime);
      ClearingKeepsCorrelated(w, sid);
      ChannelsUpdated(w.table, sid, u.session);
    }
  }

  lemma RegisterSameCore(w: World, r: Registration)
    ensures SameCore(w, DoRegister(w, r))
  {
  }

  lemma HeartbeatSameCore(w: World, sid: string)
    ensures SameCore(w, w.(table := Touch(w.table, sid, w.now)))
  {
  }

  lemma TableStepKeepsCore(w: World, change: TableStep)
    requires CoreOk(w) && w.table.Keys <= w.known && TableEnabled(w, change)
    ensures CoreOk(DoTable(w, change))
  {
    match change
    case Establish(sid, clientId) => ChannelsUntouched(w.table, sid, NewSession(clientId, w.now));
    case Heartbeat(sid) => HeartbeatSameCore(w, sid);
    case Register(r) => RegisterSameCore(w, r);
    case Remove(sid) => RemovalKeepsCorrelated(w, {sid});
    case Cleanup => RemovalKeepsCorrelated(w, ExpiredIds(w.table, w.now, w.timeoutSecs));
    case _ =>
  }

  lemma SetQueueKeepsCore(w: World, q: nat, queue: Queue)
    requires CoreOk(w)
    ensures CoreOk(SetQueue(w, q, queue))
  {
  }

  lemma StreamStepKeepsCore(w: World, q: nat, event: StreamStep)
    requires CoreOk(w) && StreamEnabled(w, q, event)
    ensures CoreOk(DoStream(w, q, event))
  {
    match event
    case OpenStream(sid, client) =>
      SetQueueKeepsCore(w.(streams := w.streams[q := Stream(sid, client, Opened, [], [])]), q, Queue([], true));
    case RegisterStream => RegisterStreamKeepsCorrelated(w, q);
    case EndStream => EndStreamKeepsCorrelated(w, q);
    case BreakQueue => SetQueueKeepsCore(w, q, Queue([], false));
    case Transfer =>
      var buffer := w.runtime.queues[q].buffer;
      SetQueueKeepsCore(w.(streams := w.streams[q := w.streams[q].(wire := w.streams[q].wire + [buffer[0]])]),
                        q, Queue(buffer[1..], true));
  }

  lemma ExecuteKeepsCore(w: World, q: nat, oracle: Oracle, establish: Option<PcscError>)
    requires CoreOk(w) && q in w.streams && w.streams[q].wire != []
    ensures CoreOk(DoExecute(w, q, oracle, establish))
  {
    ExecuteOne(ChannelsOf(w.table), w.runtime, w.issues, w.executed, Last(DoExecute(w, q, oracle, establish).executed));
  }

  lemma StopKeepsCore(w: World, k: Serial)
    requires CoreOk(w)
    ensures CoreOk(w.(runtime := StopReceiving(w.runtime, k)))
  {
  }

  lemma TaskStepKeepsCore(w: World, i: nat, action: TaskStep)
    requires CoreOk(w) && i < |w.tasks| && TaskEnabled(w, w.tasks[i], action)
    requires DoTask(w, i, action).runtime.issued <= U64_MODULUS
    ensures CoreOk(DoTask(w, i, action))
  {
    var t := w.tasks[i];
    match action
    case IssueCommand =>
      if CanSend(w, t.sessionId) {
        SendCounts(w, i, t);
        SendKeepsCore(w, i, t);
      }
    case Resume => StopKeepsCore(w, t.phase.serial);
    case TimeOut => StopKeepsCore(w, t.phase.serial);
    case _ =>
  }
}
