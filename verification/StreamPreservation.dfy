/** Every step keeps command streams in order: what a stream carries was issued for its own
    session, ids increase along it, and the client works through it from the front. */
module StreamPreservation {
  import opened Prelude
  import opened Messages
  import opened CardSlot
  import opened SessionSpec
  import opened VpcdSpec
  import opened ClientCommands
  import opened World
  import opened Correlation
  import opened Invariant
  import opened CorePreservation

  // ---------------------------------------------------------------------------------------
  // Channels keep sending to streams of their own session

  ghost predicate StreamsKept(streams: map<nat, Stream>, streams': map<nat, Stream>) {
    forall q | q in streams :: q in streams' && streams'[q].sessionId == streams[q].sessionId
  }

  lemma ServedLater(ch: Channels, ch': Channels, streams: map<nat, Stream>, streams': map<nat, Stream>)
    requires ChannelsServed(ch, streams)
    requires StreamsKept(streams, streams')
    requires forall sid | sid in ch' :: sid in ch && ch'[sid].queue == ch[sid].queue
    ensures ChannelsServed(ch', streams')
  {
  }

  lemma TableStepKeepsServed(w: World, change: TableStep)
    requires ChannelsServed(ChannelsOf(w.table), w.streams)
    requires w.table.Keys <= w.known && TableEnabled(w, change)
    ensures var w' := DoTable(w, change); ChannelsServed(ChannelsOf(w'.table), w'.streams)
  {
    match change
    case Establish(sid, clientId) => ChannelsUntouched(w.table, sid, NewSession(clientId, w.now));
    case Heartbeat(sid) => HeartbeatSameCore(w, sid);
    case Register(r) => RegisterSameCore(w, r);
    case Remove(sid) => ChannelsWithout(w.table, {sid});
    case Cleanup => ChannelsWithout(w.table, ExpiredIds(w.table, w.now, w.timeoutSecs));
    case _ =>
  }

  lemma StreamStepKeepsServed(w: World, q: nat, event: StreamStep)
    requires ChannelsServed(ChannelsOf(w.table), w.streams)
    requires StreamEnabled(w, q, event)
    ensures var w' := DoStream(w, q, event); ChannelsServed(ChannelsOf(w'.table), w'.streams)
  {
    var w' := DoStream(w, q, event);
    match event
    case RegisterStream =>
      var sid := w.streams[q].sessionId;
      if sid in w.table { ChannelsUpdated(w.table, sid, SetChannel(w.table[sid], w.runtime, q).session); }
    case EndStream =>
      var sid := w.streams[q].sessionId;
      if sid in w.table { ChannelsUpdated(w.table, sid, ClearChannel(w.table[sid], w.runtime).session); }
    case _ => ServedLater(ChannelsOf(w.table), ChannelsOf(w'.table), w.streams, w'.streams);
  }

  lemma RespondKeepsServed(w: World, sid: string, response: CommandResponse)
    requires ChannelsServed(ChannelsOf(w.table), w.streams)
    ensures var w' := DoRespond(w, sid, response); ChannelsServed(ChannelsOf(w'.table), w'.streams)
  {
    if sid in w.table {
      var s := HandleResponse(w.table[sid], w.runtime, response).session;
      if s.channel.Some? {
        ChannelsUpdated(w.table, sid, s);
        ServedLater(ChannelsOf(w.table), ChannelsOf(w.table[sid := s]), w.streams, w.streams);
      } else {
        ChannelsUntouched(w.table, sid, s);
      }
    }
  }

  // ---------------------------------------------------------------------------------------
  // Streams

  /** Everything about streams that a step may not disturb. */
  ghost predicate SameStreams(w: World, w': World) {
    && w'.streams == w.streams && w'.runtime.queues == w.runtime.queues
    && w'.issues == w.issues && w'.executed == w.executed
  }

  ghost predicate OrderOk(w: World) {
    StreamsOk(w.streams, w.runtime.queues, w.issues, w.executed)
  }

  lemma TableStepSameStreams(w: World, change: TableStep)
    requires TableEnabled(w, change)
    ensures SameStreams(w, DoTable(w, change))
  {
  }

  lemma RespondSameStreams(w: World, sid: string, response: CommandResponse)
    ensures SameStreams(w, DoRespond(w, sid, response))
  {
  }

  lemma OpenKeepsOrder(w: World, q: nat, sid: string, client: nat)
    requires OrderOk(w) && q !in w.streams
    ensures OrderOk(DoStream(w, q, OpenStream(sid, client)))
  {
    NothingExecuted(w.executed, q);
  }

  lemma {:induction false} NothingExecuted(executed: seq<Execution>, q: nat)
    requires forall j :: 0 <= j < |executed| ==> executed[j].stream != q
    ensures ExecutedOn(executed, q) == []
  {
    if executed != [] {
      NothingExecuted(executed[..|executed| - 1], q);
    }
  }

  lemma PhaseKeepsOrder(w: World, q: nat, phase: StreamPhase)
    requires OrderOk(w) && q in w.streams
    ensures StreamsOk(w.streams[q := w.streams[q].(phase := phase)], w.runtime.queues, w.issues, w.executed)
  {
  }

  lemma BreakKeepsOrder(w: World, q: nat)
    requires OrderOk(w) && StreamEnabled(w, q, BreakQueue)
    ensures OrderOk(SetQueue(w, q, Queue([], false)))
  {
    var s, queue, done := w.streams[q], w.runtime.queues[q], ExecutedOn(w.executed, q);
    assert StreamOk(q, s, queue, w.issues, done);
    assert done + s.wire + [] == done + s.wire;
    assert done + s.wire <= done + s.wire + queue.buffer;
  }

  lemma TransferKeepsOrder(w: World, q: nat)
    requires OrderOk(w) && StreamEnabled(w, q, Transfer)
    ensures OrderOk(DoStream(w, q, Transfer))
  {
    hide QueuedRight, Increasing;
    var w' := DoStream(w, q, Transfer);
    var s, queue, done := w.streams[q], w.runtime.queues[q], ExecutedOn(w.executed, q);
    assert StreamOk(q, s, queue, w.issues, done);
    assert done + (s.wire + [queue.buffer[0]]) + queue.buffer[1..] == done + s.wire + queue.buffer;
    forall p | p in w'.streams
      ensures p in w'.runtime.queues
           && StreamOk(p, w'.streams[p], w'.runtime.queues[p], w'.issues, ExecutedOn(w'.executed, p))
    {
      assert StreamOk(p, w.streams[p], w.runtime.queues[p], w.issues, ExecutedOn(w.executed, p));
    }
  }

  lemma StreamStepKeepsOrder(w: World, q: nat, event: StreamStep)
    requires OrderOk(w) && StreamEnabled(w, q, event)
    ensures OrderOk(DoStream(w, q, event))
  {
    match event
    case OpenStream(sid, client) => OpenKeepsOrder(w, q, sid, client);
    case RegisterStream => PhaseKeepsOrder(w, q, if w.streams[q].sessionId in w.table then Registered else Ended);
    case EndStream => PhaseKeepsOrder(w, q, Ended);
    case BreakQueue => BreakKeepsOrder(w, q);
    case Transfer => TransferKeepsOrder(w, q);
  }

  lemma ExecutedOnAppend(executed: seq<Execution>, e: Execution, q: nat)
    ensures ExecutedOn(executed + [e], q) == ExecutedOn(executed, q) + if e.stream == q then [e.request] else []
  {
  }

  lemma TakeFromWire(q: nat, s: Stream, queue: Queue, issues: map<Serial, Issue>, done: seq<CommandRequest>)
    requires StreamOk(q, s, queue, issues, done) && s.wire != []
    ensures StreamOk(q, s.(wire := s.wire[1..]), queue, issues, done + [s.wire[0]])
  {
  }

  lemma FirstOnWireKeepsOrder(streams: map<nat, Stream>, queues: map<nat, Queue>, issues: map<Serial, Issue>,
                              executed: seq<Execution>, q: nat, e: Execution)
    requires StreamsOk(streams, queues, issues, executed)
    requires q in streams && streams[q].wire != [] && e.stream == q && e.request == streams[q].wire[0]
    ensures StreamsOk(streams[q := streams[q].(wire := streams[q].wire[1..])], queues, issues, executed + [e])
  {
    hide StreamOk;
    var streams' := streams[q := streams[q].(wire := streams[q].wire[1..])];
    forall p | p in streams'
      ensures p in queues && StreamOk(p, streams'[p], queues[p], issues, ExecutedOn(executed + [e], p))
    {
      ExecutedOnAppend(executed, e, p);
      if p == q {
        TakeFromWire(q, streams[q], queues[q], issues, ExecutedOn(executed, q));
      } else {
        assert ExecutedOn(executed, p) + [] == ExecutedOn(executed, p);
      }
    }
  }

  lemma ExecuteKeepsOrder(w: World, q: nat, oracle: Oracle, establish: Option<PcscError>)
    requires OrderOk(w) && q in w.streams && w.streams[q].wire != []
    ensures OrderOk(DoExecute(w, q, oracle, establish))
  {
    FirstOnWireKeepsOrder(w.streams, w.runtime.queues, w.issues, w.executed, q,
                          Last(DoExecute(w, q, oracle, establish).executed));
  }

  /** A request with a serial above all issued so far may join the end of a stream. */
  lemma AppendKeepsStream(q: nat, s: Stream, queue: Queue, issues: map<Serial, Issue>, done: seq<CommandRequest>,
                          issued: nat, r: CommandRequest, issue: Issue)
    requires StreamOk(q, s, queue, issues, done)
    requires queue.open && |queue.buffer| < QUEUE_CAPACITY
    requires forall k: Serial :: k in issues <==> 1 <= k <= issued
    requires issued + 1 <= U64_MODULUS
    requires r.commandId == IdOf(issued + 1)
    requires issue.sessionId == s.sessionId && issue.readerName == r.readerName && issue.stream == q
    requires r.command == Some(issue.command)
    ensures StreamOk(q, s.(sent := s.sent + [r]), queue.(buffer := queue.buffer + [r]), issues[issued + 1 := issue], done)
  {
    SerialOfId(issued + 1);
    var s' := s.(sent := s.sent + [r]);
    forall i | 0 <= i < |s'.sent|
      ensures QueuedRight(s'.sent[i], q, s.sessionId, issues[issued + 1 := issue])
    {
      if i < |s.sent| { assert QueuedRight(s.sent[i], q, s.sessionId, issues); }
    }
    forall i, j | 0 <= i < j < |s'.sent|
      ensures SerialOf(s'.sent[i].commandId) < SerialOf(s'.sent[j].commandId)
    {
      assert QueuedRight(s.sent[i], q, s.sessionId, issues);
    }
    assert done + s.wire + (queue.buffer + [r]) == (done + s.wire + queue.buffer) + [r];
  }

  lemma MoreIssuesKeepStream(q: nat, s: Stream, queue: Queue, issues: map<Serial, Issue>, done: seq<CommandRequest>,
                             k: Serial, issue: Issue)
    requires StreamOk(q, s, queue, issues, done) && k !in issues
    ensures StreamOk(q, s, queue, issues[k := issue], done)
  {
  }

  lemma AppendKeepsStreams(streams: map<nat, Stream>, queues: map<nat, Queue>, issues: map<Serial, Issue>,
                           executed: seq<Execution>, issued: nat, q: nat, r: CommandRequest, issue: Issue)
    requires StreamsOk(streams, queues, issues, executed)
    requires q in streams && q in queues && queues[q].open && |queues[q].buffer| < QUEUE_CAPACITY
    requires forall k: Serial :: k in issues <==> 1 <= k <= issued
    requires issued + 1 <= U64_MODULUS
    requires r.commandId == IdOf(issued + 1)
    requires issue.sessionId == streams[q].sessionId && issue.readerName == r.readerName && issue.stream == q
    requires r.command == Some(issue.command)
    ensures StreamsOk(Queued(streams, q, r), queues[q := queues[q].(buffer := queues[q].buffer + [r])],
                      issues[issued + 1 := issue], executed)
  {
    var streams' := Queued(streams, q, r);
    var queues' := queues[q := queues[q].(buffer := queues[q].buffer + [r])];
    forall p | p in streams'
      ensures p in queues'
           && StreamOk(p, streams'[p], queues'[p], issues[issued + 1 := issue], ExecutedOn(executed, p))
    {
      if p == q {
        AppendKeepsStream(q, streams[q], queues[q], issues, ExecutedOn(executed, q), issued, r, issue);
      } else {
        MoreIssuesKeepStream(p, streams[p], queues[p], issues, ExecutedOn(executed, p), issued + 1, issue);
      }
    }
  }

  lemma MoreIssuesKeepStreams(streams: map<nat, Stream>, queues: map<nat, Queue>, issues: map<Serial, Issue>,
                              executed: seq<Execution>, k: Serial, issue: Issue)
    requires StreamsOk(streams, queues, issues, executed) && k !in issues
    ensures StreamsOk(streams, queues, issues[k := issue], executed)
  {
  }

  /** What sending a vpcd client's command changes about streams. */
  lemma SendStreamEffects(w: World, i: nat, t: Task)
    requires CanSend(w, t.sessionId) && t.phase.Ready?
    requires w.table[t.sessionId].channel.value.queue in w.runtime.queues
    ensures var q := w.table[t.sessionId].channel.value.queue;
            var k := w.runtime.issued + 1;
            var queue := w.runtime.queues[q];
            var r := CommandRequest(IdOf(k), Some(CommandFor(t.phase.request)), t.readerName);
            var w' := SendFor(w, i, t);
            && w'.issues == w.issues[k := Issue(t.sessionId, t.readerName, CommandFor(t.phase.request), q, i)]
            && w'.executed == w.executed
            && w'.streams == (if queue.open then Queued(w.streams, q, r) else w.streams)
            && w'.runtime.queues == (if queue.open then w.runtime.queues[q := queue.(buffer := queue.buffer + [r])]
                                     else w.runtime.queues)
  {
  }

  lemma SendKeepsOrder(w: World, i: nat, t: Task)
    requires OrderOk(w) && ChannelsServed(ChannelsOf(w.table), w.streams) && Numbered(w.runtime, w.issues)
    requires CanSend(w, t.sessionId) && t.phase.Ready? && HasRoom(w.table[t.sessionId], w.runtime)
    requires w.runtime.issued + 1 <= U64_MODULUS
    ensures OrderOk(SendFor(w, i, t))
  {
    var sid, command := t.sessionId, CommandFor(t.phase.request);
    var q := w.table[sid].channel.value.queue;
    var k := w.runtime.issued + 1;
    var issue := Issue(sid, t.readerName, command, q, i);
    assert ChannelsOf(w.table)[sid].queue == q;
    SendStreamEffects(w, i, t);
    if w.runtime.queues[q].open {
      AppendKeepsStreams(w.streams, w.runtime.queues, w.issues, w.executed, w.runtime.issued, q,
                         CommandRequest(IdOf(k), Some(command), t.readerName), issue);
    } else {
      MoreIssuesKeepStreams(w.streams, w.runtime.queues, w.issues, w.executed, k, issue);
    }
  }

  lemma SendKeepsServed(w: World, i: nat, t: Task)
    requires ChannelsServed(ChannelsOf(w.table), w.streams)
    requires CanSend(w, t.sessionId) && t.phase.Ready?
    ensures var w' := SendFor(w, i, t); ChannelsServed(ChannelsOf(w'.table), w'.streams)
  {
    var w' := SendFor(w, i, t);
    ChannelsUpdated(w.table, t.sessionId, SendingOf(w, t).session);
    ServedLater(ChannelsOf(w.table), ChannelsOf(w'.table), w.streams, w'.streams);
  }

  lemma TaskStepKeepsOrder(w: World, i: nat, action: TaskStep)
    requires OrderOk(w) && ChannelsServed(ChannelsOf(w.table), w.streams) && Numbered(w.runtime, w.issues)
    requires i < |w.tasks| && TaskEnabled(w, w.tasks[i], action)
    requires DoTask(w, i, action).runtime.issued <= U64_MODULUS
    ensures var w' := DoTask(w, i, action);
            OrderOk(w') && ChannelsServed(ChannelsOf(w'.table), w'.streams)
  {
    var t := w.tasks[i];
    if action.IssueCommand? && CanSend(w, t.sessionId) {
      SendCounts(w, i, t);
      SendKeepsOrder(w, i, t);
      SendKeepsServed(w, i, t);
    }
  }

  // ---------------------------------------------------------------------------------------
  // Executions

  lemma ExecuteKeepsServed(w: World, q: nat, oracle: Oracle, establish: Option<PcscError>)
    requires ChannelsServed(ChannelsOf(w.table), w.streams)
    requires q in w.streams && w.streams[q].wire != []
    ensures var w' := DoExecute(w, q, oracle, establish); ChannelsServed(ChannelsOf(w'.table), w'.streams)
  {
  }

  /** The next request a client takes up is one that was queued on its stream. */
  lemma NextWasSent(w: World, q: nat)
    requires OrderOk(w) && q in w.streams && w.streams[q].wire != []
    ensures QueuedRight(w.streams[q].wire[0], q, w.streams[q].sessionId, w.issues)
  {
    var s, queue, done := w.streams[q], w.runtime.queues[q], ExecutedOn(w.executed, q);
    assert StreamOk(q, s, queue, w.issues, done);
    assert (done + s.wire + queue.buffer)[|done|] == s.wire[0];
    assert QueuedRight(s.sent[|done|], q, s.sessionId, w.issues);
  }

  lemma ExecutesHonestly(sid: string, request: CommandRequest, slot: Slot, oracle: Oracle,
                         establish: Option<PcscError>, q: nat, client: nat)
    ensures var e := ProcessCommand(sid, request, slot, oracle, establish);
            HonestResponse(Execution(q, sid, client, request, e.events, e.response))
  {
    match request.command
    case Some(Apdu(apdu)) => ApduResponseIsCardsAnswer(sid, request, apdu, slot, oracle, establish);
    case Some(GetAtr) => AtrResponseIsCardsAtr(sid, request, slot, oracle, establish);
    case _ =>
  }

  lemma ExecuteKeepsExecutions(w: World, q: nat, oracle: Oracle, establish: Option<PcscError>)
    requires OrderOk(w) && ExecutionsOk(w.executed, w.issues)
    requires q in w.streams && w.streams[q].wire != []
    ensures var w' := DoExecute(w, q, oracle, establish); ExecutionsOk(w'.executed, w'.issues)
  {
    var w' := DoExecute(w, q, oracle, establish);
    var s := w.streams[q];
    NextWasSent(w, q);
    ExecutesHonestly(s.sessionId, s.wire[0], CardOf(w, s.client, s.wire[0].readerName), oracle, establish, q, s.client);
    forall j | 0 <= j < |w'.executed|
      ensures QueuedRight(w'.executed[j].request, w'.executed[j].stream, w'.executed[j].sessionId, w'.issues)
           && HonestResponse(w'.executed[j])
    {
      if j < |w.executed| { assert w'.executed[j] == w.executed[j]; }
    }
  }

  lemma MoreIssuesKeepExecutions(executed: seq<Execution>, issues: map<Serial, Issue>, k: Serial, issue: Issue)
    requires ExecutionsOk(executed, issues) && k !in issues
    ensures ExecutionsOk(executed, issues[k := issue])
  {
  }
}
