/** Every step keeps vpcd clients waiting for their own commands, and every answer they have
    given justified by what a card said. */
module TaskPreservation {
  import opened Prelude
  import opened Messages
  import opened CardSlot
  import opened SessionSpec
  import opened VpcdSpec
  import opened ClientCommands
  import opened World
  import opened Correlation
  import opened Invariant
  import opened CorePreservation

  type Oneshots = map<Serial, Oneshot>

  /** One-shots persist, once used stay used, and keep their receivers. */
  ghost predicate Evolves(o: Oneshots, o': Oneshots) {
    forall k | k in o ::
      && k in o'
      && (!o[k].cell.Empty? ==> !o'[k].cell.Empty?)
      && o'[k].receiving == o[k].receiving
  }

  ghost predicate TaskPart(w: World) {
    && TasksOk(w.tasks, w.runtime.oneshots, w.issues)
    && AnswersOk(w.answers, w.runtime.oneshots, w.executed, w.registrations)
    && AnswersAsked(w.answers, w.issues)
    && CompletedOk(w.completed, w.runtime.oneshots)
  }

  lemma OneMoreAsked(answers: seq<Answer>, given: seq<Answer>, issues: map<Serial, Issue>)
    requires AnswersAsked(answers, issues) && AnswersAsked(given, issues)
    ensures AnswersAsked(answers + given, issues)
  {
  }

  /** A step that only moves one-shots forward and perhaps records another command. */
  lemma EvolvingKeepsTasks(w: World, w': World)
    requires TaskPart(w) && Evolves(w.runtime.oneshots, w'.runtime.oneshots)
    requires forall k | k in w.issues :: k in w'.issues && w'.issues[k] == w.issues[k]
    requires w'.tasks == w.tasks && w'.answers == w.answers && w'.completed == w.completed
    requires w'.executed == w.executed && w'.registrations == w.registrations
    ensures TaskPart(w')
  {
  }

  // ---------------------------------------------------------------------------------------
  // Justification is never lost

  lemma JustifiedAfterExecution(a: Answer, executed: seq<Execution>, e: Execution, registrations: seq<Registration>)
    requires Justified(a, executed, registrations)
    ensures Justified(a, executed + [e], registrations)
  {
    forall j | 0 <= j < |executed| ensures (executed + [e])[j] == executed[j] {}
    if a.source.FromCommand? {
      if a.request.ApduRequest? && CardAnswered(a, executed) {
        var j :| 0 <= j < |executed| &&
          ExecutedFor(executed[j], a.source.serial, a) && CardSaid(executed[j].events, a.request.apdu, a.bytes);
        assert (executed + [e])[j] == executed[j];
      }
      if a.request.AtrRequest? && CardIdentified(a, executed) {
        var j :| 0 <= j < |executed| &&
          ExecutedFor(executed[j], a.source.serial, a) && CardReportedAtr(executed[j].events, a.bytes);
        assert (executed + [e])[j] == executed[j];
      }
    }
  }

  lemma JustifiedAfterRegistration(a: Answer, executed: seq<Execution>, registrations: seq<Registration>, r: Registration)
    requires Justified(a, executed, registrations)
    ensures Justified(a, executed, registrations + [r])
  {
    if a.source.FromTable? && a.source.registrations <= |registrations| {
      assert (registrations + [r])[..a.source.registrations] == registrations[..a.source.registrations];
    }
    if a.checkedAt <= |registrations| {
      assert (registrations + [r])[..a.checkedAt] == registrations[..a.checkedAt];
    }
  }

  // ---------------------------------------------------------------------------------------
  // Steps of the server and the network

  lemma RegisterKeepsTasks(w: World, r: Registration)
    requires TaskPart(w)
    ensures TaskPart(DoRegister(w, r))
  {
    if r.pair.sessionId in w.table {
      forall n | 0 <= n < |w.answers|
        ensures Justified(w.answers[n], w.executed, w.registrations + [r])
      {
        JustifiedAfterRegistration(w.answers[n], w.executed, w.registrations, r);
      }
    }
  }

  lemma StartKeepsTasks(w: World, i: nat)
    requires TaskPart(w) && i < |w.starting|
    ensures TaskPart(DoStart(w, i))
  {
  }

  lemma TableStepKeepsTasks(w: World, change: TableStep)
    requires TaskPart(w) && TableEnabled(w, change)
    ensures TaskPart(DoTable(w, change))
  {
    match change
    case Remove(sid) => EvolvingKeepsTasks(w, DoRemove(w, {sid}));
    case Cleanup => EvolvingKeepsTasks(w, DoRemove(w, ExpiredIds(w.table, w.now, w.timeoutSecs)));
    case Register(r) => RegisterKeepsTasks(w, r);
    case Start(i) => StartKeepsTasks(w, i);
    case _ =>
  }

  lemma StreamStepKeepsTasks(w: World, q: nat, event: StreamStep)
    requires TaskPart(w) && StreamEnabled(w, q, event)
    ensures TaskPart(DoStream(w, q, event))
  {
    EvolvingKeepsTasks(w, DoStream(w, q, event));
  }

  lemma ExecuteKeepsTasks(w: World, q: nat, oracle: Oracle, establish: Option<PcscError>)
    requires TaskPart(w) && q in w.streams && w.streams[q].wire != []
    ensures TaskPart(DoExecute(w, q, oracle, establish))
  {
    var w' := DoExecute(w, q, oracle, establish);
    forall n | 0 <= n < |w.answers|
      ensures Justified(w'.answers[n], w'.executed, w'.registrations)
    {
      JustifiedAfterExecution(w.answers[n], w.executed, Last(w'.executed), w.registrations);
    }
  }

  /** Completing a pending command spends its one-shot for the first and only time. */
  lemma FillCompletes(o: Oneshots, completed: seq<Serial>, k: Serial, response: CommandResponse)
    requires CompletedOk(completed, o) && k in o && o[k].cell.Empty?
    ensures Evolves(o, Fill(o, k, response))
    ensures CompletedOk(completed + [k], Fill(o, k, response))
  {
  }

  lemma RespondKeepsTasks(w: World, sid: string, response: CommandResponse)
    requires TaskPart(w) && CoreOk(w) && w.runtime.issued <= U64_MODULUS
    ensures TaskPart(DoRespond(w, sid, response))
  {
    var id := response.commandId;
    if id > 0 && sid in w.table && w.table[sid].channel.Some? && id in w.table[sid].channel.value.pending {
      var k := w.table[sid].channel.value.pending[id];
      assert Filed(sid, id, ChannelsOf(w.table)[sid].pending[id], w.runtime, w.issues);
      SerialOfId(k);
      FillCompletes(w.runtime.oneshots, w.completed, k, response);
      var w' := DoRespond(w, sid, response);
      assert w'.completed == w.completed + [k];
      EvolvingKeepsTasks(w, w'.(completed := w.completed));
    }
  }

  // ---------------------------------------------------------------------------------------
  // Steps of one vpcd client

  /** A move after which the client waits for nothing, or for what it waited for before. */
  lemma MoveKeepsTasks(tasks: seq<Task>, o: Oneshots, issues: map<Serial, Issue>, i: nat, t: Task)
    requires i < |tasks| && WaitsForOwn(i, t, o, issues)
    requires forall n :: 0 <= n < |tasks| && n != i ==> WaitsForOwn(n, tasks[n], o, issues)
    ensures TasksOk(tasks[i := t], o, issues)
  {
  }

  lemma OneMoreAnswer(answers: seq<Answer>, o: Oneshots, executed: seq<Execution>, registrations: seq<Registration>,
                      given: seq<Answer>)
    requires AnswersOk(answers, o, executed, registrations)
    requires |given| <= 1
    requires forall n :: 0 <= n < |given| ==> Justified(given[n], executed, registrations) && SpentSerial(given[n], o)
    requires forall n, m | 0 <= n < |given| && given[n].source.FromCommand?
                        && 0 <= m < |answers| && answers[m].source.FromCommand? ::
               answers[m].source.serial != given[n].source.serial
    ensures AnswersOk(answers + given, o, executed, registrations)
  {
  }

  lemma FailJustified(i: nat, t: Task, request: Request, executed: seq<Execution>, registrations: seq<Registration>)
    ensures var m := FailMove(i, t, request);
            |m.given| == 1 && Justified(m.given[0], executed, registrations) && m.given[0].source.Unavailable?
  {
  }

  /** A move that asks nothing of the client and waits for nothing. */
  ghost predicate PlainMove(m: Move, executed: seq<Execution>, registrations: seq<Registration>) {
    && !m.task.phase.Waiting?
    && |m.given| <= 1
    && (forall n :: 0 <= n < |m.given| ==> Justified(m.given[n], executed, registrations) && !m.given[n].source.FromCommand?)
  }

  lemma PlainMoveKeepsTasks(w: World, i: nat, m: Move)
    requires TaskPart(w) && i < |w.tasks| && PlainMove(m, w.executed, w.registrations)
    ensures TaskPart(Made(w, i, m))
  {
  }

  /** What a lookup finds in the table is the ATR last registered. */
  lemma CachedIsLatest(table: Table, known: set<string>, registrations: seq<Registration>, sid: string, reader: string)
    requires RegistrationsOk(table, known, registrations)
    ensures var cached := CachedAtr(table, sid, reader);
            && (cached.Some? ==> cached.value == LatestAtr(registrations, Pair(sid, reader)))
            && (cached.None? && sid in table ==> LatestAtr(registrations, Pair(sid, reader)) == [])
  {
  }

  lemma LookUpIsPlain(w: World, i: nat, t: Task)
    requires RegistrationsOk(w.table, w.known, w.registrations)
    ensures PlainMove(LookUpMove(w.table, |w.registrations|, i, t), w.executed, w.registrations)
  {
    CachedIsLatest(w.table, w.known, w.registrations, t.sessionId, t.readerName);
    assert w.registrations[..|w.registrations|] == w.registrations;
  }

  lemma PollIsPlain(w: World, i: nat, t: Task)
    requires t.phase.Polling?
    ensures PlainMove(PollMove(w.table, i, t), w.executed, w.registrations)
  {
  }

  lemma SendKeepsTasks(w: World, i: nat, t: Task)
    requires TaskPart(w) && CoreOk(w) && CanSend(w, t.sessionId) && t.phase.Ready?
    requires w.runtime.issued + 1 <= U64_MODULUS
    ensures TaskPart(SendFor(w, i, t))
  {
    FreshId(ChannelsOf(w.table), w.runtime, w.issues, t.sessionId);
    SendEffects(w, i, t);
    var k := w.runtime.issued + 1;
    assert k !in w.runtime.oneshots && k !in w.issues;
    EvolvingKeepsTasks(w, SendFor(w, i, t));
  }

  lemma IssueKeepsTasks(w: World, i: nat)
    requires TaskPart(w) && CoreOk(w)
    requires i < |w.tasks| && TaskEnabled(w, w.tasks[i], IssueCommand) && CanSend(w, w.tasks[i].sessionId)
    requires w.runtime.issued + 1 <= U64_MODULUS
    ensures TaskPart(DoTask(w, i, IssueCommand))
  {
    var t := w.tasks[i];
    var sent := SendFor(w, i, t);
    SendKeepsTasks(w, i, t);
    FreshId(ChannelsOf(w.table), w.runtime, w.issues, t.sessionId);
    SendEffects(w, i, t);
    var result := SendResultOf(w, t);
    var m := IssueMove(i, t, result);
    if result.Sent? {
      assert WaitsForOwn(i, m.task, sent.runtime.oneshots, sent.issues);
      MoveKeepsTasks(sent.tasks, sent.runtime.oneshots, sent.issues, i, m.task);
      assert sent.answers + [] == sent.answers;
    } else {
      FailJustified(i, t, t.phase.request, w.executed, w.registrations);
      PlainMoveKeepsTasks(sent, i, m);
    }
  }

  /** The bytes a waiting client gives are what the card said to its own command, or the
      fixed failure answer. */
  lemma ReplyJustified(w: World, i: nat, reply: WaitResult)
    requires i < |w.tasks| && w.tasks[i].phase.Waiting?
    requires WaitsForOwn(i, w.tasks[i], w.runtime.oneshots, w.issues)
    requires LookupOk(w.tasks[i], w.table, w.known, w.registrations)
    requires ExecutionsOk(w.executed, w.issues)
    requires reply.Got? ==> AnsweredBy(w.executed, w.tasks[i].phase.serial, reply.response)
    ensures var m := ReplyMove(i, w.tasks[i], reply);
            && |m.given| == 1 && Justified(m.given[0], w.executed, w.registrations)
            && m.given[0].source == FromCommand(w.tasks[i].phase.serial) && m.task.phase.Idle?
            && AskedByGiver(m.given[0], w.issues)
  {
  }

  /** Ending a wait silences one receiver, and no other client's. */
  lemma StopKeepsOthers(w: World, i: nat)
    requires TaskPart(w) && i < |w.tasks| && w.tasks[i].phase.Waiting?
    ensures var k := w.tasks[i].phase.serial;
            var o' := StopReceiving(w.runtime, k).oneshots;
            && (forall n :: 0 <= n < |w.tasks| && n != i ==> WaitsForOwn(n, w.tasks[n], o', w.issues))
            && AnswersOk(w.answers, o', w.executed, w.registrations)
            && CompletedOk(w.completed, o')
            && k in o' && !o'[k].receiving
            && (forall m :: 0 <= m < |w.answers| && w.answers[m].source.FromCommand? ==> w.answers[m].source.serial != k)
  {
  }

  lemma ReplyKeepsTasks(w: World, i: nat, reply: WaitResult)
    requires TaskPart(w) && ExecutionsOk(w.executed, w.issues)
    requires i < |w.tasks| && w.tasks[i].phase.Waiting?
    requires LookupOk(w.tasks[i], w.table, w.known, w.registrations)
    requires reply.Got? ==> AnsweredBy(w.executed, w.tasks[i].phase.serial, reply.response)
    ensures TaskPart(DoReply(w, i, reply))
  {
    var t := w.tasks[i];
    var m := ReplyMove(i, t, reply);
    var o' := StopReceiving(w.runtime, t.phase.serial).oneshots;
    assert WaitsForOwn(i, t, w.runtime.oneshots, w.issues);
    ReplyJustified(w, i, reply);
    StopKeepsOthers(w, i);
    MoveKeepsTasks(w.tasks, o', w.issues, i, m.task);
    OneMoreAnswer(w.answers, o', w.executed, w.registrations, m.given);
    OneMoreAsked(w.answers, m.given, w.issues);
  }

  lemma TaskStepKeepsTasks(w: World, i: nat, action: TaskStep)
    requires TaskPart(w) && CoreOk(w) && ExecutionsOk(w.executed, w.issues)
    requires RegistrationsOk(w.table, w.known, w.registrations)
    requires i < |w.tasks| && TaskEnabled(w, w.tasks[i], action)
    requires LookupOk(w.tasks[i], w.table, w.known, w.registrations)
    requires DoTask(w, i, action).runtime.issued <= U64_MODULUS
    ensures TaskPart(DoTask(w, i, action))
  {
    var t := w.tasks[i];
    match action
    case Receive(request) => PlainMoveKeepsTasks(w, i, ReceiveMove(t, request));
    case LookUp =>
      LookUpIsPlain(w, i, t);
      PlainMoveKeepsTasks(w, i, LookUpMove(w.table, |w.registrations|, i, t));
    case Poll =>
      PollIsPlain(w, i, t);
      PlainMoveKeepsTasks(w, i, PollMove(w.table, i, t));
    case IssueCommand =>
      if CanSend(w, t.sessionId) {
        SendCounts(w, i, t);
        IssueKeepsTasks(w, i);
      } else {
        FailJustified(i, t, t.phase.request, w.executed, w.registrations);
        PlainMoveKeepsTasks(w, i, FailMove(i, t, t.phase.request));
      }
    case Resume => ReplyKeepsTasks(w, i, Found(w.runtime.oneshots[t.phase.serial].cell));
    case TimeOut => ReplyKeepsTasks(w, i, TimedOut);
  }
}
