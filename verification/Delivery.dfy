/** The other half of transparency: an answer that arrives in time is the one vpcd gets. */
module Delivery {
  import opened Prelude
  import opened Messages
  import opened CardSlot
  import opened SessionSpec
  import opened VpcdSpec
  import opened ClientCommands
  import opened CardOutcomes
  import opened World
  import opened Correlation
  import opened Invariant
  import opened Transparency
  import opened Runs

  function Verdict(request: Request, events: seq<Event>): seq<byte> {
    match request
    case ApduRequest(apdu) => CardVerdict(events, apdu)
    case AtrRequest => AtrVerdict(events)
  }

  /** The vpcd client still waits, and its command has been executed. */
  ghost predicate Answerable(w: World, i: nat, j: nat) {
    && i < |w.tasks| && w.tasks[i].phase.Waiting? && j < |w.executed|
    && var k := w.tasks[i].phase.serial;
       && w.executed[j].request.commandId == IdOf(k) && IdOf(k) > 0
       && k in w.runtime.oneshots && w.runtime.oneshots[k].cell.Empty?
  }

  /** Its response is accepted for the client's session, whatever happened to other commands. */
  lemma ResponseIsTaken(w: World, i: nat, j: nat)
    requires Reachable(w) && Answerable(w, i, j)
    ensures var t := w.tasks[i];
            var e := w.executed[j];
            var w' := DoRespond(w, t.sessionId, e.response);
            && e.sessionId == e.response.sessionId == t.sessionId
            && w'.completed == w.completed + [t.phase.serial]
            && w'.tasks == w.tasks && w'.answers == w.answers
            && t.phase.serial in w'.runtime.oneshots
            && w'.runtime.oneshots[t.phase.serial].cell == Full(e.response)
            && Verdict(t.phase.request, e.events)
                 == (if t.phase.request.ApduRequest? then ApduAnswer(Got(e.response)) else AtrAnswer(Got(e.response)))
  {
    hide CardVerdict, AtrVerdict, ApduAnswer, AtrAnswer, ProcessCommand;
    ReachableInv(w);
    var t, e := w.tasks[i], w.executed[j];
    var k := t.phase.serial;
    assert WaitsForOwn(i, t, w.runtime.oneshots, w.issues);
    assert IsPending(ChannelsOf(w.table), t.sessionId, k);
    assert QueuedRight(e.request, e.stream, e.sessionId, w.issues) && HonestResponse(e);
    SerialOfId(k);
  }

  /** On either path: a response that arrives while its command is waited for is what vpcd is
      given, namely the card's own bytes whenever the card answered. */
  lemma PromptAnswerIsCards(w: World, step: Step, i: nat, j: nat)
    requires Reachable(w) && Answerable(w, i, j) && Enabled(w, step)
    requires step == DirectReply(j)
          || (step.StreamReply? && step.execution == j && w.streams[step.stream].sessionId == w.tasks[i].sessionId)
    ensures var t := w.tasks[i];
            var w' := Next(w, step);
            && Enabled(w', OnTask(i, Resume))
            && Next(w', OnTask(i, Resume)).answers
                 == w.answers + [Answer(i, t.sessionId, t.readerName, t.phase.request, t.checkedAt,
                                        FromCommand(t.phase.serial), Verdict(t.phase.request, w.executed[j].events))]
  {
    ResponseIsTaken(w, i, j);
  }

  // ---------------------------------------------------------------------------------------
  // An undisturbed exchange

  /** An idle vpcd client whose session has a working, empty stream. */
  ghost predicate Undisturbed(w: World, i: nat, q: nat) {
    && i < |w.tasks| && w.tasks[i].phase.Idle?
    && CanSend(w, w.tasks[i].sessionId) && w.table[w.tasks[i].sessionId].channel.value.queue == q
    && q in w.streams && w.streams[q].wire == []
    && q in w.runtime.queues && w.runtime.queues[q] == Queue([], true)
  }

  /** An APDU on its way from vpcd to the remote client. */
  function OutSteps(i: nat, q: nat, apdu: seq<byte>): seq<Step> {
    [OnTask(i, Receive(ApduRequest(apdu))), OnTask(i, Poll)] + [OnTask(i, IssueCommand), OnStream(q, Transfer)]
  }

  /** Its execution, and the answer on its way back. */
  function BackSteps(w: World, i: nat, q: nat, oracle: Oracle, establish: Option<PcscError>): seq<Step> {
    [Execute(q, oracle, establish), DirectReply(|w.executed|), OnTask(i, Resume)]
  }

  /** The request the exchange puts on the stream. */
  function RequestFor(w: World, i: nat, apdu: seq<byte>): CommandRequest
    requires i < |w.tasks|
  {
    CommandRequest(IdOf(w.runtime.issued + 1), Some(Apdu(apdu)), w.tasks[i].readerName)
  }

  /** `w` with the APDU taken up and the channel found. */
  function ReadyWith(w: World, i: nat, apdu: seq<byte>): World
    requires i < |w.tasks|
  {
    w.(tasks := w.tasks[i := w.tasks[i].(phase := Ready(ApduRequest(apdu)))])
  }

  /** The next command is on the wire of stream `q`, waited for and pending. */
  ghost predicate Underway(w: World, i: nat, q: nat, apdu: seq<byte>, w': World)
    requires i < |w.tasks| && q in w.streams
  {
    var k := w.runtime.issued + 1;
    && w'.runtime.issued == k
    && w'.tasks == w.tasks[i := w.tasks[i].(phase := Waiting(ApduRequest(apdu), k))]
    && w'.answers == w.answers && w'.executed == w.executed && w'.cards == w.cards
    && k in w'.runtime.oneshots && w'.runtime.oneshots[k] == Oneshot(Empty, true)
    && w'.streams.Keys == w.streams.Keys && w'.streams[q].wire == [RequestFor(w, i, apdu)]
    && w'.streams[q].sessionId == w.streams[q].sessionId && w'.streams[q].client == w.streams[q].client
    && q in w'.runtime.queues
    && CanSend(w', w.tasks[i].sessionId) && w'.table[w.tasks[i].sessionId].channel.value.queue == q
    && IsPending(ChannelsOf(w'.table), w.tasks[i].sessionId, k)
  }

  lemma Asks(w: World, i: nat, q: nat, apdu: seq<byte>)
    requires Undisturbed(w, i, q)
    ensures Reaches(w, [OnTask(i, Receive(ApduRequest(apdu))), OnTask(i, Poll)], ReadyWith(w, i, apdu))
  {
    var receive, poll := OnTask(i, Receive(ApduRequest(apdu))), OnTask(i, Poll);
    assert Reaches(w, [], w);
    OneMore(w, [], w, receive);
    var received := Next(w, receive);
    OneMore(w, [] + [receive], received, poll);
    assert [] + [receive] + [poll] == [receive, poll];
    assert Next(received, poll).tasks == ReadyWith(w, i, apdu).tasks;
    assert w.answers + [] + [] == w.answers;
  }

  /** The command is numbered, filed and queued. */
  lemma SendQueues(w: World, i: nat, q: nat, apdu: seq<byte>)
    requires Undisturbed(w, i, q)
    ensures var w' := Next(ReadyWith(w, i, apdu), OnTask(i, IssueCommand));
            && w'.runtime.queues[q] == Queue([RequestFor(w, i, apdu)], true)
            && Underway(w, i, q, apdu, w'.(streams := w'.streams[q := w'.streams[q].(wire := [RequestFor(w, i, apdu)])]))
  {
    var w' := Next(ReadyWith(w, i, apdu), OnTask(i, IssueCommand));
    assert w'.runtime.queues[q].buffer == [RequestFor(w, i, apdu)];
  }

  lemma Sends(w: World, i: nat, q: nat, apdu: seq<byte>) returns (w': World)
    requires Undisturbed(w, i, q)
    ensures Reaches(ReadyWith(w, i, apdu), [OnTask(i, IssueCommand), OnStream(q, Transfer)], w')
    ensures Underway(w, i, q, apdu, w')
  {
    var ready := ReadyWith(w, i, apdu);
    var issue, transfer := OnTask(i, IssueCommand), OnStream(q, Transfer);
    assert Reaches(ready, [], ready);
    OneMore(ready, [], ready, issue);
    var issued := Next(ready, issue);
    SendQueues(w, i, q, apdu);
    OneMore(ready, [] + [issue], issued, transfer);
    assert [] + [issue] + [transfer] == [issue, transfer];
    w' := Next(issued, transfer);
  }

  lemma {:induction false} Chained(w: World, a: seq<Step>, mid: World, b: seq<Step>, w': World)
    requires Reaches(w, a, mid) && Reaches(mid, b, w')
    ensures Reaches(w, a + b, w')
    decreases |a|
  {
    if a == [] {
      assert a + b == b;
    } else {
      Chained(Next(w, a[0]), a[1..], mid, b, w');
      assert (a + b)[1..] == a[1..] + b;
    }
  }

  lemma Returns(w: World, i: nat, q: nat, oracle: Oracle, establish: Option<PcscError>) returns (w': World)
    requires Reachable(w) && i < |w.tasks| && w.tasks[i].phase.Waiting? && w.tasks[i].phase.request.ApduRequest?
    requires q in w.streams && w.streams[q].wire != []
    requires var k := w.tasks[i].phase.serial;
             && w.streams[q].wire[0].commandId == IdOf(k) && IdOf(k) > 0
             && k in w.runtime.oneshots && w.runtime.oneshots[k].cell.Empty?
    ensures Reaches(w, BackSteps(w, i, q, oracle, establish), w')
    ensures var t := w.tasks[i];
            var e := Performed(w, q, oracle, establish);
            w'.answers == w.answers + [Answer(i, t.sessionId, t.readerName, t.phase.request, t.checkedAt,
                                              FromCommand(t.phase.serial), CardVerdict(e.events, t.phase.request.apdu))]
  {
    hide ProcessCommand, CardVerdict;
    var j := |w.executed|;
    var execute, reply, resume := Execute(q, oracle, establish), DirectReply(j), OnTask(i, Resume);
    var executed := Next(w, execute);
    RunOn(w, execute);
    assert executed.executed[j].request == w.streams[q].wire[0];
    assert executed.executed[j].events == Performed(w, q, oracle, establish).events;
    PromptAnswerIsCards(executed, reply, i, j);
    var replied := Next(executed, reply);
    w' := Next(replied, resume);
    assert Reaches(w, [], w);
    OneMore(w, [], w, execute);
    OneMore(w, [] + [execute], executed, reply);
    OneMore(w, [] + [execute] + [reply], replied, resume);
    assert [] + [execute] + [reply] + [resume] == [execute, reply, resume];
  }

  lemma {:induction false} RunLater(w: World, steps: seq<Step>, w': World)
    requires Run(w) && Reaches(w, steps, w')
    ensures Run(w')
    decreases |steps|
  {
    if steps != [] {
      RunOn(w, steps[0]);
      RunLater(Next(w, steps[0]), steps[1..], w');
    }
  }

  lemma GoesOut(w: World, i: nat, q: nat, apdu: seq<byte>) returns (w': World)
    requires Undisturbed(w, i, q)
    ensures Reaches(w, OutSteps(i, q, apdu), w') && Underway(w, i, q, apdu, w')
  {
    Asks(w, i, q, apdu);
    w' := Sends(w, i, q, apdu);
    Chained(w, [OnTask(i, Receive(ApduRequest(apdu))), OnTask(i, Poll)], ReadyWith(w, i, apdu),
            [OnTask(i, IssueCommand), OnStream(q, Transfer)], w');
  }

  /** From every reachable world, an APDU taken up on a working stream and left undisturbed is
      answered with the bytes the PC/SC stack of the client replies to its transmission, second
      try and reconnecting included; 6F00 is given only when there are no two bytes of them. */
  lemma UndisturbedExchange(w: World, i: nat, q: nat, apdu: seq<byte>, oracle: Oracle, establish: Option<PcscError>,
                            reply: Result<CardBytes, ClientError>, after: Slot)
    returns (w': World)
    requires Reachable(w) && w.runtime.issued + 1 < U64_MODULUS && Undisturbed(w, i, q)
    requires var reader := w.tasks[i].readerName;
             CardReplies(reader, oracle, CardOf(w, w.streams[q].client, reader), 5, reply, after)
    ensures Reaches(w, OutSteps(i, q, apdu) + BackSteps(w, i, q, oracle, establish), w')
    ensures var t := w.tasks[i];
            var bytes := if establish.None? && reply.Success? && |reply.value| >= 2 then reply.value else [0x6F, 0x00];
            w'.answers == w.answers + [Answer(i, t.sessionId, t.readerName, ApduRequest(apdu), t.checkedAt,
                                              FromCommand(w.runtime.issued + 1), bytes)]
  {
    hide CardReplies, Reaches, ProcessCommand;
    var sent := GoesOut(w, i, q, apdu);
    RunLater(w, OutSteps(i, q, apdu), sent);
    w' := Returns(sent, i, q, oracle, establish);
    Chained(w, OutSteps(i, q, apdu), sent, BackSteps(w, i, q, oracle, establish), w');
    var sid, card := w.streams[q].sessionId, CardOf(w, w.streams[q].client, w.tasks[i].readerName);
    if establish.None? {
      ApduCommandMeans(sid, RequestFor(w, i, apdu), apdu, card, oracle, reply, after);
    } else {
      CommandsWithoutCard(sid, RequestFor(w, i, apdu), card, oracle, establish);
    }
  }

  // ---------------------------------------------------------------------------------------
  // What stays with the client

  /** Executing an APDU command takes it off the wire, leaves the client's connection to its reader
      as the card calls have left it, and no other reader's or client's connection touched. */
  lemma ExecutionKeepsConnection(w: World, q: nat, apdu: seq<byte>, oracle: Oracle,
                                 reply: Result<CardBytes, ClientError>, after: Slot)
    requires q in w.streams && w.streams[q].wire != [] && w.streams[q].wire[0].command == Some(Apdu(apdu))
    requires var reader := w.streams[q].wire[0].readerName;
             CardReplies(reader, oracle, CardOf(w, w.streams[q].client, reader), 5, reply, after)
    ensures var s := w.streams[q];
            var r := s.wire[0];
            var w' := Next(w, Execute(q, oracle, None));
            && w'.cards == w.cards[(s.client, r.readerName) := after]
            && w'.streams == w.streams[q := s.(wire := s.wire[1..])]
            && |w'.executed| == |w.executed| + 1 && w'.executed[..|w.executed|] == w.executed
            && Last(w'.executed).request == r && Last(w'.executed).client == s.client
            && AnsweredAs(reply, ApduAnswer(Got(Last(w'.executed).response)))
  {
    hide CardReplies, ProcessCommand, ApduAnswer;
    var s := w.streams[q];
    ApduCommandMeans(s.sessionId, s.wire[0], apdu, CardOf(w, s.client, s.wire[0].readerName), oracle, reply, after);
  }

  /** So does reading its ATR before it connects. */
  lemma InspectionKeepsConnection(w: World, client: nat, reader: string, oracle: Oracle,
                                  reply: Result<AtrBytes, ClientError>, after: Slot)
    requires CardIdentifies(reader, oracle, CardOf(w, client, reader), 5, reply, after)
    ensures Next(w, Inspect(client, reader, oracle, None)) == w.(cards := w.cards[(client, reader) := after])
  {
    hide CardIdentifies;
    var card := CardOf(w, client, reader);
    var e := QueryAtr(reader, card, oracle, 5);
    QueryIdentifies(reader, card, oracle, 5);
    CardIdentifiesOnce(reader, oracle, card, 5, e.result, e.slot, reply, after);
  }
}
