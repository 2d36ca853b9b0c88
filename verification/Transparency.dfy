/** The main results about the command/response protocol, over every run of the system.

    They hold for runs in which the 64-bit id counter has not handed out the same id twice,
    that is for up to 2^64 issued commands; Wraparound.dfy shows that one more is too many. */
module Transparency {
  import opened Prelude
  import opened Messages
  import opened CardSlot
  import opened SessionSpec
  import opened VpcdSpec
  import opened ClientCommands
  import opened World
  import opened Correlation
  import opened Invariant
  import opened CorePreservation
  import opened StreamPreservation
  import opened TaskPreservation
  import opened RegistrationPreservation

  // ---------------------------------------------------------------------------------------
  // The invariant along a run

  lemma TableStepKeepsInv(w: World, change: TableStep)
    requires Inv(w) && TableEnabled(w, change)
    ensures Inv(DoTable(w, change))
  {
    TableStepKeepsCore(w, change);
    TableStepKeepsServed(w, change);
    TableStepSameStreams(w, change);
    TableStepKeepsTasks(w, change);
    TableStepKeepsRegistration(w, change);
  }

  lemma StreamStepKeepsInv(w: World, q: nat, event: StreamStep)
    requires Inv(w) && StreamEnabled(w, q, event)
    ensures Inv(DoStream(w, q, event))
  {
    StreamStepKeepsCore(w, q, event);
    StreamStepKeepsServed(w, q, event);
    StreamStepKeepsOrder(w, q, event);
    StreamStepKeepsTasks(w, q, event);
    StreamStepKeepsRegistration(w, q, event);
    StreamStepSameHistory(w, q, event);
  }

  lemma StreamStepSameHistory(w: World, q: nat, event: StreamStep)
    requires StreamEnabled(w, q, event)
    ensures var w' := DoStream(w, q, event); w'.executed == w.executed && w'.issues == w.issues
  {
  }

  lemma ExecuteKeepsInv(w: World, q: nat, oracle: Oracle, establish: Option<PcscError>)
    requires Inv(w) && q in w.streams && w.streams[q].wire != []
    ensures Inv(DoExecute(w, q, oracle, establish))
  {
    ExecuteKeepsCore(w, q, oracle, establish);
    ExecuteKeepsServed(w, q, oracle, establish);
    ExecuteKeepsOrder(w, q, oracle, establish);
    ExecuteKeepsExecutions(w, q, oracle, establish);
    ExecuteKeepsTasks(w, q, oracle, establish);
    KeptReadersKeepRegistration(w, DoExecute(w, q, oracle, establish));
  }

  lemma RespondKeepsInv(w: World, sid: string, j: nat)
    requires Inv(w) && w.runtime.issued <= U64_MODULUS && j < |w.executed|
    ensures Inv(DoRespond(w, sid, w.executed[j].response))
  {
    var response := w.executed[j].response;
    RespondKeepsCorrelated(w, sid, j);
    RespondKeepsServed(w, sid, response);
    RespondSameStreams(w, sid, response);
    RespondKeepsTasks(w, sid, response);
    RespondKeepsRegistration(w, sid, response);
  }

  lemma TaskStepKeepsExecutions(w: World, i: nat, action: TaskStep)
    requires ExecutionsOk(w.executed, w.issues) && Numbered(w.runtime, w.issues)
    requires i < |w.tasks| && TaskEnabled(w, w.tasks[i], action)
    ensures var w' := DoTask(w, i, action); ExecutionsOk(w'.executed, w'.issues)
  {
    var t := w.tasks[i];
    if action.IssueCommand? && CanSend(w, t.sessionId) {
      var k := w.runtime.issued + 1;
      assert k !in w.issues;
      MoreIssuesKeepExecutions(w.executed, w.issues, k, SendFor(w, i, t).issues[k]);
    }
  }

  lemma TaskStepKeepsInv(w: World, i: nat, action: TaskStep)
    requires Inv(w) && i < |w.tasks| && TaskEnabled(w, w.tasks[i], action)
    requires DoTask(w, i, action).runtime.issued <= U64_MODULUS
    ensures Inv(DoTask(w, i, action))
  {
    TaskStepKeepsCore(w, i, action);
    TaskStepKeepsOrder(w, i, action);
    TaskStepKeepsExecutions(w, i, action);
    TaskStepKeepsTasks(w, i, action);
    TaskStepKeepsRegistration(w, i, action);
  }

  lemma TableStepIssuesNothing(w: World, change: TableStep)
    requires TableEnabled(w, change)
    ensures DoTable(w, change).runtime.issued == w.runtime.issued
  {
  }

  lemma StreamStepIssuesNothing(w: World, q: nat, event: StreamStep)
    requires StreamEnabled(w, q, event)
    ensures DoStream(w, q, event).runtime.issued == w.runtime.issued
  {
  }

  lemma RespondIssuesNothing(w: World, sid: string, response: CommandResponse)
    ensures DoRespond(w, sid, response).runtime.issued == w.runtime.issued
  {
  }

  lemma TaskStepIssues(w: World, i: nat, action: TaskStep)
    requires i < |w.tasks| && TaskEnabled(w, w.tasks[i], action)
    ensures DoTask(w, i, action).runtime.issued
              == w.runtime.issued + if action.IssueCommand? && CanSend(w, w.tasks[i].sessionId) then 1 else 0
  {
  }

  lemma IssuedNeverShrinks(w: World, step: Step)
    requires Enabled(w, step)
    ensures w.runtime.issued <= Next(w, step).runtime.issued
  {
    match step
    case OnTable(change) => TableStepIssuesNothing(w, change);
    case OnStream(q, event) => StreamStepIssuesNothing(w, q, event);
    case OnTask(i, action) => TaskStepIssues(w, i, action);
    case Execute(_, _, _) =>
    case Inspect(_, _, _, _) =>
    case DirectReply(j) => RespondIssuesNothing(w, w.executed[j].response.sessionId, w.executed[j].response);
    case StreamReply(q, j) => RespondIssuesNothing(w, w.streams[q].sessionId, w.executed[j].response);
  }

  lemma StepKeepsInv(w: World, step: Step)
    requires Inv(w) && Enabled(w, step) && Next(w, step).runtime.issued <= U64_MODULUS
    ensures Inv(Next(w, step))
  {
    IssuedNeverShrinks(w, step);
    match step
    case OnTable(change) => TableStepKeepsInv(w, change);
    case OnStream(q, event) => StreamStepKeepsInv(w, q, event);
    case OnTask(i, action) => TaskStepKeepsInv(w, i, action);
    case Execute(q, oracle, establish) => ExecuteKeepsInv(w, q, oracle, establish);
    case Inspect(_, _, _, _) =>
    case DirectReply(j) => RespondKeepsInv(w, w.executed[j].response.sessionId, j);
    case StreamReply(q, j) => RespondKeepsInv(w, w.streams[q].sessionId, j);
  }

  lemma {:induction false} RunIssuesMore(w: World, steps: seq<Step>, w': World)
    requires Reaches(w, steps, w')
    ensures w.runtime.issued <= w'.runtime.issued
    decreases |steps|
  {
    if steps != [] {
      IssuedNeverShrinks(w, steps[0]);
      RunIssuesMore(Next(w, steps[0]), steps[1..], w');
    }
  }

  lemma {:induction false} RunKeepsInv(w: World, steps: seq<Step>, w': World)
    requires Inv(w) && Reaches(w, steps, w') && w'.runtime.issued <= U64_MODULUS
    ensures Inv(w')
    decreases |steps|
  {
    if steps != [] {
      RunIssuesMore(Next(w, steps[0]), steps[1..], w');
      StepKeepsInv(w, steps[0]);
      RunKeepsInv(Next(w, steps[0]), steps[1..], w');
    }
  }

  /** A world some run leads to. */
  ghost predicate Run(w: World) {
    exists autoVpcd: bool, timeoutSecs: nat, steps: seq<Step> :: Reaches(Init(autoVpcd, timeoutSecs), steps, w)
  }

  /** A world some run leads to, ids not yet used up. */
  ghost predicate Reachable(w: World) {
    w.runtime.issued <= U64_MODULUS && Run(w)
  }

  lemma ReachableInv(w: World)
    requires Reachable(w)
    ensures Inv(w)
  {
    var autoVpcd: bool, timeoutSecs: nat, steps: seq<Step> :| Reaches(Init(autoVpcd, timeoutSecs), steps, w);
    InitInv(autoVpcd, timeoutSecs);
    RunKeepsInv(Init(autoVpcd, timeoutSecs), steps, w);
  }

  // ---------------------------------------------------------------------------------------
  // Transparency

  /** Execution `e` is the one of command `k`, which vpcd client `task` issued for this APDU on
      this reader of this session. */
  ghost predicate OwnExecution(w: World, e: Execution, k: Serial, a: Answer) {
    && e.request.commandId == IdOf(k)
    && k in w.issues
    && w.issues[k] == Issue(a.sessionId, a.readerName, CommandFor(a.request), e.stream, a.task)
    && e.sessionId == a.sessionId
    && e.request.readerName == a.readerName
    && e.request.command == Some(CommandFor(a.request))
  }

  /** The card in the target reader answered these bytes to that very APDU when it executed
      the command this answer came from. */
  ghost predicate CardsOwnBytes(w: World, a: Answer)
    requires a.request.ApduRequest?
  {
    a.source.FromCommand? &&
    exists j | 0 <= j < |w.executed| ::
      && OwnExecution(w, w.executed[j], a.source.serial, a)
      && CardSaid(w.executed[j].events, a.request.apdu, a.bytes)
  }

  ghost predicate Transparent(w: World) {
    forall n | 0 <= n < |w.answers| && w.answers[n].request.ApduRequest? ::
      |w.answers[n].bytes| >= 2 && (w.answers[n].bytes == NO_DIAGNOSIS || CardsOwnBytes(w, w.answers[n]))
  }

  /** Whatever the network, the clock and the other parts of the system do, the bytes vpcd gets
      for an APDU are either 6F00 or exactly what the card in the target reader answered to
      that APDU when it executed this very command. */
  lemma ApduTransparency(w: World)
    requires Reachable(w)
    ensures Transparent(w)
  {
    ReachableInv(w);
    forall n | 0 <= n < |w.answers| && w.answers[n].request.ApduRequest?
      ensures |w.answers[n].bytes| >= 2
      ensures w.answers[n].bytes == NO_DIAGNOSIS || CardsOwnBytes(w, w.answers[n])
    {
      var a := w.answers[n];
      assert Justified(a, w.executed, w.registrations);
      if a.bytes != NO_DIAGNOSIS {
        var j :| 0 <= j < |w.executed| &&
          ExecutedFor(w.executed[j], a.source.serial, a) && CardSaid(w.executed[j].events, a.request.apdu, a.bytes);
        OwnersAgree(w, n, j);
      }
    }
  }

  /** The command an answer came from was issued by the vpcd client that gave the answer. */
  lemma OwnersAgree(w: World, n: nat, j: nat)
    requires Inv(w) && n < |w.answers| && j < |w.executed|
    requires w.answers[n].source.FromCommand? && ExecutedFor(w.executed[j], w.answers[n].source.serial, w.answers[n])
    ensures OwnExecution(w, w.executed[j], w.answers[n].source.serial, w.answers[n])
  {
  }
}
