/** Each request a vpcd client takes up is answered exactly once, in the order taken up. */
module AnswerOrder {
  import opened Prelude
  import opened Messages
  import opened SessionSpec
  import opened VpcdSpec
  import opened World
  import opened Runs

  /** The requests vpcd client `i` takes up in a run. */
  function Asked(steps: seq<Step>, i: nat): seq<Request> {
    if steps == [] then []
    else AskedBy(steps[0], i) + Asked(steps[1..], i)
  }

  function AskedBy(step: Step, i: nat): seq<Request> {
    match step
    case OnTask(j, Receive(request)) => if j == i then [request] else []
    case _ => []
  }

  /** The answers vpcd client `i` has given, in order. */
  function GivenBy(answers: seq<Answer>, i: nat): seq<Answer> {
    if answers == [] then []
    else GivenBy(answers[..|answers| - 1], i) + (if Last(answers).task == i then [Last(answers)] else [])
  }

  lemma GivenByAppend(answers: seq<Answer>, a: Answer, i: nat)
    ensures GivenBy(answers + [a], i) == GivenBy(answers, i) + if a.task == i then [a] else []
  {
    assert (answers + [a])[..|answers|] == answers;
  }

  /** The requests vpcd client `i` has answered, in order. */
  function Answered(answers: seq<Answer>, i: nat): seq<Request> {
    if answers == [] then []
    else Answered(answers[..|answers| - 1], i) + (if Last(answers).task == i then [Last(answers).request] else [])
  }

  /** The request a vpcd client is working on. */
  function Current(t: Task): seq<Request> {
    match t.phase
    case Idle => []
    case LookingUp => [AtrRequest]
    case Polling(request, _) => [request]
    case Ready(request) => [request]
    case Waiting(request, _) => [request]
  }

  function CurrentOf(w: World, i: nat): seq<Request> {
    if i < |w.tasks| then Current(w.tasks[i]) else []
  }

  function Settled(w: World, i: nat): seq<Request> {
    Answered(w.answers, i) + CurrentOf(w, i)
  }

  lemma AnsweredAppend(answers: seq<Answer>, a: Answer, i: nat)
    ensures Answered(answers + [a], i) == Answered(answers, i) + if a.task == i then [a.request] else []
  {
  }

  /** A move either keeps the client on its request or answers it; taking one up starts it. */
  ghost predicate MoveSettles(m: Move, i: nat, t: Task, asked: seq<Request>) {
    if m.given == [] then Current(m.task) == Current(t) + asked
    else
      && |m.given| == 1 && m.given[0].task == i && asked == []
      && Current(m.task) == [] && Current(t) == [m.given[0].request]
  }

  lemma MadeSettles(w: World, i: nat, m: Move, asked: seq<Request>, n: nat)
    requires i < |w.tasks| && MoveSettles(m, i, w.tasks[i], asked)
    ensures Settled(Made(w, i, m), n) == Settled(w, n) + if n == i then asked else []
  {
    var w' := Made(w, i, m);
    if m.given == [] {
      assert w'.answers == w.answers;
    } else {
      assert m.given == [m.given[0]];
      AnsweredAppend(w.answers, m.given[0], n);
    }
  }

  lemma TaskStepSettles(w: World, i: nat, action: TaskStep, n: nat)
    requires i < |w.tasks| && TaskEnabled(w, w.tasks[i], action)
    ensures Settled(DoTask(w, i, action), n) == Settled(w, n) + AskedBy(OnTask(i, action), n)
  {
    hide ApduAnswer, AtrAnswer, Observe, CachedAtr, SendCommand, StopReceiving;
    var t := w.tasks[i];
    match action
    case Receive(request) => MadeSettles(w, i, ReceiveMove(t, request), [request], n);
    case LookUp => MadeSettles(w, i, LookUpMove(w.table, |w.registrations|, i, t), [], n);
    case Poll => MadeSettles(w, i, PollMove(w.table, i, t), [], n);
    case IssueCommand =>
      if CanSend(w, t.sessionId) {
        MadeSettles(SendFor(w, i, t), i, IssueMove(i, t, SendResultOf(w, t)), [], n);
      } else {
        MadeSettles(w, i, FailMove(i, t, t.phase.request), [], n);
      }
    case Resume =>
      MadeSettles(w.(runtime := StopReceiving(w.runtime, t.phase.serial)), i,
                  ReplyMove(i, t, Found(w.runtime.oneshots[t.phase.serial].cell)), [], n);
    case TimeOut =>
      MadeSettles(w.(runtime := StopReceiving(w.runtime, t.phase.serial)), i, ReplyMove(i, t, TimedOut), [], n);
  }

  lemma TableStepSettles(w: World, change: TableStep, n: nat)
    requires TableEnabled(w, change)
    ensures Settled(DoTable(w, change), n) == Settled(w, n)
  {
  }

  lemma StepSettles(w: World, step: Step, n: nat)
    requires Enabled(w, step)
    ensures Settled(Next(w, step), n) == Settled(w, n) + AskedBy(step, n)
  {
    match step
    case OnTable(change) => TableStepSettles(w, change, n);
    case OnTask(i, action) => TaskStepSettles(w, i, action, n);
    case _ => OthersKeepClients(w, step);
  }

  /** Over every run: what a vpcd client has answered, followed by the request it is working on
      if any, is exactly what it took up, in that order. So the k-th answer answers the k-th
      request, and an idle client owes nothing. */
  lemma {:induction false} EveryRequestAnsweredOnce(w: World, steps: seq<Step>, w': World, i: nat)
    requires Reaches(w, steps, w')
    ensures Answered(w'.answers, i) + CurrentOf(w', i) == Answered(w.answers, i) + CurrentOf(w, i) + Asked(steps, i)
    decreases |steps|
  {
    if steps != [] {
      StepSettles(w, steps[0], i);
      EveryRequestAnsweredOnce(Next(w, steps[0]), steps[1..], w', i);
    }
  }
}
