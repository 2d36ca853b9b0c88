/** When commands are sure to be executed in the order they were issued.

    On one stream they always are. But a vpcd client that has waited in vain issues its next
    command on whatever stream its session has by then, and the client at the other end may still
    take up the older command from the older stream, after the newer one. */
module ExecutionOrder {
  import opened Prelude
  import opened Messages
  import opened CardSlot
  import opened SessionSpec
  import opened World
  import opened Correlation
  import opened Invariant
  import opened CorePreservation
  import opened Transparency
  import opened Runs
  import opened ProtocolLaws
  import Delivery

  predicate IsCommand(r: CommandRequest, k: Serial) {
    r.commandId == IdOf(k)
  }

  /** What may still be executed on a stream, in order. */
  function Transit(w: World, q: nat): seq<CommandRequest>
    requires q in w.streams && q in w.runtime.queues
  {
    w.streams[q].wire + if w.runtime.queues[q].open then w.runtime.queues[q].buffer else []
  }

  ghost predicate InTransit(w: World, k: Serial, q: nat) {
    q in w.streams && q in w.runtime.queues && exists p | 0 <= p < |Transit(w, q)| :: IsCommand(Transit(w, q)[p], k)
  }

  /** `k` has not been executed after `l`. */
  ghost predicate InOrderSoFar(executed: seq<Execution>, k: Serial, l: Serial) {
    forall a, b | 0 <= a < |executed| && 0 <= b < |executed|
                  && IsCommand(executed[a].request, k) && IsCommand(executed[b].request, l) ::
      a < b
  }

  /** However the system goes on, `k` is not executed after `l`. */
  ghost predicate OrderCertain(w: World, k: Serial, l: Serial) {
    forall steps: seq<Step>, w': World | Reaches(w, steps, w') && w'.runtime.issued <= U64_MODULUS ::
      InOrderSoFar(w'.executed, k, l)
  }

  // ---------------------------------------------------------------------------------------
  // Histories only grow

  lemma TaskStepHistoryGrows(w: World, i: nat, action: TaskStep)
    requires Numbered(w.runtime, w.issues) && i < |w.tasks| && TaskEnabled(w, w.tasks[i], action)
    ensures var w' := DoTask(w, i, action);
            w'.executed == w.executed && forall k | k in w.issues :: k in w'.issues && w'.issues[k] == w.issues[k]
  {
    if action.IssueCommand? && CanSend(w, w.tasks[i].sessionId) { assert w.runtime.issued + 1 !in w.issues; }
  }

  lemma TableStepSameHistory(w: World, change: TableStep)
    requires TableEnabled(w, change)
    ensures var w' := DoTable(w, change); w'.executed == w.executed && w'.issues == w.issues
  {
  }

  lemma StepHistoryGrows(w: World, step: Step)
    requires Numbered(w.runtime, w.issues) && Enabled(w, step)
    ensures var w' := Next(w, step);
            w.executed <= w'.executed && forall k | k in w.issues :: k in w'.issues && w'.issues[k] == w.issues[k]
  {
    match step
    case OnTable(change) => TableStepSameHistory(w, change);
    case OnStream(q, event) => StreamStepSameHistory(w, q, event);
    case OnTask(i, action) => TaskStepHistoryGrows(w, i, action);
    case _ =>
  }

  lemma {:induction false} RunHistoryGrows(w: World, steps: seq<Step>, w': World)
    requires Inv(w) && Reaches(w, steps, w') && w'.runtime.issued <= U64_MODULUS
    ensures w.executed <= w'.executed && forall k | k in w.issues :: k in w'.issues && w'.issues[k] == w.issues[k]
    decreases |steps|
  {
    if steps != [] {
      hide Inv, Next;
      NumberedByInv(w);
      StepHistoryGrows(w, steps[0]);
      RunIssuesMore(Next(w, steps[0]), steps[1..], w');
      StepKeepsInv(w, steps[0]);
      RunHistoryGrows(Next(w, steps[0]), steps[1..], w');
    }
  }

  lemma NumberedByInv(w: World)
    requires Inv(w)
    ensures Numbered(w.runtime, w.issues)
  {
  }

  // ---------------------------------------------------------------------------------------
  // What is certain

  ghost predicate NotExecuted(executed: seq<Execution>, l: Serial) {
    forall b | 0 <= b < |executed| :: !IsCommand(executed[b].request, l)
  }

  lemma FirstThenOther(executed: seq<Execution>, executed': seq<Execution>, k: Serial, l: Serial, a: nat)
    requires executed <= executed' && a < |executed| && IsCommand(executed[a].request, k) && NotExecuted(executed, l)
    requires forall i, j :: 0 <= i < j < |executed'| ==> executed'[i].request.commandId != executed'[j].request.commandId
    ensures InOrderSoFar(executed', k, l)
  {
    hide IdOf;
    assert forall b | 0 <= b < |executed| :: executed'[b] == executed[b];
  }

  /** Once `k` is executed and `l` is not, the order is certain. */
  lemma ExecutedStaysFirst(w: World, k: Serial, l: Serial, a: nat)
    requires Reachable(w) && a < |w.executed| && IsCommand(w.executed[a].request, k) && NotExecuted(w.executed, l)
    ensures OrderCertain(w, k, l)
  {
    ReachableInv(w);
    forall steps: seq<Step>, w': World | Reaches(w, steps, w') && w'.runtime.issued <= U64_MODULUS
      ensures InOrderSoFar(w'.executed, k, l)
    {
      RunHistoryGrows(w, steps, w');
      Delivery.RunLater(w, steps, w');
      forall i: nat, j: nat | i < j < |w'.executed|
        ensures w'.executed[i].request.commandId != w'.executed[j].request.commandId
      {
        ExecutedOnce(w', i, j);
      }
      FirstThenOther(w.executed, w'.executed, k, l, a);
    }
  }

  lemma TransitWasSent(w: World, q: nat, p: nat)
    requires Inv(w) && q in w.streams && q in w.runtime.queues && p < |Transit(w, q)|
    ensures QueuedRight(Transit(w, q)[p], q, w.streams[q].sessionId, w.issues)
  {
    var s, queue, done := w.streams[q], w.runtime.queues[q], ExecutedOn(w.executed, q);
    assert StreamOk(q, s, queue, w.issues, done);
    assert (done + s.wire + queue.buffer)[|done| + p] == Transit(w, q)[p];
    assert QueuedRight(s.sent[|done| + p], q, s.sessionId, w.issues);
  }

  lemma StreamOfTransit(w: World, k: Serial, q: nat)
    requires Inv(w) && 1 <= k <= U64_MODULUS && InTransit(w, k, q)
    ensures k in w.issues && w.issues[k].stream == q
  {
    var p :| 0 <= p < |Transit(w, q)| && IsCommand(Transit(w, q)[p], k);
    TransitWasSent(w, q, p);
    SerialOfId(k);
  }

  lemma StreamOfExecuted(w: World, k: Serial, a: nat)
    requires Reachable(w) && 1 <= k <= U64_MODULUS && a < |w.executed| && IsCommand(w.executed[a].request, k)
    ensures k in w.issues && w.issues[k].stream == w.executed[a].stream
  {
    ReachableInv(w);
    var e := w.executed[a];
    assert QueuedRight(e.request, e.stream, e.sessionId, w.issues);
    SerialOfId(k);
  }

  /** On one stream, what is executed earlier has the smaller number. */
  lemma EarlierIsOlder(w: World, b: nat, a: nat)
    requires Reachable(w) && b < a < |w.executed| && w.executed[b].stream == w.executed[a].stream
    ensures SerialOf(w.executed[b].request.commandId) < SerialOf(w.executed[a].request.commandId)
  {
    var q := w.executed[a].stream;
    ReachableInv(w);
    var place := PlaceOnStream(w.executed, a);
    var earlier := PlaceOnStream(w.executed[..a], b);
    IssueOrderIsExecutionOrder(w, q);
    var done := ExecutedOn(w.executed, q);
    assert done[earlier] == ExecutedOn(w.executed[..a], q)[earlier] == w.executed[b].request;
    assert done[place] == w.executed[a].request;
  }

  lemma SameStreamSoFar(w: World, k: Serial, l: Serial)
    requires Reachable(w) && 1 <= k < l <= U64_MODULUS
    requires k in w.issues && l in w.issues && w.issues[k].stream == w.issues[l].stream
    ensures InOrderSoFar(w.executed, k, l)
  {
    hide Reachable;
    SerialOfId(k);
    SerialOfId(l);
    forall a, b | 0 <= a < |w.executed| && 0 <= b < |w.executed|
                  && IsCommand(w.executed[a].request, k) && IsCommand(w.executed[b].request, l)
      ensures a < b
    {
      StreamOfExecuted(w, k, a);
      StreamOfExecuted(w, l, b);
      if b < a { EarlierIsOlder(w, b, a); }
    }
  }

  /** In transit on one stream, commands are sure to be executed in order. */
  lemma SameStreamInOrder(w: World, k: Serial, l: Serial, q: nat)
    requires Reachable(w) && 1 <= k < l <= w.runtime.issued
    requires InTransit(w, k, q) && InTransit(w, l, q)
    ensures OrderCertain(w, k, l)
  {
    ReachableInv(w);
    StreamOfTransit(w, k, q);
    StreamOfTransit(w, l, q);
    hide Inv, InTransit;
    forall steps: seq<Step>, w': World | Reaches(w, steps, w') && w'.runtime.issued <= U64_MODULUS
      ensures InOrderSoFar(w'.executed, k, l)
    {
      RunHistoryGrows(w, steps, w');
      Delivery.RunLater(w, steps, w');
      SameStreamSoFar(w', k, l);
    }
  }

  // ---------------------------------------------------------------------------------------
  // What is not

  /** Other streams are as they were. */
  ghost predicate OthersKept(w: World, w': World, q: nat) {
    forall r | r in w.streams && r in w.runtime.queues && r != q ::
      r in w'.streams && r in w'.runtime.queues && Transit(w', r) == Transit(w, r)
  }

  lemma TransfersFirst(w: World, q: nat)
    requires q in w.streams && q in w.runtime.queues && w.streams[q].wire == [] && Transit(w, q) != []
    ensures Enabled(w, OnStream(q, Transfer))
    ensures var w' := Next(w, OnStream(q, Transfer));
            && w'.runtime.issued == w.runtime.issued && w'.executed == w.executed && OthersKept(w, w', q)
            && q in w'.streams && q in w'.runtime.queues && w'.streams[q].wire != [] && Transit(w', q) == Transit(w, q)
  {
  }

  lemma ExecutesFirst(w: World, q: nat, oracle: Oracle)
    requires q in w.streams && q in w.runtime.queues && w.streams[q].wire != []
    ensures Enabled(w, Execute(q, oracle, None))
    ensures var w' := Next(w, Execute(q, oracle, None));
            && w'.runtime.issued == w.runtime.issued && OthersKept(w, w', q)
            && q in w'.streams && q in w'.runtime.queues && Transit(w', q) == Transit(w, q)[1..]
            && |w'.executed| == |w.executed| + 1 && w.executed <= w'.executed
            && Last(w'.executed).request == Transit(w, q)[0]
  {
    hide Performed;
  }

  lemma ExecutesNext(w: World, q: nat) returns (steps: seq<Step>, w': World)
    requires q in w.streams && q in w.runtime.queues && Transit(w, q) != []
    ensures Reaches(w, steps, w') && w'.runtime.issued == w.runtime.issued && OthersKept(w, w', q)
    ensures q in w'.streams && q in w'.runtime.queues && Transit(w', q) == Transit(w, q)[1..]
    ensures |w'.executed| == |w.executed| + 1 && w.executed <= w'.executed
    ensures Last(w'.executed).request == Transit(w, q)[0]
  {
    var oracle: Oracle := n => Reply(Failure(OtherError("")), Failure(OtherError("")), Failure(OtherError("")));
    assert Reaches(w, [], w);
    if w.streams[q].wire == [] {
      TransfersFirst(w, q);
      OneMore(w, [], w, OnStream(q, Transfer));
      var ready := Next(w, OnStream(q, Transfer));
      hide Next, Enabled, Transit;
      ExecutesFirst(ready, q, oracle);
      OneMore(w, [] + [OnStream(q, Transfer)], ready, Execute(q, oracle, None));
      steps, w' := [] + [OnStream(q, Transfer)] + [Execute(q, oracle, None)], Next(ready, Execute(q, oracle, None));
    } else {
      hide Next, Enabled, Transit;
      ExecutesFirst(w, q, oracle);
      OneMore(w, [], w, Execute(q, oracle, None));
      steps, w' := [] + [Execute(q, oracle, None)], Next(w, Execute(q, oracle, None));
    }
  }

  /** All up to the `p`-th command in transit on a stream are executed. */
  lemma {:induction false} ExecutesUpTo(w: World, q: nat, p: nat) returns (steps: seq<Step>, w': World)
    requires q in w.streams && q in w.runtime.queues && p < |Transit(w, q)|
    ensures Reaches(w, steps, w') && w'.runtime.issued == w.runtime.issued && OthersKept(w, w', q)
    ensures w.executed <= w'.executed && w'.executed != w.executed
    ensures Last(w'.executed).request == Transit(w, q)[p]
    decreases p
  {
    var next: World;
    steps, next := ExecutesNext(w, q);
    w' := next;
    if p > 0 {
      var later: seq<Step>;
      later, w' := ExecutesUpTo(next, q, p - 1);
      Delivery.Chained(w, steps, next, later, w');
      steps := steps + later;
    }
  }

  lemma NewestIsLate(executed: seq<Execution>, executed': seq<Execution>, k: Serial, l: Serial)
    requires executed != [] && executed <= executed' && executed' != executed
    requires IsCommand(Last(executed').request, k) && IsCommand(Last(executed).request, l)
    ensures !InOrderSoFar(executed', k, l)
  {
    hide IdOf;
    assert executed'[|executed| - 1] == Last(executed);
  }

  /** In transit on different streams, they may also be executed in the opposite order. */
  lemma OtherStreamOvertakes(w: World, k: Serial, l: Serial, q: nat, r: nat)
    requires w.runtime.issued <= U64_MODULUS && q != r && InTransit(w, k, q) && InTransit(w, l, r)
    ensures !OrderCertain(w, k, l)
  {
    var p1 :| 0 <= p1 < |Transit(w, q)| && IsCommand(Transit(w, q)[p1], k);
    var p2 :| 0 <= p2 < |Transit(w, r)| && IsCommand(Transit(w, r)[p2], l);
    hide Transit, IdOf;
    var steps2, mid := ExecutesUpTo(w, r, p2);
    var steps1, w' := ExecutesUpTo(mid, q, p1);
    Delivery.Chained(w, steps2, mid, steps1, w');
    NewestIsLate(mid.executed, w'.executed, k, l);
  }

  /** Until the ids run out: of two commands in transit, of one vpcd client or of any, the older is
      sure to be executed first if and only if both are on the same stream. */
  lemma OrderCertainIff(w: World, k: Serial, l: Serial, q: nat, r: nat)
    requires Reachable(w) && 1 <= k < l <= w.runtime.issued
    requires InTransit(w, k, q) && InTransit(w, l, r)
    ensures OrderCertain(w, k, l) <==> q == r
  {
    if q == r { SameStreamInOrder(w, k, l, q); } else { OtherStreamOvertakes(w, k, l, q, r); }
  }
}
