/** GetATR answers are coherent with the registrations made before their own lookup. */
module AtrLaws {
  import opened Prelude
  import opened SessionSpec
  import opened VpcdSpec
  import opened ClientCommands
  import opened World
  import opened Invariant
  import opened RegistrationPreservation
  import opened TaskPreservation
  import opened Transparency
  import opened Runs
  import opened ClientLaws
  import opened AnswerOrder
  import opened ClientRefinement

  // ---------------------------------------------------------------------------------------
  // Where in a run a look is taken

  /** The world of a look lies on the way of the run, and the look is a step taken there. */
  ghost predicate OnTheWay(w: World, steps: seq<Step>, w': World, i: nat, x: Look) {
    exists at | 0 <= at < |steps| ::
      steps[at] == OnTask(i, x.action) && Reaches(w, steps[..at], x.world) && Reaches(x.world, steps[at..], w')
  }

  lemma {:induction false} LooksAreOnTheWay(w: World, steps: seq<Step>, w': World, i: nat, x: Look)
    requires Reaches(w, steps, w') && x in LooksIn(w, steps, i)
    ensures OnTheWay(w, steps, w', i, x)
    decreases |steps|
  {
    var next := Next(w, steps[0]);
    if x in LookAt(w, steps[0], i) {
      assert Reaches(w, steps[..0], x.world) && steps[0..] == steps;
    } else {
      LooksAreOnTheWay(next, steps[1..], w', i, x);
      var at :| 0 <= at < |steps[1..]| && steps[1..][at] == OnTask(i, x.action)
                && Reaches(next, steps[1..][..at], x.world) && Reaches(x.world, steps[1..][at..], w');
      var upTo := steps[..at + 1];
      assert upTo[0] == steps[0] && upTo[1..] == steps[1..][..at];
      assert steps[at + 1..] == steps[1..][at..];
      assert Reaches(w, upTo, x.world);
    }
  }

  lemma {:induction false} PartsAreJoined(parts: seq<Looks>, k: nat, x: Look)
    requires k < |parts| && x in parts[k]
    ensures x in Joined(parts)
  {
    if k < |parts| - 1 {
      PartsAreJoined(parts[..|parts| - 1], k, x);
    }
  }

  lemma StepRegistersMore(w: World, step: Step)
    requires Enabled(w, step)
    ensures w.registrations <= Next(w, step).registrations
  {
    match step
    case OnTable(change) =>
    case OnStream(q, event) => StreamStepRegistersNothing(w, q, event);
    case OnTask(i, action) => TaskStepRegistersNothing(w, i, action);
    case _ =>
  }

  lemma StreamStepRegistersNothing(w: World, q: nat, event: StreamStep)
    requires StreamEnabled(w, q, event)
    ensures DoStream(w, q, event).registrations == w.registrations
  {
  }

  lemma TaskStepRegistersNothing(w: World, i: nat, action: TaskStep)
    requires i < |w.tasks| && TaskEnabled(w, w.tasks[i], action)
    ensures DoTask(w, i, action).registrations == w.registrations
  {
  }

  lemma {:induction false} RunRegistersMore(w: World, steps: seq<Step>, w': World)
    requires Reaches(w, steps, w')
    ensures w.registrations <= w'.registrations
    decreases |steps|
  {
    if steps != [] {
      StepRegistersMore(w, steps[0]);
      RunRegistersMore(Next(w, steps[0]), steps[1..], w');
    }
  }

  lemma {:induction false} PlaceAmongGiven(answers: seq<Answer>, n: nat) returns (k: nat)
    requires n < |answers|
    ensures k < |GivenBy(answers, answers[n].task)| && GivenBy(answers, answers[n].task)[k] == answers[n]
    decreases |answers|
  {
    if n == |answers| - 1 {
      k := |GivenBy(answers[..n], answers[n].task)|;
    } else {
      k := PlaceAmongGiven(answers[..|answers| - 1], n);
    }
  }

  // ---------------------------------------------------------------------------------------
  // Coherence

  /** The registered ATR, as of this world. */
  function RegisteredAtr(seen: World, a: Answer): seq<byte> {
    if a.sessionId in seen.table then LatestAtr(seen.registrations, Pair(a.sessionId, a.readerName)) else []
  }

  /** A lookup finds exactly the ATR registered last for a session that is there. */
  lemma LookupFindsRegistered(seen: World, a: Answer)
    requires Run(seen)
    ensures var cached := CachedAtr(seen.table, a.sessionId, a.readerName);
            RegisteredAtr(seen, a) == if cached.Some? then cached.value else []
    ensures CachedAtr(seen.table, a.sessionId, a.readerName).Some? <==> RegisteredAtr(seen, a) != []
  {
    RunRegistration(seen);
    CachedIsLatest(seen.table, seen.known, seen.registrations, a.sessionId, a.readerName);
  }

  /** The looks for one answer, all taken on the way. */
  lemma LooksFor(autoVpcd: bool, timeoutSecs: nat, steps: seq<Step>, w: World, n: nat) returns (part: Looks)
    requires Reaches(Init(autoVpcd, timeoutSecs), steps, w) && n < |w.answers|
    ensures w.answers[n].task < |w.tasks| && FinishedBy(part, w.answers[n], w.tasks[w.answers[n].task])
    ensures forall x | x in part :: OnTheWay(Init(autoVpcd, timeoutSecs), steps, w, w.answers[n].task, x)
  {
    var init, i := Init(autoVpcd, timeoutSecs), w.answers[n].task;
    var k := PlaceAmongGiven(w.answers, n);
    RunExplained([], init, steps, w, i);
    var parts, current := AnswersAreComputed(autoVpcd, timeoutSecs, steps, w, i);
    part := parts[k];
    hide OnTheWay, FinishedBy;
    forall x | x in part ensures OnTheWay(init, steps, w, i, x) {
      PartsAreJoined(parts, k, x);
      LooksAreOnTheWay(init, steps, w, i, x);
    }
  }

  /** The looks for a GetATR request begin with its lookup, which decides where the answer is
      from. */
  lemma LookedUpFirst(part: Looks, a: Answer, t: Task)
    requires FinishedBy(part, a, t) && a.request.AtrRequest?
    ensures |part| >= 2 && part[1].action == LookUp
    ensures var cached := CachedAtr(part[1].world.table, a.sessionId, a.readerName);
            && (a.source.FromTable? <==> cached.Some?)
            && (if cached.Some? then a.source == FromTable(|part[1].world.registrations|) && a.bytes == cached.value
                else a.checkedAt == |part[1].world.registrations|)
  {
    assert a.bytes == CodeAnswer(part, TargetOf(t), a.request, 0);
  }

  /** In every run, however long: a GetATR request was answered from the table if and only if an
      ATR was registered at that request's own lookup, and then with that ATR; the answer records
      how many registrations there were. */
  lemma RegisteredAtrIsGiven(autoVpcd: bool, timeoutSecs: nat, steps: seq<Step>, w: World, n: nat)
    returns (part: Looks, seen: World)
    requires Reaches(Init(autoVpcd, timeoutSecs), steps, w)
    requires n < |w.answers| && w.answers[n].request.AtrRequest?
    ensures var a := w.answers[n];
            && a.task < |w.tasks| && FinishedBy(part, a, w.tasks[a.task])
            && |part| >= 2 && part[1] == Look(LookUp, seen)
            && OnTheWay(Init(autoVpcd, timeoutSecs), steps, w, a.task, part[1])
            && seen.registrations <= w.registrations
            && (a.source.FromTable? <==> RegisteredAtr(seen, a) != [])
            && (if a.source.FromTable? then a.source == FromTable(|seen.registrations|) && a.bytes == RegisteredAtr(seen, a)
                else a.checkedAt == |seen.registrations|)
  {
    var a, init := w.answers[n], Init(autoVpcd, timeoutSecs);
    part := LooksFor(autoVpcd, timeoutSecs, steps, w, n);
    LookedUpFirst(part, a, w.tasks[a.task]);
    seen := part[1].world;
    hide FinishedBy;
    assert part[1] in part;
    var at :| 0 <= at < |steps| && steps[at] == OnTask(a.task, LookUp)
              && Reaches(init, steps[..at], seen) && Reaches(seen, steps[at..], w);
    RunRegistersMore(seen, steps[at..], w);
    LookupFindsRegistered(seen, a);
  }

  /** Coherence, until the ids run out: a GetATR answer is the ATR registered at its own lookup if
      there was one; otherwise it is what the card reported to a GetAtr command this vpcd client
      issued for this very reader, or empty, and empty if no command could be sent. What the
      client kept in its own `atr` field plays no part. */
  lemma AtrCoherence(autoVpcd: bool, timeoutSecs: nat, steps: seq<Step>, w: World, n: nat)
    returns (part: Looks, seen: World)
    requires Reaches(Init(autoVpcd, timeoutSecs), steps, w) && w.runtime.issued <= U64_MODULUS
    requires n < |w.answers| && w.answers[n].request.AtrRequest?
    ensures var a := w.answers[n];
            && a.task < |w.tasks| && FinishedBy(part, a, w.tasks[a.task])
            && |part| >= 2 && part[1] == Look(LookUp, seen)
            && OnTheWay(Init(autoVpcd, timeoutSecs), steps, w, a.task, part[1])
            && if RegisteredAtr(seen, a) != [] then a.source.FromTable? && a.bytes == RegisteredAtr(seen, a)
               else
                 && !a.source.FromTable?
                 && (a.bytes == [] || (a.source.FromCommand? && CardsOwnAtr(w, a)))
  {
    part, seen := RegisteredAtrIsGiven(autoVpcd, timeoutSecs, steps, w, n);
    var a := w.answers[n];
    hide FinishedBy, OnTheWay, RegisteredAtr;
    ReachableInv(w);
    assert Justified(a, w.executed, w.registrations);
    if a.source.FromCommand? && a.bytes != [] {
      var j :| 0 <= j < |w.executed| &&
        ExecutedFor(w.executed[j], a.source.serial, a) && CardReportedAtr(w.executed[j].events, a.bytes);
      OwnersAgree(w, n, j);
    }
  }

  ghost predicate CardsOwnAtr(w: World, a: Answer)
    requires a.source.FromCommand?
  {
    exists j | 0 <= j < |w.executed| ::
      OwnExecution(w, w.executed[j], a.source.serial, a) && CardReportedAtr(w.executed[j].events, a.bytes)
  }
}
