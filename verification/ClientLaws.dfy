/** What holds of vpcd clients over every run of the system, however many commands it issues. */
module ClientLaws {
  import opened Prelude
  import opened SessionSpec
  import opened VpcdSpec
  import opened World
  import opened Invariant
  import opened RegistrationPreservation
  import opened Transparency
  import opened Runs

  lemma StepKeepsRegistration(w: World, step: Step)
    requires RegistrationPart(w) && Enabled(w, step)
    ensures RegistrationPart(Next(w, step))
  {
    match step
    case OnTable(change) => TableStepKeepsRegistration(w, change);
    case OnStream(q, event) => StreamStepKeepsRegistration(w, q, event);
    case OnTask(i, action) => TaskStepKeepsRegistration(w, i, action);
    case Inspect(_, _, _, _) => KeptReadersKeepRegistration(w, Next(w, step));
    case Execute(q, oracle, establish) => KeptReadersKeepRegistration(w, Next(w, step));
    case DirectReply(j) => RespondKeepsRegistration(w, w.executed[j].response.sessionId, w.executed[j].response);
    case StreamReply(q, j) => RespondKeepsRegistration(w, w.streams[q].sessionId, w.executed[j].response);
  }

  lemma {:induction false} RunKeepsRegistration(w: World, steps: seq<Step>, w': World)
    requires RegistrationPart(w) && Reaches(w, steps, w')
    ensures RegistrationPart(w')
    decreases |steps|
  {
    if steps != [] {
      StepKeepsRegistration(w, steps[0]);
      RunKeepsRegistration(Next(w, steps[0]), steps[1..], w');
    }
  }

  lemma RunRegistration(w: World)
    requires Run(w)
    ensures RegistrationPart(w)
  {
    var autoVpcd: bool, timeoutSecs: nat, steps: seq<Step> :| Reaches(Init(autoVpcd, timeoutSecs), steps, w);
    InitInv(autoVpcd, timeoutSecs);
    RunKeepsRegistration(Init(autoVpcd, timeoutSecs), steps, w);
  }

  // ---------------------------------------------------------------------------------------
  // One vpcd client per reader

  lemma CountAtLeastTwo(s: seq<Pair>, i: nat, j: nat)
    requires i < j < |s| && s[i] == s[j]
    ensures multiset(s)[s[i]] >= 2
  {
    assert s == s[..j] + s[j..];
    assert s[..j][i] == s[i] && s[j..][0] == s[j];
    assert s[i] in multiset(s[..j]) && s[i] in multiset(s[j..]);
  }

  /** At most one vpcd client ever runs for a reader of a session. */
  lemma OneClientPerReader(w: World, i: nat, j: nat)
    requires Run(w) && i < j < |w.tasks|
    ensures w.tasks[i].sessionId != w.tasks[j].sessionId || w.tasks[i].readerName != w.tasks[j].readerName
  {
    RunRegistration(w);
    var running := PairsOf(w.tasks);
    assert multiset(w.starting)[running[i]] + multiset(running)[running[i]] == Wanted(w.registrations, w.autoVpcd, running[i]);
    if running[i] == running[j] {
      CountAtLeastTwo(running, i, j);
    }
  }

  /** A vpcd client is running, or about to start, exactly for the readers whose first
      registration had a card while the feature was on. */
  lemma ClientIffFirstHadCard(w: World, p: Pair)
    requires Run(w)
    ensures var first := FirstOf(w.registrations, p);
            (p in PairsOf(w.tasks) || p in w.starting) <==> (w.autoVpcd && first.Some? && first.value.cardPresent)
  {
    RunRegistration(w);
    assert multiset(w.starting)[p] + multiset(PairsOf(w.tasks))[p] == Wanted(w.registrations, w.autoVpcd, p);
    assert p in PairsOf(w.tasks) <==> multiset(PairsOf(w.tasks))[p] > 0;
    assert p in w.starting <==> multiset(w.starting)[p] > 0;
  }

  // ---------------------------------------------------------------------------------------
  // Waiting is bounded by readers

  function WaitersOf(w: World, sid: string): set<nat> {
    set i: nat | i < |w.tasks| && w.tasks[i].sessionId == sid && w.tasks[i].phase.Waiting?
  }

  lemma {:induction false} InjectionBounds(s: set<nat>, names: set<string>, f: nat --> string)
    requires forall i | i in s :: f.requires(i) && f(i) in names
    requires forall i, j | i in s && j in s && i != j :: f(i) != f(j)
    ensures |s| <= |names|
    decreases |s|
  {
    if s != {} {
      var i :| i in s;
      InjectionBounds(s - {i}, names - {f(i)}, f);
    }
  }

  /** A session is never waited on by more commands than it has registered readers. */
  lemma WaitersBoundedByReaders(w: World, sid: string)
    requires Run(w) && sid in w.table
    ensures |WaitersOf(w, sid)| <= |w.table[sid].readers|
  {
    RunRegistration(w);
    var s := WaitersOf(w, sid);
    var readers := w.table[sid].readers;
    var f := i requires 0 <= i < |w.tasks| => w.tasks[i].readerName;
    forall i | i in s ensures f.requires(i) && f(i) in readers.Keys {
      var p := Pair(sid, w.tasks[i].readerName);
      assert PairsOf(w.tasks)[i] == p;
      ClientIffFirstHadCard(w, p);
      FirstIffLatest(w.registrations, p);
      assert ReadersCurrent(sid, w.table[sid], w.registrations);
      assert p.readerName in readers <==> LatestOf(w.registrations, p).Some?;
    }
    forall i, j | i in s && j in s && i != j ensures f(i) != f(j) {
      if i < j { OneClientPerReader(w, i, j); } else { OneClientPerReader(w, j, i); }
    }
    InjectionBounds(s, readers.Keys, f);
  }

  // ---------------------------------------------------------------------------------------
  // One answer per command

  predicate From(a: Answer, k: Serial) {
    a.source == FromCommand(k)
  }

  predicate WaitsFor(t: Task, k: Serial) {
    t.phase.Waiting? && t.phase.serial == k
  }

  /** No two answers, and no answer and no wait, and no two waits, are of one command. */
  ghost predicate Apart(tasks: seq<Task>, answers: seq<Answer>, issued: nat) {
    && (forall n, k: Serial :: 0 <= n < |answers| && From(answers[n], k) ==> k <= issued)
    && (forall i, k: Serial :: 0 <= i < |tasks| && WaitsFor(tasks[i], k) ==> k <= issued)
    && (forall m, n, k: Serial :: 0 <= m < n < |answers| && From(answers[m], k) ==> !From(answers[n], k))
    && (forall n, i, k: Serial :: 0 <= n < |answers| && 0 <= i < |tasks| && From(answers[n], k) ==> !WaitsFor(tasks[i], k))
    && (forall i, j, k: Serial :: 0 <= i < j < |tasks| && WaitsFor(tasks[i], k) ==> !WaitsFor(tasks[j], k))
  }

  lemma MoveKeepsApart(tasks: seq<Task>, answers: seq<Answer>, issued: nat, issued': nat, i: nat, m: Move)
    requires Apart(tasks, answers, issued) && issued <= issued' && i < |tasks|
    requires |m.given| <= 1
    requires m.task.phase.Waiting? ==> m.given == [] && issued < m.task.phase.serial <= issued'
    requires forall a | a in m.given && a.source.FromCommand? :: WaitsFor(tasks[i], a.source.serial)
    ensures Apart(tasks[i := m.task], answers + m.given, issued')
  {
    assert forall a | a in m.given :: a == m.given[0];
  }

  lemma TaskStepKeepsApart(w: World, i: nat, action: TaskStep)
    requires Apart(w.tasks, w.answers, w.runtime.issued) && i < |w.tasks| && TaskEnabled(w, w.tasks[i], action)
    ensures var w' := DoTask(w, i, action); Apart(w'.tasks, w'.answers, w'.runtime.issued)
  {
    var t, issued := w.tasks[i], w.runtime.issued;
    match action
    case Receive(request) => MoveKeepsApart(w.tasks, w.answers, issued, issued, i, ReceiveMove(t, request));
    case LookUp => MoveKeepsApart(w.tasks, w.answers, issued, issued, i, LookUpMove(w.table, |w.registrations|, i, t));
    case Poll => MoveKeepsApart(w.tasks, w.answers, issued, issued, i, PollMove(w.table, i, t));
    case IssueCommand =>
      if CanSend(w, t.sessionId) {
        MoveKeepsApart(w.tasks, w.answers, issued, issued + 1, i, IssueMove(i, t, SendResultOf(w, t)));
      } else {
        MoveKeepsApart(w.tasks, w.answers, issued, issued, i, FailMove(i, t, t.phase.request));
      }
    case Resume =>
      MoveKeepsApart(w.tasks, w.answers, issued, issued, i, ReplyMove(i, t, Found(w.runtime.oneshots[t.phase.serial].cell)));
    case TimeOut => MoveKeepsApart(w.tasks, w.answers, issued, issued, i, ReplyMove(i, t, TimedOut));
  }

  lemma OneMoreKeepsApart(tasks: seq<Task>, answers: seq<Answer>, issued: nat, t: Task)
    requires Apart(tasks, answers, issued) && !t.phase.Waiting?
    ensures Apart(tasks + [t], answers, issued)
  {
  }

  lemma LaterKeepsApart(tasks: seq<Task>, answers: seq<Answer>, issued: nat, issued': nat)
    requires Apart(tasks, answers, issued) && issued <= issued'
    ensures Apart(tasks, answers, issued')
  {
  }

  lemma StepKeepsApart(w: World, step: Step)
    requires Apart(w.tasks, w.answers, w.runtime.issued) && Enabled(w, step)
    ensures var w' := Next(w, step); Apart(w'.tasks, w'.answers, w'.runtime.issued)
  {
    match step
    case OnTask(i, action) => TaskStepKeepsApart(w, i, action);
    case OnTable(Start(i)) => OneMoreKeepsApart(w.tasks, w.answers, w.runtime.issued, Last(DoStart(w, i).tasks));
    case _ =>
      hide Apart, Next;
      OthersKeepClients(w, step);
      IssuedNeverShrinks(w, step);
      LaterKeepsApart(w.tasks, w.answers, w.runtime.issued, Next(w, step).runtime.issued);
  }

  lemma {:induction false} RunKeepsApart(w: World, steps: seq<Step>, w': World)
    requires Apart(w.tasks, w.answers, w.runtime.issued) && Reaches(w, steps, w')
    ensures Apart(w'.tasks, w'.answers, w'.runtime.issued)
    decreases |steps|
  {
    if steps != [] {
      StepKeepsApart(w, steps[0]);
      RunKeepsApart(Next(w, steps[0]), steps[1..], w');
    }
  }

  /** Distinct answers never come from the same command, even once ids have wrapped. */
  lemma OneAnswerPerCommand(w: World, m: nat, n: nat)
    requires Run(w) && m < n < |w.answers|
    requires w.answers[m].source.FromCommand? && w.answers[n].source.FromCommand?
    ensures w.answers[m].source.serial != w.answers[n].source.serial
  {
    var autoVpcd: bool, timeoutSecs: nat, steps: seq<Step> :| Reaches(Init(autoVpcd, timeoutSecs), steps, w);
    RunKeepsApart(Init(autoVpcd, timeoutSecs), steps, w);
    assert From(w.answers[m], w.answers[m].source.serial);
  }
}
