/** The vpcd clients of the whole-system state machine do what the client's own code does.

    The code (VpcdClient.dfy) computes an answer from what it sees at its few looks at the
    shared state. Here all steps a vpcd client takes in a run are shown to fall into consecutive
    parts, one per answer, such that each part is exactly the looks the code takes for that
    request, and the answer is the one the code computes from them. */
module ClientRefinement {
  import opened Prelude
  import Messages
  import opened SessionSpec
  import opened VpcdSpec
  import opened World
  import opened Runs
  import opened AnswerOrder
  import Vicc
  import Client = VpcdClient

  /** A step of a vpcd client, and the world in which it is taken. */
  datatype Look = Look(action: TaskStep, world: World)

  type Looks = seq<Look>

  /** The look this step is for vpcd client `i`, if it is one. */
  function LookAt(w: World, step: Step, i: nat): Looks {
    if step.OnTask? && step.task == i then [Look(step.action, w)] else []
  }

  /** All looks of vpcd client `i` in a run. */
  function LooksIn(w: World, steps: seq<Step>, i: nat): Looks
    decreases |steps|
  {
    if steps == [] || !Enabled(w, steps[0]) then []
    else LookAt(w, steps[0], i) + LooksIn(Next(w, steps[0]), steps[1..], i)
  }

  // ---------------------------------------------------------------------------------------
  // The looks for one request

  function MessageFor(request: Request): Vicc.Message {
    match request
    case ApduRequest(apdu) => Vicc.ApduMessage(apdu)
    case AtrRequest => Vicc.ControlMessage(Vicc.GetAtr)
  }

  /** Where the looks for the command channel begin: a GetATR request looks up the ATR first. */
  function FirstPoll(request: Request): nat {
    if request.AtrRequest? then 2 else 1
  }

  function TableAt(s: Looks, n: nat): Table {
    if n < |s| then s[n].world.table else map[]
  }

  /** What sending the command comes to in this world. */
  function SendIn(w: World, target: Client.Target, request: Request): SendResult {
    if CanSend(w, target.sessionId) then
      SendCommand(w.table[target.sessionId], w.runtime, CommandFor(request), target.readerName).result
    else NotConnected
  }

  ghost predicate Begins(s: Looks, target: Client.Target, request: Request) {
    && |s| >= FirstPoll(request) && s[0].action == Receive(request)
    && (request.AtrRequest? ==>
          s[1].action == LookUp && CachedAtr(s[1].world.table, target.sessionId, target.readerName) == None)
  }

  /** Look number `n` for the channel found this. */
  ghost predicate PollAt(s: Looks, target: Client.Target, request: Request, n: nat, found: Sighting) {
    && FirstPoll(request) + n < |s| && s[FirstPoll(request) + n].action == Poll
    && Observe(TableAt(s, FirstPoll(request) + n), target.sessionId) == found
  }

  /** The first `n` looks for the channel found the session without one. */
  ghost predicate Polled(s: Looks, target: Client.Target, request: Request, n: nat) {
    && Begins(s, target, request) && FirstPoll(request) + n <= |s|
    && forall j: nat | j < n :: PollAt(s, target, request, j, NotReady)
  }

  /** The look after those found this. */
  ghost predicate PolledThen(s: Looks, target: Client.Target, request: Request, n: nat, found: Sighting) {
    Polled(s, target, request, n) && n < MAX_POLLS && PollAt(s, target, request, n, found)
  }

  /** Then the command was sent, with this result. */
  ghost predicate Issued(s: Looks, target: Client.Target, request: Request, n: nat, result: SendResult) {
    && PolledThen(s, target, request, n, ChannelUp) && FirstPoll(request) + n + 1 < |s|
    && s[FirstPoll(request) + n + 1].action == IssueCommand
    && SendIn(s[FirstPoll(request) + n + 1].world, target, request) == result
  }

  /** `checkedAt` tells how many registrations there were when the ATR was looked up. */
  ghost predicate Checked(s: Looks, checkedAt: nat, request: Request) {
    request.AtrRequest? ==> |s| >= 2 && checkedAt == |s[1].world.registrations|
  }

  /** The looks a client has taken for the request it is working on. */
  ghost predicate Standing(s: Looks, t: Task) {
    var target := TargetOf(t);
    match t.phase
    case Idle => s == []
    case LookingUp => |s| == 1 && s[0].action == Receive(AtrRequest)
    case Polling(request, n) =>
      Checked(s, t.checkedAt, request) && n < MAX_POLLS && |s| == FirstPoll(request) + n && Polled(s, target, request, n)
    case Ready(request) =>
      && Checked(s, t.checkedAt, request)
      && |s| > FirstPoll(request) && PolledThen(s, target, request, |s| - FirstPoll(request) - 1, ChannelUp)
    case Waiting(request, k) =>
      && Checked(s, t.checkedAt, request)
      && |s| > FirstPoll(request) + 1 && Issued(s, target, request, |s| - FirstPoll(request) - 2, Sent(k))
  }

  function TargetOf(t: Task): Client.Target {
    Client.Target(t.sessionId, t.readerName)
  }

  /** The ATR was found in the table. */
  ghost predicate FoundAtr(s: Looks, target: Client.Target, a: Answer) {
    && a.request.AtrRequest? && |s| == 2 && s[0].action == Receive(AtrRequest) && s[1].action == LookUp
    && CachedAtr(s[1].world.table, target.sessionId, target.readerName).Some?
    && a.source == FromTable(|s[1].world.registrations|)
  }

  /** No command was sent: the channel did not show, the session was gone, or sending failed. */
  ghost predicate NothingSent(s: Looks, target: Client.Target, request: Request) {
    var polls := |s| - FirstPoll(request);
    || (polls == MAX_POLLS && Polled(s, target, request, MAX_POLLS))
    || (polls >= 1 && PolledThen(s, target, request, polls - 1, SessionGone))
    || (polls >= 2 && exists result: SendResult :: !result.Sent? && Issued(s, target, request, polls - 2, result))
  }

  /** The command was sent as number `k`, and the wait for it ended. */
  ghost predicate WaitedFor(s: Looks, target: Client.Target, request: Request, k: Serial) {
    && |s| >= FirstPoll(request) + 3
    && Issued(s, target, request, |s| - FirstPoll(request) - 3, Sent(k))
    && (Last(s).action == TimeOut || (Last(s).action == Resume && Used(Last(s).world, k)))
  }

  predicate Used(w: World, k: Serial) {
    k in w.runtime.oneshots && !w.runtime.oneshots[k].cell.Empty?
  }

  /** These are all the looks the code takes for the request that got this answer. */
  ghost predicate Ran(s: Looks, target: Client.Target, a: Answer) {
    || FoundAtr(s, target, a)
    || (Checked(s, a.checkedAt, a.request)
        && match a.source
           case Unavailable => NothingSent(s, target, a.request)
           case FromCommand(k) => WaitedFor(s, target, a.request, k)
           case FromTable(_) => false)
  }

  // ---------------------------------------------------------------------------------------
  // What the code sees at these looks

  /** The look at which the command is sent: the last but one if a wait followed. */
  function SendingLook(s: Looks): nat
    requires s != []
  {
    if |s| >= 2 && s[|s| - 2].action.IssueCommand? then |s| - 2 else |s| - 1
  }

  /** How the wait ended. */
  function ReplyIn(s: Looks, target: Client.Target, request: Request): WaitResult
    requires s != []
  {
    var result := SendIn(s[SendingLook(s)].world, target, request);
    if Last(s).action.Resume? && result.Sent? && Used(Last(s).world, result.serial)
    then Found(Last(s).world.runtime.oneshots[result.serial].cell)
    else TimedOut
  }

  /** `delayMs` is how long after the command the reply came, if one did. */
  function Seen(s: Looks, target: Client.Target, request: Request, delayMs: nat): Client.Surroundings
    requires s != []
  {
    var sending := s[SendingLook(s)].world;
    Client.Surroundings(TableAt(s, 1), (n: nat) => TableAt(s, FirstPoll(request) + n),
                        sending.table, sending.runtime, delayMs, ReplyIn(s, target, request))
  }

  /** The code's answer, for a reply that came after this time. */
  function CodeAnswer(s: Looks, target: Client.Target, request: Request, delayMs: nat): seq<byte>
    requires s != []
  {
    Client.Response(Some(target), MessageFor(request), Seen(s, target, request, delayMs))
  }

  /** These looks are the code's for this answer, however long within the 30 s it waits for the
      reply. */
  ghost predicate FinishedBy(s: Looks, a: Answer, t: Task) {
    && a.sessionId == t.sessionId && a.readerName == t.readerName
    && s != [] && Ran(s, TargetOf(t), a)
    && forall delayMs: nat | delayMs <= 30_000 :: a.bytes == CodeAnswer(s, TargetOf(t), a.request, delayMs)
  }

  // ---------------------------------------------------------------------------------------
  // The code's polling, on looks

  /** When the first look that does not wait finds the session gone, or all looks wait, the code
      does not find a channel. */
  lemma NoChannel(atPoll: nat -> Table, sid: string, n: nat)
    requires forall j: nat | j < n :: Observe(atPoll(j), sid) == NotReady
    requires n >= MAX_POLLS || Observe(atPoll(n), sid) == SessionGone
    ensures !Client.PollFrom(atPoll, sid, 0).ready
  {
    forall i: nat ensures !Client.UpAt(atPoll, sid, 0, i) {
      NotUpAt(atPoll, sid, n, i);
    }
    NeverUp(atPoll, sid);
  }

  lemma NotUpAt(atPoll: nat -> Table, sid: string, n: nat, i: nat)
    requires forall j: nat | j < n :: Observe(atPoll(j), sid) == NotReady
    requires n >= MAX_POLLS || Observe(atPoll(n), sid) == SessionGone
    ensures !Client.UpAt(atPoll, sid, 0, i)
  {
  }

  lemma NeverUp(atPoll: nat -> Table, sid: string)
    requires forall i: nat :: !Client.UpAt(atPoll, sid, 0, i)
    ensures !Client.PollFrom(atPoll, sid, 0).ready
  {
    Client.PollingSucceedsIff(atPoll, sid, 0);
  }

  lemma ChannelFound(atPoll: nat -> Table, sid: string, n: nat)
    requires Client.UpAt(atPoll, sid, 0, n)
    ensures Client.PollFrom(atPoll, sid, 0).ready
  {
    Client.PollingSucceedsIff(atPoll, sid, 0);
  }

  /** The code's answer by how its exchange with the client went. */
  lemma AnswerByExchange(target: Client.Target, request: Request, v: Client.Surroundings, x: Client.Exchange)
    requires x == Client.Ask(target, CommandFor(request), v)
    requires request.AtrRequest? ==> CachedAtr(v.atLookup, target.sessionId, target.readerName).None?
    ensures Client.Response(Some(target), MessageFor(request), v)
              == if request.ApduRequest? then (if x.reply.None? then NO_DIAGNOSIS else ApduAnswer(x.reply.value))
                 else if x.reply.None? then [] else AtrAnswer(x.reply.value)
  {
  }

  /** How the world's clients answer by the same exchange. */
  function AnswerOf(request: Request, reply: Option<WaitResult>): seq<byte> {
    match request
    case ApduRequest(_) => if reply.None? then NO_DIAGNOSIS else ApduAnswer(reply.value)
    case AtrRequest => if reply.None? then [] else AtrAnswer(reply.value)
  }

  /** The code gives up looking. */
  lemma CodeGivesUp(s: Looks, target: Client.Target, request: Request, n: nat, delayMs: nat)
    requires Polled(s, target, request, n)
    requires n >= MAX_POLLS || PollAt(s, target, request, n, SessionGone)
    ensures s != [] && CodeAnswer(s, target, request, delayMs) == AnswerOf(request, None)
  {
    var v := Seen(s, target, request, delayMs);
    forall j: nat | j < n ensures Observe(v.atPoll(j), target.sessionId) == NotReady {
      assert PollAt(s, target, request, j, NotReady);
    }
    NoChannel(v.atPoll, target.sessionId, n);
    AnswerByExchange(target, request, v, Client.Ask(target, CommandFor(request), v));
  }

  /** The code sends. */
  lemma CodeSends(s: Looks, target: Client.Target, request: Request, n: nat, result: SendResult, delayMs: nat)
    requires delayMs <= 30_000
    requires Issued(s, target, request, n, result) && SendingLook(s) == FirstPoll(request) + n + 1
    ensures CodeAnswer(s, target, request, delayMs)
         == AnswerOf(request, if result.Sent? then Some(ReplyIn(s, target, request)) else None)
  {
    var v := Seen(s, target, request, delayMs);
    forall j: nat | j < n ensures Observe(v.atPoll(j), target.sessionId) == NotReady {
      assert PollAt(s, target, request, j, NotReady);
    }
    ChannelFound(v.atPoll, target.sessionId, n);
    SentByCode(v, target, request);
    AnswerByExchange(target, request, v, Client.Ask(target, CommandFor(request), v));
  }

  /** After the channel is found, the exchange is decided by sending in the world then. */
  lemma SentByCode(v: Client.Surroundings, target: Client.Target, request: Request)
    requires Client.PollFrom(v.atPoll, target.sessionId, 0).ready && v.repliedAfterMs <= 30_000
    ensures var sid := target.sessionId;
            var sent := sid in v.atSend && v.atSend[sid].channel.Some?
                        && SendCommand(v.atSend[sid], v.runtimeAtSend, CommandFor(request), target.readerName).result.Sent?;
            Client.Ask(target, CommandFor(request), v).reply == if sent then Some(v.reply) else None
  {
  }

  // ---------------------------------------------------------------------------------------
  // One more look

  lemma PollAtLater(s: Looks, x: Look, target: Client.Target, request: Request, n: nat, found: Sighting)
    requires PollAt(s, target, request, n, found)
    ensures PollAt(s + [x], target, request, n, found)
  {
    assert (s + [x])[FirstPoll(request) + n] == s[FirstPoll(request) + n];
  }

  lemma PolledLater(s: Looks, x: Look, target: Client.Target, request: Request, n: nat)
    requires Polled(s, target, request, n)
    ensures Polled(s + [x], target, request, n)
  {
    forall j: nat | j < n ensures PollAt(s + [x], target, request, j, NotReady) {
      PollAtLater(s, x, target, request, j, NotReady);
    }
  }

  lemma PolledThenLater(s: Looks, x: Look, target: Client.Target, request: Request, n: nat, found: Sighting)
    requires PolledThen(s, target, request, n, found)
    ensures PolledThen(s + [x], target, request, n, found)
  {
    hide Polled, PollAt;
    PolledLater(s, x, target, request, n);
    PollAtLater(s, x, target, request, n, found);
  }

  lemma IssuedLater(s: Looks, x: Look, target: Client.Target, request: Request, n: nat, result: SendResult)
    requires Issued(s, target, request, n, result)
    ensures Issued(s + [x], target, request, n, result)
  {
    hide PolledThen, SendIn;
    PolledThenLater(s, x, target, request, n, ChannelUp);
    assert (s + [x])[FirstPoll(request) + n + 1] == s[FirstPoll(request) + n + 1];
  }

  /** What a vpcd client does next. */
  function MoveOf(w: World, i: nat, t: Task, action: TaskStep): Move
    requires TaskEnabled(w, t, action)
  {
    match action
    case Receive(request) => ReceiveMove(t, request)
    case LookUp => LookUpMove(w.table, |w.registrations|, i, t)
    case Poll => PollMove(w.table, i, t)
    case IssueCommand =>
      if CanSend(w, t.sessionId) then IssueMove(i, t, SendResultOf(w, t)) else FailMove(i, t, t.phase.request)
    case Resume => ReplyMove(i, t, Found(w.runtime.oneshots[t.phase.serial].cell))
    case TimeOut => ReplyMove(i, t, TimedOut)
  }

  /** A move with its look leaves the client working on its request, or finishes it. */
  ghost predicate Accounts(s: Looks, m: Move, i: nat, t: Task) {
    && TargetOf(m.task) == TargetOf(t)
    && if m.given == [] then Standing(s, m.task)
       else |m.given| == 1 && m.given[0].task == i && m.task.phase.Idle? && FinishedBy(s, m.given[0], m.task)
  }

  lemma LookUpAccounts(s: Looks, w: World, i: nat, t: Task)
    requires t.phase.LookingUp? && Standing(s, t)
    ensures Accounts(s + [Look(LookUp, w)], LookUpMove(w.table, |w.registrations|, i, t), i, t)
  {
    var s' := s + [Look(LookUp, w)];
    assert s'[0] == s[0] && s'[1] == Look(LookUp, w);
    var m := LookUpMove(w.table, |w.registrations|, i, t);
    if m.given != [] {
      assert FoundAtr(s', TargetOf(t), m.given[0]);
    }
  }

  lemma FailAccounts(s: Looks, i: nat, t: Task, request: Request)
    requires s != [] && NothingSent(s, TargetOf(t), request)
    requires Checked(s, t.checkedAt, request)
    requires forall delayMs: nat | delayMs <= 30_000 :: CodeAnswer(s, TargetOf(t), request, delayMs) == AnswerOf(request, None)
    ensures Accounts(s, FailMove(i, t, request), i, t)
  {
  }

  lemma CheckedLater(s: Looks, x: Look, checkedAt: nat, request: Request)
    requires Checked(s, checkedAt, request)
    ensures Checked(s + [x], checkedAt, request)
  {
  }

  lemma PollAccounts(s: Looks, w: World, i: nat, t: Task)
    requires t.phase.Polling? && Standing(s, t)
    ensures Accounts(s + [Look(Poll, w)], PollMove(w.table, i, t), i, t)
  {
    var x, target := Look(Poll, w), TargetOf(t);
    var Polling(request, n) := t.phase;
    var s' := s + [x];
    PolledLater(s, x, target, request, n);
    CheckedLater(s, x, t.checkedAt, request);
    assert s'[FirstPoll(request) + n] == x;
    match Observe(w.table, t.sessionId)
    case ChannelUp => assert PolledThen(s', target, request, n, ChannelUp);
    case SessionGone =>
      forall delayMs: nat { CodeGivesUp(s', target, request, n, delayMs); }
      FailAccounts(s', i, t, request);
    case NotReady =>
      OneMorePolled(s', target, request, n);
      if n + 1 >= MAX_POLLS {
        forall delayMs: nat { CodeGivesUp(s', target, request, n + 1, delayMs); }
        FailAccounts(s', i, t, request);
      }
  }

  lemma OneMorePolled(s: Looks, target: Client.Target, request: Request, n: nat)
    requires Polled(s, target, request, n) && PollAt(s, target, request, n, NotReady)
    ensures Polled(s, target, request, n + 1)
  {
  }

  lemma IssueAccounts(s: Looks, w: World, i: nat, t: Task)
    requires t.phase.Ready? && Standing(s, t) && TaskEnabled(w, t, IssueCommand)
    ensures Accounts(s + [Look(IssueCommand, w)], MoveOf(w, i, t, IssueCommand), i, t)
  {
    assert Last(s).action == Poll;
    hide PolledThen, CodeAnswer;
    var x, target, request := Look(IssueCommand, w), TargetOf(t), t.phase.request;
    var s' := s + [x];
    var n := |s| - FirstPoll(request) - 1;
    PolledThenLater(s, x, target, request, n, ChannelUp);
    CheckedLater(s, x, t.checkedAt, request);
    assert s'[FirstPoll(request) + n + 1] == x;
    var result := SendIn(w, target, request);
    assert Issued(s', target, request, n, result);
    if !result.Sent? {
      forall delayMs: nat | delayMs <= 30_000 { CodeSends(s', target, request, n, result, delayMs); }
      FailAccounts(s', i, t, request);
    }
  }

  lemma ReplyAccounts(s: Looks, x: Look, i: nat, t: Task, reply: WaitResult)
    requires t.phase.Waiting? && Standing(s, t)
    requires if reply.TimedOut? then x.action == TimeOut
             else x.action == Resume && Used(x.world, t.phase.serial)
                  && reply == Found(x.world.runtime.oneshots[t.phase.serial].cell)
    ensures Accounts(s + [x], ReplyMove(i, t, reply), i, t)
  {
    hide CodeAnswer, PolledThen;
    var target := TargetOf(t);
    var Waiting(request, k) := t.phase;
    var s' := s + [x];
    var n := |s| - FirstPoll(request) - 2;
    IssuedLater(s, x, target, request, n, Sent(k));
    CheckedLater(s, x, t.checkedAt, request);
    assert s'[|s'| - 2] == s[|s| - 1];
    assert ReplyIn(s', target, request) == reply;
    forall delayMs: nat | delayMs <= 30_000 { CodeSends(s', target, request, n, Sent(k), delayMs); }
  }

  lemma MoveAccounts(s: Looks, w: World, i: nat, t: Task, action: TaskStep)
    requires Standing(s, t) && TaskEnabled(w, t, action)
    ensures Accounts(s + [Look(action, w)], MoveOf(w, i, t, action), i, t)
  {
    match action
    case Receive(request) => assert s + [Look(action, w)] == [Look(action, w)];
    case LookUp => LookUpAccounts(s, w, i, t);
    case Poll => PollAccounts(s, w, i, t);
    case IssueCommand => IssueAccounts(s, w, i, t);
    case Resume => ReplyAccounts(s, Look(action, w), i, t, Found(w.runtime.oneshots[t.phase.serial].cell));
    case TimeOut => ReplyAccounts(s, Look(action, w), i, t, TimedOut);
  }

  // ---------------------------------------------------------------------------------------
  // Whole runs

  function Joined(parts: seq<Looks>): Looks {
    if parts == [] then [] else Joined(parts[..|parts| - 1]) + Last(parts)
  }

  lemma JoinedAppend(parts: seq<Looks>, part: Looks)
    ensures Joined(parts + [part]) == Joined(parts) + part
  {
    assert (parts + [part])[..|parts|] == parts;
  }

  /** All looks of a client, in order: those for each of its answers, then those for the request
      it is working on. */
  ghost predicate Accounted(looks: Looks, parts: seq<Looks>, current: Looks, t: Task, given: seq<Answer>) {
    && looks == Joined(parts) + current
    && |parts| == |given|
    && (forall k :: 0 <= k < |parts| ==> FinishedBy(parts[k], given[k], t))
    && Standing(current, t)
  }

  ghost predicate Accountable(looks: Looks, t: Task, given: seq<Answer>) {
    exists parts: seq<Looks>, current: Looks :: Accounted(looks, parts, current, t, given)
  }

  ghost predicate Explained(looks: Looks, w: World, i: nat) {
    if i < |w.tasks| then Accountable(looks, w.tasks[i], GivenBy(w.answers, i))
    else looks == [] && GivenBy(w.answers, i) == []
  }

  lemma NothingStanding(t: Task)
    requires t.phase.Idle?
    ensures Standing([], t)
  {
  }

  lemma SameTarget(s: Looks, a: Answer, t: Task, t': Task)
    requires FinishedBy(s, a, t) && TargetOf(t') == TargetOf(t)
    ensures FinishedBy(s, a, t')
  {
  }

  lemma StillAccounted(looks: Looks, parts: seq<Looks>, current: Looks, t: Task, given: seq<Answer>, x: Look, t': Task)
    requires Accounted(looks, parts, current, t, given) && TargetOf(t') == TargetOf(t) && Standing(current + [x], t')
    ensures Accounted(looks + [x], parts, current + [x], t', given)
  {
    forall k | 0 <= k < |parts| ensures FinishedBy(parts[k], given[k], t') {
      SameTarget(parts[k], given[k], t, t');
    }
    hide FinishedBy, Standing;
    assert Joined(parts) + (current + [x]) == looks + [x];
  }

  lemma OneMoreAccounted(looks: Looks, parts: seq<Looks>, current: Looks, t: Task, given: seq<Answer>, x: Look, t': Task, a: Answer)
    requires Accounted(looks, parts, current, t, given) && TargetOf(t') == TargetOf(t) && t'.phase.Idle?
    requires FinishedBy(current + [x], a, t')
    ensures Accounted(looks + [x], parts + [current + [x]], [], t', given + [a])
  {
    forall k | 0 <= k < |parts| ensures FinishedBy(parts[k], given[k], t') {
      SameTarget(parts[k], given[k], t, t');
    }
    NothingStanding(t');
    hide FinishedBy, Standing;
    JoinedAppend(parts, current + [x]);
    assert Joined(parts + [current + [x]]) + [] == looks + [x];
  }

  lemma MoveAccountable(looks: Looks, given: seq<Answer>, w: World, i: nat, t: Task, action: TaskStep)
    requires Accountable(looks, t, given) && TaskEnabled(w, t, action)
    ensures var m := MoveOf(w, i, t, action);
            && |m.given| <= 1 && (forall a | a in m.given :: a.task == i)
            && Accountable(looks + [Look(action, w)], m.task, given + m.given)
  {
    var x, m := Look(action, w), MoveOf(w, i, t, action);
    var parts: seq<Looks>, current: Looks :| Accounted(looks, parts, current, t, given);
    MoveAccounts(current, w, i, t, action);
    hide FinishedBy, Standing, Accounted, MoveOf;
    if m.given == [] {
      StillAccounted(looks, parts, current, t, given, x, m.task);
      assert given + m.given == given;
    } else {
      OneMoreAccounted(looks, parts, current, t, given, x, m.task, m.given[0]);
      assert m.given == [m.given[0]];
    }
  }

  /** A client's move shows in its own answers only. */
  lemma GivenAfter(answers: seq<Answer>, given: seq<Answer>, i: nat, j: nat)
    requires |given| <= 1 && forall a | a in given :: a.task == j
    ensures GivenBy(answers + given, i) == GivenBy(answers, i) + if i == j then given else []
  {
    if given == [] {
      assert answers + given == answers;
    } else {
      assert given == [given[0]];
      GivenByAppend(answers, given[0], i);
    }
  }

  lemma MoveExplained(looks: Looks, w: World, i: nat, action: TaskStep)
    requires Explained(looks, w, i) && i < |w.tasks| && TaskEnabled(w, w.tasks[i], action)
    ensures Explained(looks + [Look(action, w)], Made(w, i, MoveOf(w, i, w.tasks[i], action)), i)
  {
    hide Accountable, MoveOf;
    MoveAccountable(looks, GivenBy(w.answers, i), w, i, w.tasks[i], action);
    GivenAfter(w.answers, MoveOf(w, i, w.tasks[i], action).given, i, i);
  }

  /** Another client's move is none of this client's business. */
  lemma OthersMove(looks: Looks, w: World, i: nat, j: nat, action: TaskStep)
    requires Explained(looks, w, i) && i != j && j < |w.tasks| && TaskEnabled(w, w.tasks[j], action)
    ensures Explained(looks, Made(w, j, MoveOf(w, j, w.tasks[j], action)), i)
  {
    MoveGives(w, j, w.tasks[j], action);
    hide Accountable, MoveOf;
    GivenAfter(w.answers, MoveOf(w, j, w.tasks[j], action).given, i, j);
    assert GivenBy(w.answers, i) + [] == GivenBy(w.answers, i);
  }

  lemma MoveGives(w: World, j: nat, t: Task, action: TaskStep)
    requires TaskEnabled(w, t, action)
    ensures var m := MoveOf(w, j, t, action); |m.given| <= 1 && forall a | a in m.given :: a.task == j
  {
  }

  lemma TaskStepMakes(w: World, j: nat, action: TaskStep)
    requires j < |w.tasks| && TaskEnabled(w, w.tasks[j], action)
    ensures var w', made := DoTask(w, j, action), Made(w, j, MoveOf(w, j, w.tasks[j], action));
            w'.tasks == made.tasks && w'.answers == made.answers
  {
  }

  lemma StartExplained(looks: Looks, w: World, i: nat, n: nat)
    requires Explained(looks, w, i) && n < |w.starting|
    ensures Explained(looks, DoStart(w, n), i)
  {
    hide Standing, FinishedBy;
    if i == |w.tasks| {
      NothingStanding(DoStart(w, n).tasks[i]);
      assert Accounted(looks, [], [], DoStart(w, n).tasks[i], []);
    }
  }

  lemma StepExplained(looks: Looks, w: World, step: Step, i: nat)
    requires Explained(looks, w, i) && Enabled(w, step)
    ensures Explained(looks + LookAt(w, step, i), Next(w, step), i)
  {
    assert looks + [] == looks;
    match step
    case OnTask(j, action) =>
      hide Accountable, MoveOf;
      TaskStepMakes(w, j, action);
      if i == j { MoveExplained(looks, w, i, action); } else { OthersMove(looks, w, i, j, action); }
    case OnTable(Start(n)) => StartExplained(looks, w, i, n);
    case _ =>
      hide Accountable;
      OthersKeepClients(w, step);
  }

  lemma {:induction false} RunExplained(looks: Looks, w: World, steps: seq<Step>, w': World, i: nat)
    requires Explained(looks, w, i) && Reaches(w, steps, w')
    ensures Explained(looks + LooksIn(w, steps, i), w', i)
    decreases |steps|
  {
    hide Explained;
    if steps == [] {
      assert looks + [] == looks;
    } else {
      StepExplained(looks, w, steps[0], i);
      RunExplained(looks + LookAt(w, steps[0], i), Next(w, steps[0]), steps[1..], w', i);
      assert looks + LooksIn(w, steps, i)
          == (looks + LookAt(w, steps[0], i)) + LooksIn(Next(w, steps[0]), steps[1..], i);
    }
  }

  /** Over every run: all steps of a vpcd client are the looks its code takes for the requests it
      has answered, one after another, and each answer is the one the code computes from them;
      then come the looks for the request it is working on. */
  lemma AnswersAreComputed(autoVpcd: bool, timeoutSecs: nat, steps: seq<Step>, w: World, i: nat)
    returns (parts: seq<Looks>, current: Looks)
    requires Reaches(Init(autoVpcd, timeoutSecs), steps, w) && i < |w.tasks|
    ensures Accounted(LooksIn(Init(autoVpcd, timeoutSecs), steps, i), parts, current, w.tasks[i], GivenBy(w.answers, i))
  {
    var init := Init(autoVpcd, timeoutSecs);
    RunExplained([], init, steps, w, i);
    assert [] + LooksIn(init, steps, i) == LooksIn(init, steps, i);
    hide Accounted;
    parts, current :| Accounted(LooksIn(init, steps, i), parts, current, w.tasks[i], GivenBy(w.answers, i));
  }
}
