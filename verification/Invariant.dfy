/** The inductive invariant of the whole system. */
module Invariant {
  import opened Prelude
  import opened Messages
  import opened CardSlot
  import opened SessionSpec
  import opened VpcdSpec
  import opened ClientCommands
  import opened World
  import opened Correlation

  // ---------------------------------------------------------------------------------------
  // Streams: what is queued was issued for this stream's session, in order

  ghost predicate QueuedRight(r: CommandRequest, q: nat, sid: string, issues: map<Serial, Issue>) {
    var k := SerialOf(r.commandId);
    && r.commandId == IdOf(k)
    && k in issues
    && issues[k].sessionId == sid
    && issues[k].readerName == r.readerName
    && issues[k].stream == q
    && r.command == Some(issues[k].command)
  }

  ghost predicate Increasing(requests: seq<CommandRequest>) {
    forall i, j :: 0 <= i < j < |requests| ==> SerialOf(requests[i].commandId) < SerialOf(requests[j].commandId)
  }

  function ExecutedOn(executed: seq<Execution>, q: nat): seq<CommandRequest> {
    if executed == [] then []
    else ExecutedOn(executed[..|executed| - 1], q) + (if Last(executed).stream == q then [Last(executed).request] else [])
  }

  /** What has been executed, then what travels, then what is queued: a prefix of what was
      sent, and all of it as long as the server's queue is intact. */
  ghost predicate InOrder(s: Stream, queue: Queue, done: seq<CommandRequest>) {
    var all := done + s.wire + queue.buffer;
    all <= s.sent && (queue.open ==> all == s.sent)
  }

  ghost predicate StreamOk(q: nat, s: Stream, queue: Queue, issues: map<Serial, Issue>, done: seq<CommandRequest>) {
    && (forall i :: 0 <= i < |s.sent| ==> QueuedRight(s.sent[i], q, s.sessionId, issues))
    && Increasing(s.sent)
    && InOrder(s, queue, done)
    && |queue.buffer| <= QUEUE_CAPACITY
  }

  ghost predicate StreamsOk(streams: map<nat, Stream>, queues: map<nat, Queue>, issues: map<Serial, Issue>,
                            executed: seq<Execution>) {
    && (forall q | q in streams :: q in queues && StreamOk(q, streams[q], queues[q], issues, ExecutedOn(executed, q)))
    && (forall j :: 0 <= j < |executed| ==> executed[j].stream in streams)
  }

  /** A session's channel sends to a stream that was opened for that session. */
  ghost predicate ChannelsServed(ch: Channels, streams: map<nat, Stream>) {
    forall sid | sid in ch :: ch[sid].queue in streams && streams[ch[sid].queue].sessionId == sid
  }

  // ---------------------------------------------------------------------------------------
  // Executions: the response tells what the card said

  ghost predicate HonestResponse(e: Execution) {
    && e.response.commandId == e.request.commandId
    && e.response.sessionId == e.sessionId
    && (e.request.command.Some? && e.request.command.value.Apdu? ==>
          ApduAnswer(Got(e.response)) == CardVerdict(e.events, e.request.command.value.apdu))
    && (e.request.command == Some(GetAtr) ==> AtrAnswer(Got(e.response)) == AtrVerdict(e.events))
  }

  ghost predicate ExecutionsOk(executed: seq<Execution>, issues: map<Serial, Issue>) {
    forall j :: 0 <= j < |executed| ==>
      && QueuedRight(executed[j].request, executed[j].stream, executed[j].sessionId, issues)
      && HonestResponse(executed[j])
  }

  // ---------------------------------------------------------------------------------------
  // vpcd clients: what they wait for and what they have answered

  ghost predicate WaitsForOwn(i: nat, t: Task, oneshots: map<Serial, Oneshot>, issues: map<Serial, Issue>) {
    t.phase.Waiting? ==>
      var k := t.phase.serial;
      && k in oneshots && oneshots[k].receiving
      && k in issues
      && issues[k].sessionId == t.sessionId
      && issues[k].readerName == t.readerName
      && issues[k].command == CommandFor(t.phase.request)
      && issues[k].task == i
  }

  ghost predicate TasksOk(tasks: seq<Task>, oneshots: map<Serial, Oneshot>, issues: map<Serial, Issue>) {
    forall i :: 0 <= i < |tasks| ==> WaitsForOwn(i, tasks[i], oneshots, issues)
  }

  function LatestOf(registrations: seq<Registration>, p: Pair): Option<Registration> {
    if registrations == [] then None
    else if Last(registrations).pair == p then Some(Last(registrations))
    else LatestOf(registrations[..|registrations| - 1], p)
  }

  function FirstOf(registrations: seq<Registration>, p: Pair): Option<Registration> {
    if registrations == [] then None
    else
      var earlier := FirstOf(registrations[..|registrations| - 1], p);
      if earlier.Some? then earlier
      else if Last(registrations).pair == p then Some(Last(registrations))
      else None
  }

  function LatestAtr(registrations: seq<Registration>, p: Pair): seq<byte> {
    var r := LatestOf(registrations, p);
    if r.Some? then r.value.atr else []
  }

  /** The execution of command `k`, issued for this session and reader. */
  ghost predicate ExecutedFor(e: Execution, k: Serial, a: Answer) {
    && SerialOf(e.request.commandId) == k
    && e.sessionId == a.sessionId
    && e.request.readerName == a.readerName
    && e.request.command == Some(CommandFor(a.request))
  }

  /** Some execution of the command this answer came from had the card say these bytes. */
  ghost predicate CardAnswered(a: Answer, executed: seq<Execution>)
    requires a.request.ApduRequest? && a.source.FromCommand?
  {
    exists j | 0 <= j < |executed| ::
      ExecutedFor(executed[j], a.source.serial, a) && CardSaid(executed[j].events, a.request.apdu, a.bytes)
  }

  ghost predicate CardIdentified(a: Answer, executed: seq<Execution>)
    requires a.source.FromCommand?
  {
    exists j | 0 <= j < |executed| ::
      ExecutedFor(executed[j], a.source.serial, a) && CardReportedAtr(executed[j].events, a.bytes)
  }

  ghost predicate ApduJustified(a: Answer, executed: seq<Execution>)
    requires a.request.ApduRequest?
  {
    && |a.bytes| >= 2
    && (a.bytes == NO_DIAGNOSIS || (a.source.FromCommand? && CardAnswered(a, executed)))
  }

  /** A GetATR answer is the ATR registered at the lookup; or, if that was empty, what the card
      reported to the command issued for it or nothing; or nothing. */
  ghost predicate AtrJustified(a: Answer, executed: seq<Execution>, registrations: seq<Registration>)
    requires a.request.AtrRequest?
  {
    var p := Pair(a.sessionId, a.readerName);
    match a.source
    case FromTable(n) => a.bytes != [] && n <= |registrations| && a.bytes == LatestAtr(registrations[..n], p)
    case FromCommand(_) =>
      && a.checkedAt <= |registrations| && LatestAtr(registrations[..a.checkedAt], p) == []
      && (a.bytes == [] || CardIdentified(a, executed))
    case Unavailable => a.bytes == []
  }

  ghost predicate Justified(a: Answer, executed: seq<Execution>, registrations: seq<Registration>) {
    if a.request.ApduRequest? then ApduJustified(a, executed) else AtrJustified(a, executed, registrations)
  }

  ghost predicate SpentSerial(a: Answer, oneshots: map<Serial, Oneshot>) {
    a.source.FromCommand? ==> a.source.serial in oneshots && !oneshots[a.source.serial].receiving
  }

  ghost predicate AnswersOk(answers: seq<Answer>, oneshots: map<Serial, Oneshot>, executed: seq<Execution>,
                            registrations: seq<Registration>) {
    && (forall n :: 0 <= n < |answers| ==> Justified(answers[n], executed, registrations))
    && (forall n :: 0 <= n < |answers| ==> SpentSerial(answers[n], oneshots))
    && (forall m, n :: 0 <= m < n < |answers| && answers[m].source.FromCommand? && answers[n].source.FromCommand? ==>
          answers[m].source.serial != answers[n].source.serial)
  }

  /** An answer that came from a command came from one the same vpcd client issued for it. */
  ghost predicate AskedByGiver(a: Answer, issues: map<Serial, Issue>) {
    a.source.FromCommand? ==>
      var k := a.source.serial;
      && k in issues
      && issues[k].sessionId == a.sessionId
      && issues[k].readerName == a.readerName
      && issues[k].command == CommandFor(a.request)
      && issues[k].task == a.task
  }

  ghost predicate AnswersAsked(answers: seq<Answer>, issues: map<Serial, Issue>) {
    forall n :: 0 <= n < |answers| ==> AskedByGiver(answers[n], issues)
  }

  // ---------------------------------------------------------------------------------------
  // Completion

  ghost predicate CompletedOk(completed: seq<Serial>, oneshots: map<Serial, Oneshot>) {
    && (forall n :: 0 <= n < |completed| ==> completed[n] in oneshots && !oneshots[completed[n]].cell.Empty?)
    && (forall m, n :: 0 <= m < n < |completed| ==> completed[m] != completed[n])
  }

  // ---------------------------------------------------------------------------------------
  // Registration

  function PairsOf(tasks: seq<Task>): seq<Pair> {
    seq(|tasks|, i requires 0 <= i < |tasks| => Pair(tasks[i].sessionId, tasks[i].readerName))
  }

  /** The session's readers are those registered, each as last registered. */
  ghost predicate ReadersCurrent(sid: string, s: SessionState, registrations: seq<Registration>) {
    forall reader: string ::
      var r := LatestOf(registrations, Pair(sid, reader));
      && (reader in s.readers <==> r.Some?)
      && (r.Some? ==> s.readers[reader] == ReaderInfo(reader, r.value.atr, r.value.cardPresent))
  }

  /** How many vpcd clients a pair is to have. */
  function Wanted(registrations: seq<Registration>, autoVpcd: bool, p: Pair): nat {
    var first := FirstOf(registrations, p);
    if autoVpcd && first.Some? && first.value.cardPresent then 1 else 0
  }

  ghost predicate StartedRight(registrations: seq<Registration>, autoVpcd: bool, starting: seq<Pair>, running: seq<Pair>) {
    forall p: Pair :: multiset(starting)[p] + multiset(running)[p] == Wanted(registrations, autoVpcd, p)
  }

  ghost predicate RegistrationsOk(table: Table, known: set<string>, registrations: seq<Registration>) {
    && table.Keys <= known
    && (forall n :: 0 <= n < |registrations| ==> registrations[n].pair.sessionId in known)
    && (forall sid | sid in table :: ReadersCurrent(sid, table[sid], registrations))
  }

  /** A GetATR request goes to the client only after the registered ATR was found empty. */
  ghost predicate LookupOk(t: Task, table: Table, known: set<string>, registrations: seq<Registration>) {
    && t.sessionId in known
    && t.checkedAt <= |registrations|
    && (((t.phase.Polling? || t.phase.Ready?) && t.phase.request.AtrRequest? && t.sessionId in table)
        || (t.phase.Waiting? && t.phase.request.AtrRequest?) ==>
          LatestAtr(registrations[..t.checkedAt], Pair(t.sessionId, t.readerName)) == [])
  }

  ghost predicate LookupsOk(tasks: seq<Task>, starting: seq<Pair>, table: Table, known: set<string>,
                            registrations: seq<Registration>) {
    && (forall i :: 0 <= i < |tasks| ==> LookupOk(tasks[i], table, known, registrations))
    && (forall i :: 0 <= i < |starting| ==> starting[i].sessionId in known)
  }

  ghost predicate Inv(w: World) {
    && Correlated(ChannelsOf(w.table), w.runtime, w.issues, w.executed)
    && ChannelsServed(ChannelsOf(w.table), w.streams)
    && StreamsOk(w.streams, w.runtime.queues, w.issues, w.executed)
    && ExecutionsOk(w.executed, w.issues)
    && TasksOk(w.tasks, w.runtime.oneshots, w.issues)
    && AnswersOk(w.answers, w.runtime.oneshots, w.executed, w.registrations)
    && AnswersAsked(w.answers, w.issues)
    && CompletedOk(w.completed, w.runtime.oneshots)
    && RegistrationsOk(w.table, w.known, w.registrations)
    && StartedRight(w.registrations, w.autoVpcd, w.starting, PairsOf(w.tasks))
    && LookupsOk(w.tasks, w.starting, w.table, w.known, w.registrations)
  }

  lemma InitInv(autoVpcd: bool, timeoutSecs: nat)
    ensures Inv(Init(autoVpcd, timeoutSecs))
  {
  }
}
