/** The whole system as a state machine: the server's session table, the command streams, the
    remote clients with their cards, and the vpcd clients, all interleaved step by step.

    The network may lose, delay, duplicate and reorder responses: a response once produced can
    be delivered at any later time, any number of times, or never. Timeouts fire whenever they
    like. Fields marked "history" are not part of the program; they record what happened. */
module World {
  import opened Prelude
  import opened Messages
  import opened CardSlot
  import opened SessionSpec
  import opened VpcdSpec
  import opened ClientCommands

  /** History: what a command was issued for. */
  datatype Issue = Issue(
    sessionId: string,
    readerName: string,
    command: Command,
    stream: nat,
    task: nat)

  datatype StreamPhase = Opened | Registered | Ended

  /** A command stream between the server and one client process. `wire` holds the requests
      that have left the server's queue; `sent` is history: every request ever queued. */
  datatype Stream = Stream(
    sessionId: string,
    client: nat,
    phase: StreamPhase,
    wire: seq<CommandRequest>,
    sent: seq<CommandRequest>)

  /** History: a command executed by a client, and the PC/SC calls that took. */
  datatype Execution = Execution(
    stream: nat,
    sessionId: string,
    client: nat,
    request: CommandRequest,
    events: seq<Event>,
    response: CommandResponse)

  /** A request from vpcd that needs an answer. */
  datatype Request = ApduRequest(apdu: seq<byte>) | AtrRequest

  function CommandFor(request: Request): Command {
    match request
    case ApduRequest(apdu) => Apdu(apdu)
    case AtrRequest => GetAtr
  }

  datatype Phase =
    | Idle
    | LookingUp
    | Polling(request: Request, polls: nat)
    | Ready(request: Request)
    | Waiting(request: Request, serial: Serial)

  /** A vpcd client. `checkedAt` is history: how many registrations had been made when the
      cached ATR was last looked up in vain. (The ATR it keeps is never read, so it is not here.) */
  datatype Task = Task(
    sessionId: string,
    readerName: string,
    phase: Phase,
    checkedAt: nat)

  datatype Source =
    | Unavailable
    | FromTable(registrations: nat)
    | FromCommand(serial: Serial)

  /** History: bytes handed back to vpcd. */
  datatype Answer = Answer(
    task: nat,
    sessionId: string,
    readerName: string,
    request: Request,
    checkedAt: nat,
    source: Source,
    bytes: seq<byte>)

  /** A reader of a session, as registered. */
  datatype Pair = Pair(sessionId: string, readerName: string)

  datatype Registration = Registration(pair: Pair, atr: seq<byte>, cardPresent: bool)

  datatype World = World(
    autoVpcd: bool,
    timeoutSecs: nat,
    now: nat,
    table: Table,
    runtime: Runtime,
    streams: map<nat, Stream>,
    cards: map<(nat, string), Slot>,
    starting: seq<Pair>,
    tasks: seq<Task>,
    // history
    known: set<string>,
    registrations: seq<Registration>,
    issues: map<Serial, Issue>,
    executed: seq<Execution>,
    completed: seq<Serial>,
    answers: seq<Answer>)

  function Init(autoVpcd: bool, timeoutSecs: nat): World {
    World(autoVpcd, timeoutSecs, 0, map[], Runtime(0, map[], map[]), map[], map[], [], [],
          {}, [], map[], [], [], [])
  }

  /** Sessions, readers and time. */
  datatype TableStep =
    | Advance(nanos: nat)
    | Establish(sessionId: string, clientId: string)
    | Heartbeat(sessionId: string)
    | Remove(sessionId: string)
    | Cleanup
    | Register(registration: Registration)
    | Start(index: nat)

  /** The life of one command stream. */
  datatype StreamStep =
    | OpenStream(sessionId: string, client: nat)
    | RegisterStream
    | EndStream
    | BreakQueue
    | Transfer

  /** What one vpcd client does. */
  datatype TaskStep =
    | Receive(request: Request)
    | LookUp
    | Poll
    | IssueCommand
    | Resume
    | TimeOut

  datatype Step =
    | OnTable(change: TableStep)
    | OnStream(stream: nat, event: StreamStep)
    | OnTask(task: nat, action: TaskStep)
    // the remote client executes the next request on a stream
    | Execute(stream: nat, oracle: Oracle, establish: Option<PcscError>)
    // a client process reads a card's ATR, as it does for each reader before it connects
    | Inspect(client: nat, reader: string, oracle: Oracle, establish: Option<PcscError>)
    // a response arrives by the direct RPC, or as a message on a registered stream
    | DirectReply(execution: nat)
    | StreamReply(stream: nat, execution: nat)

  predicate Enabled(w: World, step: Step) {
    match step
    case OnTable(change) => TableEnabled(w, change)
    case OnStream(q, event) => StreamEnabled(w, q, event)
    case OnTask(i, action) => i < |w.tasks| && TaskEnabled(w, w.tasks[i], action)
    case Execute(q, _, _) => q in w.streams && w.streams[q].wire != []
    case Inspect(_, _, _, _) => true
    case DirectReply(j) => j < |w.executed|
    case StreamReply(q, j) => q in w.streams && w.streams[q].phase == Registered && j < |w.executed|
  }

  function Next(w: World, step: Step): World
    requires Enabled(w, step)
  {
    match step
    case OnTable(change) => DoTable(w, change)
    case OnStream(q, event) => DoStream(w, q, event)
    case OnTask(i, action) => DoTask(w, i, action)
    case Execute(q, oracle, establish) => DoExecute(w, q, oracle, establish)
    case Inspect(client, reader, oracle, establish) => DoInspect(w, client, reader, oracle, establish)
    case DirectReply(j) => DoRespond(w, w.executed[j].response.sessionId, w.executed[j].response)
    case StreamReply(q, j) => DoRespond(w, w.streams[q].sessionId, w.executed[j].response)
  }

  predicate TableEnabled(w: World, change: TableStep) {
    match change
    case Establish(sid, _) => sid !in w.known
    case Start(i) => i < |w.starting|
    case _ => true
  }

  function DoTable(w: World, change: TableStep): World
    requires TableEnabled(w, change)
  {
    match change
    case Advance(nanos) => w.(now := w.now + nanos)
    case Establish(sid, clientId) =>
      w.(table := w.table[sid := NewSession(clientId, w.now)], known := w.known + {sid})
    case Heartbeat(sid) => w.(table := Touch(w.table, sid, w.now))
    case Remove(sid) => DoRemove(w, {sid})
    case Cleanup => DoRemove(w, ExpiredIds(w.table, w.now, w.timeoutSecs))
    case Register(r) => DoRegister(w, r)
    case Start(i) => DoStart(w, i)
  }

  function DoRemove(w: World, ids: set<string>): World {
    var change := RemoveAll(w.table, w.runtime, ids);
    w.(table := change.table, runtime := change.runtime)
  }

  function DoStart(w: World, i: nat): World
    requires i < |w.starting|
  {
    var p := w.starting[i];
    w.(starting := w.starting[..i] + w.starting[i + 1..],
       tasks := w.tasks + [Task(p.sessionId, p.readerName, Idle, 0)])
  }

  predicate StreamEnabled(w: World, q: nat, event: StreamStep) {
    match event
    case OpenStream(_, _) => q !in w.streams
    case RegisterStream => q in w.streams && w.streams[q].phase == Opened
    case EndStream => q in w.streams && w.streams[q].phase == Registered
    case BreakQueue => q in w.streams && q in w.runtime.queues
    case Transfer =>
      q in w.streams && q in w.runtime.queues && w.runtime.queues[q].open && w.runtime.queues[q].buffer != []
  }

  function DoStream(w: World, q: nat, event: StreamStep): World
    requires StreamEnabled(w, q, event)
  {
    match event
    case OpenStream(sid, client) =>
      SetQueue(w.(streams := w.streams[q := Stream(sid, client, Opened, [], [])]), q, Queue([], true))
    case RegisterStream => DoRegisterStream(w, q)
    case EndStream => DoEndStream(w, q)
    case BreakQueue => SetQueue(w, q, Queue([], false))
    case Transfer =>
      var buffer := w.runtime.queues[q].buffer;
      SetQueue(w.(streams := w.streams[q := w.streams[q].(wire := w.streams[q].wire + [buffer[0]])]),
               q, Queue(buffer[1..], true))
  }

  function SetQueue(w: World, q: nat, queue: Queue): World {
    w.(runtime := w.runtime.(queues := w.runtime.queues[q := queue]))
  }

  predicate TaskEnabled(w: World, t: Task, action: TaskStep) {
    match action
    case Receive(_) => t.phase.Idle?
    case LookUp => t.phase.LookingUp?
    case Poll => t.phase.Polling?
    case IssueCommand =>
      t.phase.Ready? && (t.sessionId in w.table ==> HasRoom(w.table[t.sessionId], w.runtime))
    case Resume =>
      && t.phase.Waiting?
      && t.phase.serial in w.runtime.oneshots
      && !w.runtime.oneshots[t.phase.serial].cell.Empty?
    case TimeOut => t.phase.Waiting?
  }

  function DoTask(w: World, i: nat, action: TaskStep): World
    requires i < |w.tasks| && TaskEnabled(w, w.tasks[i], action)
  {
    var t := w.tasks[i];
    match action
    case Receive(request) => Made(w, i, ReceiveMove(t, request))
    case LookUp => Made(w, i, LookUpMove(w.table, |w.registrations|, i, t))
    case Poll => Made(w, i, PollMove(w.table, i, t))
    case IssueCommand =>
      if !CanSend(w, t.sessionId) then Made(w, i, FailMove(i, t, t.phase.request))
      else Made(SendFor(w, i, t), i, IssueMove(i, t, SendResultOf(w, t)))
    case Resume => DoReply(w, i, Found(w.runtime.oneshots[t.phase.serial].cell))
    case TimeOut => DoReply(w, i, TimedOut)
  }

  /** What the receiver of a used one-shot finds. */
  function Found(cell: Cell): WaitResult
    requires !cell.Empty?
  {
    if cell.Full? then Got(cell.response) else SenderDropped
  }

  /** A registration is refused when its session is unknown. A reader new to the session gets
      a vpcd client when the feature is on and it has a card; the client is started after the
      lock is released. */
  function DoRegister(w: World, r: Registration): World {
    var sid, reader := r.pair.sessionId, r.pair.readerName;
    if sid !in w.table then w
    else
      var isNew := reader !in w.table[sid].readers;
      w.(table := w.table[sid := UpdateReader(w.table[sid], reader, r.atr, r.cardPresent)],
         registrations := w.registrations + [r],
         starting := if isNew && w.autoVpcd && r.cardPresent then w.starting + [r.pair] else w.starting)
  }

  /** The handshake: the stream's first message names the session it serves. */
  function DoRegisterStream(w: World, q: nat): World
    requires q in w.streams
  {
    var sid := w.streams[q].sessionId;
    if sid !in w.table then w.(streams := w.streams[q := w.streams[q].(phase := Ended)])
    else
      var u := SetChannel(w.table[sid], w.runtime, q);
      w.(table := w.table[sid := u.session], runtime := u.runtime,
         streams := w.streams[q := w.streams[q].(phase := Registered)])
  }

  /** When a stream ends, its task clears whatever channel the session has by then. */
  function DoEndStream(w: World, q: nat): World
    requires q in w.streams
  {
    var sid := w.streams[q].sessionId;
    var w' := w.(streams := w.streams[q := w.streams[q].(phase := Ended)]);
    if sid !in w.table then w'
    else
      var u := ClearChannel(w.table[sid], w.runtime);
      w'.(table := w.table[sid := u.session], runtime := u.runtime)
  }

  function CardOf(w: World, client: nat, reader: string): Slot {
    if (client, reader) in w.cards then w.cards[(client, reader)] else EMPTY_SLOT
  }

  /** The client executes the first request travelling on the stream. */
  function Performed(w: World, q: nat, oracle: Oracle, establish: Option<PcscError>): Executed
    requires q in w.streams && w.streams[q].wire != []
  {
    var s := w.streams[q];
    ProcessCommand(s.sessionId, s.wire[0], CardOf(w, s.client, s.wire[0].readerName), oracle, establish)
  }

  function DoExecute(w: World, q: nat, oracle: Oracle, establish: Option<PcscError>): World
    requires q in w.streams && w.streams[q].wire != []
  {
    var s := w.streams[q];
    var request := s.wire[0];
    var e := Performed(w, q, oracle, establish);
    w.(streams := w.streams[q := s.(wire := s.wire[1..])],
       cards := w.cards[(s.client, request.readerName) := e.slot],
       executed := w.executed + [Execution(q, s.sessionId, s.client, request, e.events, e.response)])
  }

  /** What the client finds goes into its registrations; what stays is the connection it made. */
  function DoInspect(w: World, client: nat, reader: string, oracle: Oracle, establish: Option<PcscError>): World {
    if establish.Some? then w
    else w.(cards := w.cards[(client, reader) := QueryAtr(reader, CardOf(w, client, reader), oracle, MAX_RETRIES).slot])
  }

  /** A response reaches the server for a session; id 0 is the handshake and has no effect. */
  function DoRespond(w: World, sid: string, response: CommandResponse): World {
    if response.commandId == 0 then w
    else
      var r := Respond(w.table, w.runtime, sid, response);
      w.(table := r.table, runtime := r.runtime,
         completed := if r.result.Success? then w.completed + [SerialOf(response.commandId)] else w.completed)
  }

  // ---------------------------------------------------------------------------------------
  // Moves of a vpcd client: its next state, and what it hands to vpcd

  datatype Move = Move(task: Task, given: seq<Answer>)

  function Made(w: World, i: nat, m: Move): World
    requires i < |w.tasks|
  {
    w.(tasks := w.tasks[i := m.task], answers := w.answers + m.given)
  }

  /** Hand an answer to vpcd and go back to reading. */
  function GiveMove(i: nat, t: Task, request: Request, source: Source, bytes: seq<byte>): Move {
    Move(t.(phase := Idle), [Answer(i, t.sessionId, t.readerName, request, t.checkedAt, source, bytes)])
  }

  /** Nothing can be asked of the client: 6F00 for an APDU, an empty ATR for GetATR. */
  function FailMove(i: nat, t: Task, request: Request): Move {
    GiveMove(i, t, request, Unavailable, if request.ApduRequest? then NO_DIAGNOSIS else [])
  }

  function ReceiveMove(t: Task, request: Request): Move {
    Move(t.(phase := if request.AtrRequest? then LookingUp else Polling(request, 0)), [])
  }

  function LookUpMove(table: Table, registrations: nat, i: nat, t: Task): Move {
    match CachedAtr(table, t.sessionId, t.readerName)
    case Some(atr) => GiveMove(i, t, AtrRequest, FromTable(registrations), atr)
    case None => Move(t.(phase := Polling(AtrRequest, 0), checkedAt := registrations), [])
  }

  function PollMove(table: Table, i: nat, t: Task): Move
    requires t.phase.Polling?
  {
    var Polling(request, polls) := t.phase;
    match Observe(table, t.sessionId)
    case ChannelUp => Move(t.(phase := Ready(request)), [])
    case SessionGone => FailMove(i, t, request)
    case NotReady =>
      if polls + 1 >= MAX_POLLS then FailMove(i, t, request)
      else Move(t.(phase := Polling(request, polls + 1)), [])
  }

  predicate CanSend(w: World, sid: string) {
    sid in w.table && w.table[sid].channel.Some?
  }

  function SendingOf(w: World, t: Task): Sending
    requires CanSend(w, t.sessionId) && t.phase.Ready?
  {
    SendCommand(w.table[t.sessionId], w.runtime, CommandFor(t.phase.request), t.readerName)
  }

  function SendResultOf(w: World, t: Task): SendResult
    requires CanSend(w, t.sessionId) && t.phase.Ready?
  {
    SendingOf(w, t).result
  }

  /** Number the command and queue it, as one step under the session lock. */
  function SendFor(w: World, i: nat, t: Task): World
    requires CanSend(w, t.sessionId) && t.phase.Ready?
  {
    var sid, command := t.sessionId, CommandFor(t.phase.request);
    var q := w.table[sid].channel.value.queue;
    var s := SendingOf(w, t);
    w.(table := w.table[sid := s.session], runtime := s.runtime,
       issues := w.issues[w.runtime.issued + 1 := Issue(sid, t.readerName, command, q, i)],
       streams := if s.result.Sent? then Queued(w.streams, q, CommandRequest(IdOf(s.result.serial), Some(command), t.readerName))
                  else w.streams)
  }

  function Queued(streams: map<nat, Stream>, q: nat, r: CommandRequest): map<nat, Stream> {
    if q in streams then streams[q := streams[q].(sent := streams[q].sent + [r])] else streams
  }

  function IssueMove(i: nat, t: Task, result: SendResult): Move
    requires t.phase.Ready?
  {
    if result.Sent? then Move(t.(phase := Waiting(t.phase.request, result.serial)), [])
    else FailMove(i, t, t.phase.request)
  }

  /** However the wait ends, the receiver is gone afterwards. */
  function DoReply(w: World, i: nat, reply: WaitResult): World
    requires i < |w.tasks| && w.tasks[i].phase.Waiting?
  {
    var t := w.tasks[i];
    Made(w.(runtime := StopReceiving(w.runtime, t.phase.serial)), i, ReplyMove(i, t, reply))
  }

  function ReplyMove(i: nat, t: Task, reply: WaitResult): Move
    requires t.phase.Waiting?
  {
    var Waiting(request, serial) := t.phase;
    GiveMove(i, t, request, FromCommand(serial), if request.ApduRequest? then ApduAnswer(reply) else AtrAnswer(reply))
  }

  /** `w'` is reached from `w` by these steps. */
  ghost predicate Reaches(w: World, steps: seq<Step>, w': World)
    decreases |steps|
  {
    if steps == [] then w' == w
    else Enabled(w, steps[0]) && Reaches(Next(w, steps[0]), steps[1..], w')
  }
}
