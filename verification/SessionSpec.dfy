/** What each operation on sessions does, as functions on values.

    The classes in SessionManager.dfy are proved to do exactly this to their fields, and the
    whole-system state machine in World.dfy takes its atomic steps from here. */
module SessionSpec {
  import opened Prelude
  import opened Messages

  const QUEUE_CAPACITY: nat := 100
  const NANOS_PER_SECOND: nat := 1_000_000_000
  const DEFAULT_TIMEOUT_SECS: nat := 300

  /** Commands are numbered 1, 2, ... in the order they are issued. */
  type Serial = nat

  /** The id the global 64-bit counter, which starts at 1 and wraps, gives to a command. */
  function IdOf(serial: Serial): u64 {
    serial % U64_MODULUS
  }

  /** The one serial in 1..2^64 that has this id. */
  function SerialOf(id: u64): Serial {
    if id == 0 then U64_MODULUS else id
  }

  lemma SerialOfId(serial: Serial)
    requires 1 <= serial <= U64_MODULUS
    ensures SerialOf(IdOf(serial)) == serial
  {
  }

  datatype ReaderInfo = ReaderInfo(name: string, atr: seq<byte>, cardPresent: bool)

  /** A one-shot channel: what its receiver will find, and whether anyone still receives. */
  datatype Cell = Empty | Full(response: CommandResponse) | Closed
  datatype Oneshot = Oneshot(cell: Cell, receiving: bool)

  /** A bounded queue of commands; `open` while its receiver exists. */
  datatype Queue = Queue(buffer: seq<CommandRequest>, open: bool)

  /** The state shared by all sessions: the id counter and the channels handed out so far. */
  datatype Runtime = Runtime(
    issued: nat,
    oneshots: map<Serial, Oneshot>,
    queues: map<nat, Queue>)

  /** `pending` maps a command id to the one-shot (named by serial) that awaits its answer. */
  datatype Channel = Channel(queue: nat, pending: map<u64, Serial>)

  datatype SessionState = SessionState(
    clientId: string,
    createdAt: nat,
    lastActivity: nat,
    readers: map<string, ReaderInfo>,
    channel: Option<Channel>)

  type Table = map<string, SessionState>

  function NewSession(clientId: string, now: nat): SessionState {
    SessionState(clientId, now, now, map[], None)
  }

  /** Dropping a sender that never sent closes its one-shot. */
  function DropSenders(oneshots: map<Serial, Oneshot>, dropped: set<Serial>): map<Serial, Oneshot> {
    map k | k in oneshots ::
      if k in dropped && oneshots[k].cell.Empty? then oneshots[k].(cell := Closed) else oneshots[k]
  }

  function PendingSerials(s: SessionState): set<Serial> {
    if s.channel.Some? then s.channel.value.pending.Values else {}
  }

  function UpdateReader(s: SessionState, name: string, atr: seq<byte>, cardPresent: bool): SessionState {
    s.(readers := s.readers[name := ReaderInfo(name, atr, cardPresent)])
  }

  datatype Updated = Updated(session: SessionState, runtime: Runtime)

  function SetChannel(s: SessionState, rt: Runtime, queue: nat): Updated {
    Updated(s.(channel := Some(Channel(queue, map[]))),
            rt.(oneshots := DropSenders(rt.oneshots, PendingSerials(s))))
  }

  function ClearChannel(s: SessionState, rt: Runtime): Updated {
    Updated(s.(channel := None), rt.(oneshots := DropSenders(rt.oneshots, PendingSerials(s))))
  }

  datatype SendResult = NotConnected | SendFailed | Sent(serial: Serial)

  datatype Sending = Sending(session: SessionState, runtime: Runtime, result: SendResult)

  /** Number the command, remember its one-shot, queue the request. A closed queue makes the
      call fail, but by then the number is spent and the one-shot stays pending. */
  function SendCommand(s: SessionState, rt: Runtime, command: Command, reader: string): Sending {
    match s.channel
    case None => Sending(s, rt, NotConnected)
    case Some(ch) =>
      var serial := rt.issued + 1;
      var id := IdOf(serial);
      var displaced := if id in ch.pending then {ch.pending[id]} else {};
      var oneshots := DropSenders(rt.oneshots, displaced);
      var s' := s.(channel := Some(ch.(pending := ch.pending[id := serial])));
      if ch.queue in rt.queues && rt.queues[ch.queue].open then
        var queue := rt.queues[ch.queue];
        var request := CommandRequest(id, Some(command), reader);
        Sending(s',
                Runtime(serial, oneshots[serial := Oneshot(Empty, true)],
                        rt.queues[ch.queue := queue.(buffer := queue.buffer + [request])]),
                Sent(serial))
      else
        Sending(s', rt.(issued := serial, oneshots := oneshots[serial := Oneshot(Empty, false)]), SendFailed)
  }

  /** The queue the session sends to can take one more request without waiting. */
  predicate HasRoom(s: SessionState, rt: Runtime) {
    s.channel.Some? && s.channel.value.queue in rt.queues ==>
      var queue := rt.queues[s.channel.value.queue];
      queue.open ==> |queue.buffer| < QUEUE_CAPACITY
  }

  /** How waiting for room in a full queue ends: requests leave it, or its receiver goes away. */
  type Positive = n: nat | n >= 1 witness 1

  datatype Relief = RoomMade(requests: Positive) | ReceiverGone

  function Relieved(queue: Queue, relief: Relief): Queue {
    match relief
    case RoomMade(requests) => Queue(queue.buffer[Min(requests, |queue.buffer|)..], true)
    case ReceiverGone => Queue([], false)
  }

  /** The runtime once the session's queue, if it is full, has room or is closed. */
  function AfterWaiting(s: SessionState, rt: Runtime, relief: Relief): Runtime {
    if s.channel.Some? && !HasRoom(s, rt) then
      var q := s.channel.value.queue;
      rt.(queues := rt.queues[q := Relieved(rt.queues[q], relief)])
    else rt
  }

  datatype Refusal = NoSession | NoChannel | UnknownCommand

  datatype Handling = Handling(session: SessionState, runtime: Runtime, result: Result<(), Refusal>)

  /** Deliver a response to the command that waits for its id, once. */
  function HandleResponse(s: SessionState, rt: Runtime, response: CommandResponse): Handling {
    match s.channel
    case None => Handling(s, rt, Failure(NoChannel))
    case Some(ch) =>
      var id := response.commandId;
      if id !in ch.pending then Handling(s, rt, Failure(UnknownCommand))
      else
        var serial := ch.pending[id];
        var s' := s.(channel := Some(ch.(pending := ch.pending - {id})));
        Handling(s', rt.(oneshots := Fill(rt.oneshots, serial, response)), Success(()))
  }

  /** Sending on a one-shot whose receiver is gone loses the value. */
  function Fill(oneshots: map<Serial, Oneshot>, serial: Serial, response: CommandResponse): map<Serial, Oneshot> {
    if serial !in oneshots then oneshots
    else
      var o := oneshots[serial];
      oneshots[serial := o.(cell := if o.receiving then Full(response) else Closed)]
  }

  function StopReceiving(rt: Runtime, serial: Serial): Runtime {
    if serial !in rt.oneshots then rt
    else rt.(oneshots := rt.oneshots[serial := rt.oneshots[serial].(receiving := false)])
  }

  // ---------------------------------------------------------------------------------------
  // The session table

  datatype TableChange = TableChange(table: Table, runtime: Runtime)

  datatype Reception = Reception(table: Table, runtime: Runtime, result: Result<(), Refusal>)

  function Respond(t: Table, rt: Runtime, sid: string, response: CommandResponse): Reception {
    if sid !in t then Reception(t, rt, Failure(NoSession))
    else
      var h := HandleResponse(t[sid], rt, response);
      Reception(t[sid := h.session], h.runtime, h.result)
  }

  /** The direct RPC: id 0 is the handshake and is acknowledged without effect. */
  function DirectResponse(t: Table, rt: Runtime, response: CommandResponse): Reception {
    if response.commandId > 0 then Respond(t, rt, response.sessionId, response)
    else Reception(t, rt, Success(()))
  }

  function Touch(t: Table, sid: string, now: nat): Table {
    if sid in t then t[sid := t[sid].(lastActivity := now)] else t
  }

  /** Whole seconds since the last activity, strictly more than the timeout. */
  predicate IsExpired(s: SessionState, now: nat, timeoutSecs: nat) {
    var age := if now >= s.lastActivity then now - s.lastActivity else 0;
    age / NANOS_PER_SECOND > timeoutSecs
  }

  function ExpiredIds(t: Table, now: nat, timeoutSecs: nat): set<string> {
    set sid | sid in t && IsExpired(t[sid], now, timeoutSecs)
  }

  function PendingIn(t: Table, ids: set<string>): set<Serial> {
    set sid, k | sid in ids && sid in t && k in PendingSerials(t[sid]) :: k
  }

  function RemoveAll(t: Table, rt: Runtime, ids: set<string>): TableChange {
    TableChange(t - ids, rt.(oneshots := DropSenders(rt.oneshots, PendingIn(t, ids))))
  }

  function CleanupExpired(t: Table, rt: Runtime, now: nat, timeoutSecs: nat): TableChange {
    RemoveAll(t, rt, ExpiredIds(t, now, timeoutSecs))
  }

  /** Every pending command has its one-shot. */
  ghost predicate PendingKnown(t: Table, rt: Runtime) {
    forall sid | sid in t :: PendingSerials(t[sid]) <= rt.oneshots.Keys
  }

  // ---------------------------------------------------------------------------------------
  // The server's side of one command stream

  /** `sessionId` is the session the stream has named; `stop` ends the stream's task. */
  datatype StreamTurn = StreamTurn(table: Table, runtime: Runtime, sessionId: Option<string>, stop: bool)

  /** The first message names the session and gives it this stream's queue; any message with a
      nonzero id, the first included, is a response for the session named. */
  function StreamMessage(t: Table, rt: Runtime, queue: nat, sessionId: Option<string>, response: CommandResponse): StreamTurn {
    if sessionId.None? && response.sessionId !in t then
      StreamTurn(t, rt, Some(response.sessionId), true)
    else
      var sid := if sessionId.None? then response.sessionId else sessionId.value;
      var first :=
        if sessionId.None? then
          var u := SetChannel(t[sid], rt, queue); TableChange(t[sid := u.session], u.runtime)
        else TableChange(t, rt);
      if response.commandId > 0 then
        var r := Respond(first.table, first.runtime, sid, response);
        StreamTurn(r.table, r.runtime, Some(sid), false)
      else StreamTurn(first.table, first.runtime, Some(sid), false)
  }

  /** When the stream ends, the session it named loses whatever channel it has by then. */
  function StreamEnd(t: Table, rt: Runtime, sessionId: Option<string>): TableChange {
    if sessionId.None? || sessionId.value !in t then TableChange(t, rt)
    else
      var u := ClearChannel(t[sessionId.value], rt);
      TableChange(t[sessionId.value := u.session], u.runtime)
  }
}
