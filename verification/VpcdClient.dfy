/** One vpcd client: the message loop over its socket, and how it answers.

    Between two looks at the shared session table anything may happen to it, so every look
    sees a table given by the surroundings, one set of surroundings per message. */
module VpcdClient {
  import opened Prelude
  import Backoff
  import Messages
  import opened SessionSpec
  import opened VpcdSpec
  import opened Vicc

  datatype Surroundings = Surroundings(
    atLookup: Table,
    atPoll: nat -> Table,
    atSend: Table,
    runtimeAtSend: Runtime,
    repliedAfterMs: nat,
    reply: WaitResult)

  datatype Target = Target(sessionId: string, readerName: string)

  // ---------------------------------------------------------------------------------------
  // Waiting for the command channel

  datatype Polling = Polling(ready: bool, sleptMs: nat)

  /** Polling from the `i`-th look on. */
  function PollFrom(atPoll: nat -> Table, sid: string, i: nat): Polling
    decreases MAX_POLLS - i
  {
    if i >= MAX_POLLS then Polling(false, 0)
    else
      match Observe(atPoll(i), sid)
      case ChannelUp => Polling(true, 0)
      case SessionGone => Polling(false, 0)
      case NotReady =>
        var later := PollFrom(atPoll, sid, i + 1);
        Polling(later.ready, POLL_INTERVAL_MS + later.sleptMs)
  }

  /** The session is there, but its client is not connected. */
  predicate LacksChannel(t: Table, sid: string) {
    sid in t && t[sid].channel.None?
  }

  /** The channel shows up at look `i`, and the session was there, without one, until then. */
  ghost predicate UpAt(atPoll: nat -> Table, sid: string, from: nat, i: nat) {
    && from <= i < 300
    && sid in atPoll(i) && atPoll(i)[sid].channel.Some?
    && forall j: nat :: from <= j < i ==> LacksChannel(atPoll(j), sid)
  }

  /** The session is missing at look `i`, and was there, without a channel, until then. */
  ghost predicate GoneAt(atPoll: nat -> Table, sid: string, from: nat, i: nat) {
    && from <= i < 300
    && sid !in atPoll(i)
    && forall j: nat :: from <= j < i ==> LacksChannel(atPoll(j), sid)
  }

  /** Polling succeeds exactly when the channel appears at some of the 300 looks with the session
      present, without one, at all earlier ones. It ends at that look, at a look that finds the
      session missing, or after all looks, having slept 100 ms for each look before. */
  lemma {:induction false} PollingSucceedsIff(atPoll: nat -> Table, sid: string, from: nat)
    requires from <= 300
    ensures var p := PollFrom(atPoll, sid, from);
            && (p.ready <==> exists i: nat :: UpAt(atPoll, sid, from, i))
            && (forall i: nat :: UpAt(atPoll, sid, from, i) ==> p.sleptMs == (i - from) * 100)
            && (forall i: nat :: GoneAt(atPoll, sid, from, i) ==> !p.ready && p.sleptMs == (i - from) * 100)
            && ((forall j: nat | from <= j < 300 :: LacksChannel(atPoll(j), sid)) ==>
                  !p.ready && p.sleptMs == (300 - from) * 100)
            && p.sleptMs <= (300 - from) * 100
    decreases 300 - from
  {
    if from < 300 {
      match Observe(atPoll(from), sid)
      case ChannelUp => assert UpAt(atPoll, sid, from, from);
      case SessionGone =>
      case NotReady =>
        PollingSucceedsIff(atPoll, sid, from + 1);
        if PollFrom(atPoll, sid, from + 1).ready {
          var i: nat :| UpAt(atPoll, sid, from + 1, i);
          assert UpAt(atPoll, sid, from, i);
        }
        forall i: nat | UpAt(atPoll, sid, from, i) ensures UpAt(atPoll, sid, from + 1, i) {}
        forall i: nat | GoneAt(atPoll, sid, from, i) ensures GoneAt(atPoll, sid, from + 1, i) {}
    }
  }

  /** These are all the ways polling can go. */
  lemma {:induction false} PollingGoesOneWay(atPoll: nat -> Table, sid: string, from: nat) returns (i: nat)
    requires from <= 300
    ensures UpAt(atPoll, sid, from, i) || GoneAt(atPoll, sid, from, i)
         || (i == 300 && forall j: nat | from <= j < 300 :: LacksChannel(atPoll(j), sid))
    decreases 300 - from
  {
    if from == 300 || !LacksChannel(atPoll(from), sid) {
      i := from;
    } else {
      i := PollingGoesOneWay(atPoll, sid, from + 1);
    }
  }

  // ---------------------------------------------------------------------------------------
  // Asking the remote client

  /** How the wait for a reply ends, and how long it takes. */
  function WaitEnds(s: Surroundings): WaitResult {
    if s.reply.TimedOut? || s.repliedAfterMs > REPLY_TIMEOUT_MS then TimedOut else s.reply
  }

  function WaitedMs(s: Surroundings): nat {
    if s.reply.TimedOut? || s.repliedAfterMs > REPLY_TIMEOUT_MS then REPLY_TIMEOUT_MS else s.repliedAfterMs
  }

  /** `sending` is what sending the command does to the session and the runtime, if it comes to
      that; `reply` is None when the command could not be sent. */
  datatype Exchange = Exchange(sending: Option<Sending>, reply: Option<WaitResult>, sleptMs: nat, waitedMs: nat)

  function Ask(target: Target, command: Messages.Command, s: Surroundings): Exchange {
    var sid := target.sessionId;
    var p := PollFrom(s.atPoll, sid, 0);
    if !p.ready || sid !in s.atSend then Exchange(None, None, p.sleptMs, 0)
    else
      var sending := SendCommand(s.atSend[sid], s.runtimeAtSend, command, target.readerName);
      if sending.result.Sent? then Exchange(Some(sending), Some(WaitEnds(s)), p.sleptMs, WaitedMs(s))
      else Exchange(Some(sending), None, p.sleptMs, 0)
  }

  function ApduBytes(target: Option<Target>, apdu: seq<byte>, s: Surroundings): (bytes: seq<byte>)
    ensures |bytes| >= 2
  {
    if target.None? then NO_DIAGNOSIS
    else
      var x := Ask(target.value, Messages.Apdu(apdu), s);
      if x.reply.None? then NO_DIAGNOSIS else ApduAnswer(x.reply.value)
  }

  function AtrBytes(target: Option<Target>, s: Surroundings): seq<byte> {
    if target.None? then []
    else
      var cached := CachedAtr(s.atLookup, target.value.sessionId, target.value.readerName);
      if cached.Some? then cached.value
      else
        var x := Ask(target.value, Messages.GetAtr, s);
        if x.reply.None? then [] else AtrAnswer(x.reply.value)
  }

  // ---------------------------------------------------------------------------------------
  // What vpcd is answered, in terms of what happens

  /** The channel shows within the looks, and when the lock is taken the session is there, with a
      channel whose queue still has its receiver. */
  ghost predicate Reached(sid: string, s: Surroundings) {
    && (exists i: nat :: UpAt(s.atPoll, sid, 0, i))
    && sid in s.atSend && s.atSend[sid].channel.Some?
    && s.atSend[sid].channel.value.queue in s.runtimeAtSend.queues
    && s.runtimeAtSend.queues[s.atSend[sid].channel.value.queue].open
  }

  /** The client's response comes within 30 s, and it is this one. */
  predicate RepliedWith(s: Surroundings, response: Messages.CommandResponse) {
    s.reply == WaitResult.Got(response) && s.repliedAfterMs <= 30_000
  }

  lemma AskMeans(target: Target, command: Messages.Command, s: Surroundings)
    ensures var x := Ask(target, command, s);
            && (x.reply.Some? <==> Reached(target.sessionId, s))
            && (x.reply.Some? ==> forall r :: x.reply.value == WaitResult.Got(r) <==> RepliedWith(s, r))
            && (x.reply.Some? ==>
                  x.waitedMs == if s.reply.TimedOut? || s.repliedAfterMs > 30_000 then 30_000 else s.repliedAfterMs)
            && (x.reply.None? ==> x.waitedMs == 0)
            && (forall i: nat :: UpAt(s.atPoll, target.sessionId, 0, i) || GoneAt(s.atPoll, target.sessionId, 0, i) ==>
                  x.sleptMs == 100 * i)
            && x.sleptMs <= 30_000
  {
    PollingSucceedsIff(s.atPoll, target.sessionId, 0);
  }

  /** An APDU is answered with the data and status word of a successful APDU response that comes
      within 30 s of reaching the client, and with 6F00 in every other case. */
  lemma ApduAnsweredIff(target: Option<Target>, apdu: seq<byte>, s: Surroundings)
    ensures forall response: Messages.CommandResponse, data: seq<byte>, sw1: nat, sw2: nat
              | target.Some? && Reached(target.value.sessionId, s) && RepliedWith(s, response)
                && response.success && response.response == Some(Messages.ApduPayload(data, sw1, sw2)) ::
              ApduBytes(target, apdu, s) == data + [sw1 % 256, sw2 % 256]
    ensures var answered := exists response: Messages.CommandResponse ::
                              RepliedWith(s, response) && response.success
                              && response.response.Some? && response.response.value.ApduPayload?;
            !(target.Some? && Reached(target.value.sessionId, s) && answered) ==>
              ApduBytes(target, apdu, s) == [0x6F, 0x00]
  {
    if target.Some? {
      AskMeans(target.value, Messages.Apdu(apdu), s);
      if s.reply.Got? && RepliedWith(s, s.reply.response) { assert RepliedWith(s, s.reply.response); }
    }
  }

  /** The reader has an ATR registered, or the client reports one in time. */
  ghost predicate FindsAtr(target: Target, s: Surroundings) {
    var sid, reader := target.sessionId, target.readerName;
    || (sid in s.atLookup && reader in s.atLookup[sid].readers && s.atLookup[sid].readers[reader].atr != [])
    || (&& Reached(sid, s) && s.reply.Got? && s.repliedAfterMs <= 30_000 && s.reply.response.success
        && s.reply.response.response.Some? && s.reply.response.response.value.AtrPayload?)
  }

  /** A GetATR request is answered with the reader's registered ATR if that is not empty; else with
      the ATR of a successful ATR response that comes within 30 s of reaching the client; else with
      nothing. */
  lemma AtrAnsweredIff(target: Target, s: Surroundings)
    ensures var sid, reader := target.sessionId, target.readerName;
            var registered := sid in s.atLookup && reader in s.atLookup[sid].readers && s.atLookup[sid].readers[reader].atr != [];
            var answered := exists response: Messages.CommandResponse ::
                              RepliedWith(s, response) && response.success
                              && response.response.Some? && response.response.value.AtrPayload?;
            && (registered ==> AtrBytes(Some(target), s) == s.atLookup[sid].readers[reader].atr)
            && (!registered && Reached(sid, s) ==>
                  forall response: Messages.CommandResponse, atr: seq<byte>, present: bool
                    | RepliedWith(s, response) && response.success
                      && response.response == Some(Messages.AtrPayload(atr, present)) ::
                    AtrBytes(Some(target), s) == atr)
            && (!registered && !(Reached(sid, s) && answered) ==> AtrBytes(Some(target), s) == [])
  {
    AskMeans(target, Messages.GetAtr, s);
    if s.reply.Got? && RepliedWith(s, s.reply.response) { assert RepliedWith(s, s.reply.response); }
  }

  // ---------------------------------------------------------------------------------------
  // The message loop

  predicate BearsAnswer(m: Message) {
    m.ApduMessage? || m.control == GetAtr
  }

  function Response(target: Option<Target>, m: Message, s: Surroundings): seq<byte>
    requires BearsAnswer(m)
  {
    match m
    case ApduMessage(apdu) => ApduBytes(target, apdu, s)
    case ControlMessage(_) => AtrBytes(target, s)
  }

  function PowerAfter(powered: bool, m: Message): bool {
    match m
    case ControlMessage(PowerOff) => false
    case ControlMessage(PowerOn) => true
    case _ => powered
  }

  /** The responses to a message sequence whose first message has index `n`. */
  function Responses(target: Option<Target>, ms: seq<Message>, env: nat -> Surroundings, n: nat): seq<seq<byte>> {
    if ms == [] then []
    else (if BearsAnswer(ms[0]) then [Response(target, ms[0], env(n))] else []) + Responses(target, ms[1..], env, n + 1)
  }

  function PowerAfterAll(powered: bool, ms: seq<Message>): bool
    decreases |ms|
  {
    if ms == [] then powered else PowerAfterAll(PowerAfter(powered, ms[0]), ms[1..])
  }

  /** What one message makes the loop write. */
  function Output(target: Option<Target>, m: Message, s: Surroundings): seq<byte> {
    if BearsAnswer(m) then Frame(Response(target, m, s)) else []
  }

  /** Only APDUs and GetATR make the loop write anything; power and reset are never answered. */
  lemma OnlyRequestsAreAnswered(target: Option<Target>, m: Message, s: Surroundings)
    ensures Output(target, m, s) == [] <==>
              m == ControlMessage(PowerOff) || m == ControlMessage(PowerOn) || m == ControlMessage(Reset)
    ensures m.ApduMessage? ==> Output(target, m, s) == Frame(ApduBytes(target, m.apdu, s))
    ensures m == ControlMessage(GetAtr) ==> Output(target, m, s) == Frame(AtrBytes(target, s))
  {
  }

  function Outputs(target: Option<Target>, ms: seq<Message>, env: nat -> Surroundings, n: nat): seq<byte> {
    if ms == [] then [] else Output(target, ms[0], env(n)) + Outputs(target, ms[1..], env, n + 1)
  }

  datatype Served = Served(written: seq<byte>, powered: bool)

  /** What the loop writes for these messages when the peer still takes `budget` bytes. */
  function Serve(target: Option<Target>, powered: bool, ms: seq<Message>, budget: nat,
                 env: nat -> Surroundings, n: nat): Served
    decreases |ms|
  {
    if ms == [] then Served([], powered)
    else
      var out := Output(target, ms[0], env(n));
      if |out| > budget then Served(out[..budget], PowerAfter(powered, ms[0]))
      else
        var later := Serve(target, PowerAfter(powered, ms[0]), ms[1..], budget - |out|, env, n + 1);
        Served(out + later.written, later.powered)
  }

  lemma {:induction false} OutputsAreFrames(target: Option<Target>, ms: seq<Message>, env: nat -> Surroundings, n: nat)
    ensures Outputs(target, ms, env, n) == FrameAll(Responses(target, ms, env, n))
    decreases |ms|
  {
    if ms != [] {
      OutputsAreFrames(target, ms[1..], env, n + 1);
      var later := Responses(target, ms[1..], env, n + 1);
      if BearsAnswer(ms[0]) {
        assert ([Response(target, ms[0], env(n))] + later)[1..] == later;
      } else {
        assert [] + later == later;
      }
    }
  }

  lemma {:induction false} LoopWritesOutputs(target: Option<Target>, powered: bool, ms: seq<Message>,
                                             budget: nat, env: nat -> Surroundings, n: nat)
    ensures var out := Outputs(target, ms, env, n);
            var s := Serve(target, powered, ms, budget, env, n);
            if |out| <= budget then s == Served(out, PowerAfterAll(powered, ms)) else s.written == out[..budget]
    decreases |ms|
  {
    hide Response;
    if ms != [] {
      var out := Output(target, ms[0], env(n));
      var others := Outputs(target, ms[1..], env, n + 1);
      if |out| <= budget {
        LoopWritesOutputs(target, PowerAfter(powered, ms[0]), ms[1..], budget - |out|, env, n + 1);
        if |out + others| > budget {
          assert (out + others)[..budget] == out + others[..budget - |out|];
        }
      } else {
        assert (out + others)[..budget] == out[..budget];
      }
    }
  }

  /** The loop is a pipeline: it writes the frames of the responses to the messages received,
      in order, as far as the peer takes them. */
  lemma LoopIsPipeline(target: Option<Target>, powered: bool, ms: seq<Message>, budget: nat, env: nat -> Surroundings)
    ensures var out := FrameAll(Responses(target, ms, env, 0));
            var s := Serve(target, powered, ms, budget, env, 0);
            if |out| <= budget then s == Served(out, PowerAfterAll(powered, ms)) else s.written == out[..budget]
  {
    LoopWritesOutputs(target, powered, ms, budget, env, 0);
    OutputsAreFrames(target, ms, env, 0);
  }

  /** The positions of the messages that get an answer. */
  function Askers(ms: seq<Message>, n: nat): seq<nat> {
    if ms == [] then [] else (if BearsAnswer(ms[0]) then [n] else []) + Askers(ms[1..], n + 1)
  }

  lemma {:induction false} AskersInOrder(ms: seq<Message>, n: nat)
    ensures var askers := Askers(ms, n);
            && (forall i :: 0 <= i < |ms| ==> (ms[i].ApduMessage? || ms[i] == ControlMessage(GetAtr) <==> n + i in askers))
            && (forall a | a in askers :: n <= a < n + |ms|)
            && (forall k, l :: 0 <= k < l < |askers| ==> askers[k] < askers[l])
    decreases |ms|
  {
    if ms != [] {
      AskersInOrder(ms[1..], n + 1);
      var later := Askers(ms[1..], n + 1);
      forall i | 0 <= i < |ms| ensures ms[i].ApduMessage? || ms[i] == ControlMessage(GetAtr) <==> n + i in Askers(ms, n) {
        if i > 0 {
          assert ms[1..][i - 1] == ms[i];
          assert ms[i].ApduMessage? || ms[i] == ControlMessage(GetAtr) <==> n + 1 + (i - 1) in later;
        }
      }
      forall k, l | 0 <= k < l < |Askers(ms, n)| ensures Askers(ms, n)[k] < Askers(ms, n)[l] {
        if BearsAnswer(ms[0]) {
          assert Askers(ms, n)[l] == later[l - 1] && later[l - 1] in later;
        }
      }
    }
  }

  /** Response k answers the k-th answer-bearing message; power and reset get none. */
  lemma {:induction false} ResponsesMatchAskers(target: Option<Target>, ms: seq<Message>, env: nat -> Surroundings, n: nat)
    ensures var askers := Askers(ms, n);
            var responses := Responses(target, ms, env, n);
            && |responses| == |askers|
            && (forall k :: 0 <= k < |askers| ==>
                  && n <= askers[k] < n + |ms|
                  && (ms[askers[k] - n].ApduMessage? || ms[askers[k] - n] == ControlMessage(GetAtr))
                  && responses[k] == Response(target, ms[askers[k] - n], env(askers[k])))
    decreases |ms|
  {
    hide Response;
    if ms != [] {
      ResponsesMatchAskers(target, ms[1..], env, n + 1);
      var askers, later := Askers(ms, n), Askers(ms[1..], n + 1);
      var responses, others := Responses(target, ms, env, n), Responses(target, ms[1..], env, n + 1);
      var first := if BearsAnswer(ms[0]) then 1 else 0;
      forall k | 0 <= k < |askers|
        ensures n <= askers[k] < n + |ms| && BearsAnswer(ms[askers[k] - n])
             && responses[k] == Response(target, ms[askers[k] - n], env(askers[k]))
      {
        if k >= first {
          assert askers[k] == later[k - first] && responses[k] == others[k - first];
          assert ms[1..][later[k - first] - (n + 1)] == ms[later[k - first] - n];
        }
      }
    }
  }

  predicate IsPower(m: Message) {
    m == ControlMessage(PowerOff) || m == ControlMessage(PowerOn)
  }

  /** Power is as the last power message said, or as before when there was none. */
  lemma {:induction false} PowerIsLastSaid(powered: bool, ms: seq<Message>, last: int)
    requires -1 <= last < |ms|
    requires last >= 0 ==> IsPower(ms[last])
    requires forall i :: last < i < |ms| ==> !IsPower(ms[i])
    ensures PowerAfterAll(powered, ms) == if last >= 0 then ms[last] == ControlMessage(PowerOn) else powered
    decreases |ms|
  {
    if ms != [] {
      PowerIsLastSaid(PowerAfter(powered, ms[0]), ms[1..], if last >= 0 then last - 1 else -1);
    }
  }

  // ---------------------------------------------------------------------------------------
  // The client and its socket

  /** A connection: what is still to arrive, and how much the peer will still take. */
  class TcpStream {
    var incoming: seq<byte>
    const tail: Tail
    var written: seq<byte>
    var budget: nat

    constructor (incoming: seq<byte>, tail: Tail, budget: nat)
      ensures this.incoming == incoming && this.tail == tail && written == [] && this.budget == budget
    {
      this.incoming := incoming;
      this.tail := tail;
      this.written := [];
      this.budget := budget;
    }

    /** Fill a buffer of `n` bytes, or fail having read whatever there was. */
    method ReadExact(n: nat) returns (data: Option<seq<byte>>)
      modifies this`incoming
      ensures if |old(incoming)| >= n then data == Some(old(incoming)[..n]) && incoming == old(incoming)[n..]
              else data == None && incoming == []
    {
      if |incoming| >= n {
        data := Some(incoming[..n]);
        incoming := incoming[n..];
      } else {
        data := None;
        incoming := [];
      }
    }

    method WriteAll(data: seq<byte>) returns (ok: bool)
      modifies this`written, this`budget
      ensures ok <==> |data| <= old(budget)
      ensures written == old(written) + if ok then data else data[..old(budget)]
      ensures budget == if ok then old(budget) - |data| else 0
    {
      ok := |data| <= budget;
      if ok {
        written := written + data;
        budget := budget - |data|;
      } else {
        written := written + data[..budget];
        budget := 0;
      }
    }
  }

  lemma Joined(before: seq<byte>, sent: seq<byte>, gone: seq<byte>, written: seq<byte>)
    requires before + sent <= written && gone == written[|before + sent|..]
    ensures written == before + (sent + gone)
  {
  }

  lemma Assoc(a: seq<byte>, b: seq<byte>, c: seq<byte>)
    ensures a + (b + c) == (a + b) + c
  {
  }

  /** One turn of the loop, seen from what had been sent before it. */
  lemma ServeTurn(target: Option<Target>, powered: bool, ms: seq<Message>, budget: nat,
                  env: nat -> Surroundings, n: nat, sent: seq<byte>)
    requires ms != []
    ensures var s := Serve(target, powered, ms, budget, env, n);
            var out := Output(target, ms[0], env(n));
            if |out| > budget then s == Served(out[..budget], PowerAfter(powered, ms[0]))
            else
              var later := Serve(target, PowerAfter(powered, ms[0]), ms[1..], budget - |out|, env, n + 1);
              sent + s.written == (sent + out) + later.written && s.powered == later.powered
  {
    hide Response;
    var out := Output(target, ms[0], env(n));
    if |out| <= budget {
      var later := Serve(target, PowerAfter(powered, ms[0]), ms[1..], budget - |out|, env, n + 1);
      var s := Serve(target, powered, ms, budget, env, n);
      assert s.written == out + later.written;
      Assoc(sent, out, later.written);
    }
  }

  lemma ReceiveTurn(input: seq<byte>, tail: Tail)
    ensures var r := Receive(input, tail);
            ReceiveAll(input, tail).messages == if r.Got? then [r.message] + ReceiveAll(r.rest, tail).messages else []
  {
  }

  class VpcdClient {
    var target: Option<Target>
    var atr: seq<byte>
    var powered: bool

    constructor ()
      ensures target == None && atr == [] && powered
    {
      target, atr, powered := None, [], true;
    }

    method SetTarget(sessionId: string, readerName: string)
      modifies this`target
      ensures target == Some(Target(sessionId, readerName))
    {
      target := Some(Target(sessionId, readerName));
    }

    /** Serve one connection until it closes, breaks or stops taking responses. */
    method Connect(stream: TcpStream, env: nat -> Surroundings)
      modifies this`powered, this`atr, stream
      ensures var ms := ReceiveAll(old(stream.incoming), stream.tail).messages;
              var s := Serve(target, true, ms, old(stream.budget), env, 0);
              stream.written == old(stream.written) + s.written && powered == s.powered
    {
      powered := true;
      ghost var ms := ReceiveAll(stream.incoming, stream.tail).messages;
      ghost var whole := Serve(target, true, ms, stream.budget, env, 0);
      ghost var before := stream.written;
      ghost var sent: seq<byte> := [];
      var n: nat := 0;
      var more := true;
      while more
        invariant stream.written == before + sent
        invariant more ==> ms == ReceiveAll(stream.incoming, stream.tail).messages
        invariant more ==>
          var later := Serve(target, powered, ms, stream.budget, env, n);
          whole.written == sent + later.written && whole.powered == later.powered
        invariant !more ==> whole.written == sent && whole.powered == powered
        decreases more, |stream.incoming|
      {
        ghost var input, budget, said, was := stream.incoming, stream.budget, stream.written, powered;
        more := Turn(stream, env(n));
        ghost var gone := stream.written[|said|..];
        Joined(before, sent, gone, stream.written);
        ReceiveTurn(input, stream.tail);
        if ms != [] {
          ServeTurn(target, was, ms, budget, env, n, sent);
          ms := ms[1..];
        }
        sent := sent + gone;
        n := n + 1;
      }
    }

    /** One turn of the loop: receive a message, handle it, send the response if there is one. */
    method Turn(stream: TcpStream, s: Surroundings) returns (more: bool)
      modifies this`powered, this`atr, stream
      ensures var r := Receive(old(stream.incoming), stream.tail);
              if !r.Got? then
                !more && powered == old(powered) && stream.written == old(stream.written)
              else
                var out := Output(target, r.message, s);
                && (more <==> |out| <= old(stream.budget))
                && powered == PowerAfter(old(powered), r.message)
                && stream.written == old(stream.written) + (if more then out else out[..old(stream.budget)])
                && (more ==> stream.incoming == r.rest && stream.budget == old(stream.budget) - |out|
                             && |stream.incoming| < |old(stream.incoming)|)
    {
      var r := ReceiveMessage(stream);
      if !r.Got? {
        return false;
      }
      var response := HandleMessage(r.message, s);
      more := true;
      if response.Some? {
        more := SendResponse(stream, response.value);
      }
    }

    method ReceiveMessage(stream: TcpStream) returns (r: Received)
      modifies stream`incoming
      ensures r == Receive(old(stream.incoming), stream.tail)
      ensures r.Got? ==> stream.incoming == r.rest && |stream.incoming| < |old(stream.incoming)|
    {
      var lenBuf := stream.ReadExact(2);
      if lenBuf.None? {
        return if stream.tail.Eof? then Graceful else Broken(LengthUnreadable);
      }
      var len := FromBigEndian(lenBuf.value[0], lenBuf.value[1]);
      if len == 0 {
        return Broken(ZeroLength);
      }
      var data := stream.ReadExact(len);
      if data.None? {
        return Broken(DataUnreadable);
      }
      assert data.value == old(stream.incoming)[2..2 + len];
      if len == 1 {
        var c := ControlOf(data.value[0]);
        return if c.Some? then Received.Got(ControlMessage(c.value), stream.incoming) else Broken(UnknownControl);
      }
      return Received.Got(ApduMessage(data.value), stream.incoming);
    }

    method SendResponse(stream: TcpStream, data: seq<byte>) returns (ok: bool)
      modifies stream`written, stream`budget
      ensures ok <==> |Frame(data)| <= old(stream.budget)
      ensures stream.written == old(stream.written) + if ok then Frame(data) else Frame(data)[..old(stream.budget)]
      ensures ok ==> stream.budget == old(stream.budget) - |Frame(data)|
    {
      var lenBytes := BigEndian(|data| % U16_MODULUS);
      ghost var before, budget := stream.written, stream.budget;
      ok := stream.WriteAll(lenBytes);
      if ok {
        ok := stream.WriteAll(data);
        assert before + lenBytes + data == before + Frame(data);
        if !ok {
          assert lenBytes + data[..budget - 2] == Frame(data)[..budget];
          assert before + lenBytes + data[..budget - 2] == before + (lenBytes + data[..budget - 2]);
        }
      } else {
        assert lenBytes[..budget] == Frame(data)[..budget];
      }
    }

    method HandleMessage(m: Message, s: Surroundings) returns (response: Option<seq<byte>>)
      modifies this`powered, this`atr
      ensures powered == if m == ControlMessage(PowerOff) then false
                         else if m == ControlMessage(PowerOn) then true else old(powered)
      ensures match m
              case ControlMessage(PowerOff) => response == None
              case ControlMessage(PowerOn) => response == None
              case ControlMessage(Reset) => response == None
              case ControlMessage(GetAtr) => response == Some(AtrBytes(target, s))
              case ApduMessage(apdu) => response == Some(ApduBytes(target, apdu, s))
    {
      match m
      case ControlMessage(PowerOff) => powered := false; response := None;
      case ControlMessage(PowerOn) => powered := true; response := None;
      case ControlMessage(Reset) => response := None;
      case ControlMessage(GetAtr) =>
        var atr := GetAtrFromClient(s);
        response := Some(atr);
      case ApduMessage(apdu) =>
        var bytes, _, _ := ForwardApdu(apdu, s);
        response := Some(bytes);
    }

    /** Look at the table up to 300 times, 100 ms apart. */
    method WaitForCommandChannel(s: Surroundings) returns (ready: bool, sleptMs: nat)
      ensures target.None? ==> !ready && sleptMs == 0
      ensures target.Some? ==> Polling(ready, sleptMs) == PollFrom(s.atPoll, target.value.sessionId, 0)
      ensures target.Some? ==> (ready <==> exists i: nat :: UpAt(s.atPoll, target.value.sessionId, 0, i))
      ensures target.Some? ==> forall i: nat ::
                UpAt(s.atPoll, target.value.sessionId, 0, i) || GoneAt(s.atPoll, target.value.sessionId, 0, i) ==> sleptMs == 100 * i
    {
      ready, sleptMs := false, 0;
      if target.None? {
        return;
      }
      var sid := target.value.sessionId;
      ghost var whole := PollFrom(s.atPoll, sid, 0);
      PollingSucceedsIff(s.atPoll, sid, 0);
      for i := 0 to MAX_POLLS
        invariant !ready
        invariant var later := PollFrom(s.atPoll, sid, i);
                  whole == Polling(later.ready, sleptMs + later.sleptMs)
      {
        var table := s.atPoll(i);
        if sid !in table {
          return;
        }
        if table[sid].channel.Some? {
          ready := true;
          return;
        }
        sleptMs := sleptMs + POLL_INTERVAL_MS;
      }
    }

    /** Wait for the channel, send the command under the lock, and wait for the reply. */
    method AskClient(command: Messages.Command, s: Surroundings) returns (x: Exchange)
      requires target.Some?
      ensures x == Ask(target.value, command, s)
      ensures x.sleptMs <= 30_000 && x.waitedMs <= 30_000
    {
      var ready, sleptMs := WaitForCommandChannel(s);
      PollingSucceedsIff(s.atPoll, target.value.sessionId, 0);
      x := Exchange(None, None, sleptMs, 0);
      if !ready || target.value.sessionId !in s.atSend {
        return;
      }
      var session := s.atSend[target.value.sessionId];
      var sending := SendCommand(session, s.runtimeAtSend, command, target.value.readerName);
      x := Exchange(Some(sending), None, sleptMs, 0);
      if sending.result.Sent? {
        x := Exchange(Some(sending), Some(WaitEnds(s)), sleptMs, WaitedMs(s));
      }
    }

    /** The answer never depends on the ATR kept from earlier requests. */
    method GetAtrFromClient(s: Surroundings) returns (bytes: seq<byte>)
      modifies this`atr
      ensures bytes == AtrBytes(target, s)
      ensures atr == (if target.Some? && FindsAtr(target.value, s) then bytes else old(atr))
    {
      if target.None? {
        return [];
      }
      var table, sid, reader := s.atLookup, target.value.sessionId, target.value.readerName;
      if sid in table && reader in table[sid].readers && table[sid].readers[reader].atr != [] {
        atr := table[sid].readers[reader].atr;
        return atr;
      }
      var x := AskClient(Messages.GetAtr, s);
      AskMeans(target.value, Messages.GetAtr, s);
      if x.reply.None? {
        return [];
      }
      if CarriesAtr(x.reply.value) {
        atr := x.reply.value.response.response.value.atr;
        return atr;
      }
      return [];
    }

    /** Exactly one answer of at least two bytes, after at most 30 s of polling and 30 s of
        waiting for the reply. */
    method ForwardApdu(apdu: seq<byte>, s: Surroundings) returns (bytes: seq<byte>, sleptMs: nat, waitedMs: nat)
      ensures bytes == ApduBytes(target, apdu, s)
      ensures |bytes| >= 2 && sleptMs <= 30_000 && waitedMs <= 30_000
      ensures target.Some? && Reached(target.value.sessionId, s) && s.reply.Got? && s.reply.response.success
              && s.reply.response.response.Some? && s.reply.response.response.value.ApduPayload?
              && s.repliedAfterMs <= 30_000 ==>
                var payload := s.reply.response.response.value;
                bytes == payload.data + [payload.sw1 % 256, payload.sw2 % 256] && waitedMs == s.repliedAfterMs
    {
      if target.None? {
        return NO_DIAGNOSIS, 0, 0;
      }
      var x := AskClient(Messages.Apdu(apdu), s);
      AskMeans(target.value, Messages.Apdu(apdu), s);
      sleptMs, waitedMs := x.sleptMs, x.waitedMs;
      bytes := NO_DIAGNOSIS;
      if x.reply.Some? && x.reply.value.Got? {
        var response := x.reply.value.response;
        if response.success && response.response.Some? && response.response.value.ApduPayload? {
          var payload := response.response.value;
          bytes := payload.data + [payload.sw1 % 256, payload.sw2 % 256];
        }
      }
    }
  }

  // ---------------------------------------------------------------------------------------
  // The client's life

  /** Which attempts to connect succeed. */
  function Successes(attempts: seq<Option<TcpStream>>): seq<bool> {
    seq(|attempts|, n requires 0 <= n < |attempts| => attempts[n].Some?)
  }

  function StreamsOf(attempts: seq<Option<TcpStream>>): set<TcpStream> {
    set n | 0 <= n < |attempts| && attempts[n].Some? :: attempts[n].value
  }

  /** What will have been written to a connection once it has been served. */
  ghost function ServedTo(stream: TcpStream, target: Target, env: nat -> Surroundings): seq<byte>
    reads stream
  {
    stream.written + Serve(Some(target), true, ReceiveAll(stream.incoming, stream.tail).messages, stream.budget, env, 0).written
  }

  lemma OneMoreWait(waits: seq<nat>, errors: nat, outcomes: seq<bool>, n: nat)
    requires n < |outcomes|
    ensures var errors' := if outcomes[n] then 0 else Backoff.Counted(errors);
            var wait := if outcomes[n] then 100 else 1000 * Min(errors', Backoff.MAX_WAIT_SECS);
            waits + Backoff.Waits(errors, outcomes[n..]) == (waits + [wait]) + Backoff.Waits(errors', outcomes[n + 1..])
  {
    hide Backoff.Counted;
    assert outcomes[n..][1..] == outcomes[n + 1..];
  }

  lemma NoMoreWaits(waits: seq<nat>, errors: nat, outcomes: seq<bool>)
    ensures waits + Backoff.Waits(errors, outcomes[|outcomes|..]) == waits
  {
  }

  /** Start a client for a reader and keep it connected. An attempt is refused (None) or gives a
      connection, which is served for this reader until it ends; in between the client waits 100 ms
      after a connection, and after errors in a row as long as the schedule says. */
  method StartClient(sessionId: string, readerName: string, attempts: seq<Option<TcpStream>>, env: nat -> nat -> Surroundings)
    returns (waits: seq<nat>)
    requires forall i, j :: 0 <= i < j < |attempts| && attempts[i].Some? ==> attempts[i] != attempts[j]
    modifies StreamsOf(attempts)
    ensures waits == Backoff.Waits(0, Successes(attempts))
    ensures forall n :: 0 <= n < |attempts| && attempts[n].Some? ==>
              attempts[n].value.written == old(ServedTo(attempts[n].value, Target(sessionId, readerName), env(n)))
  {
    hide Backoff.Counted, Backoff.Waits, Serve, ReceiveAll;
    var client := new VpcdClient();
    client.SetTarget(sessionId, readerName);
    waits := [];
    var consecutiveErrors: nat := 0;
    assert Successes(attempts)[0..] == Successes(attempts);
    for n := 0 to |attempts|
      invariant fresh(client) && client.target == Some(Target(sessionId, readerName))
      invariant waits + Backoff.Waits(consecutiveErrors, Successes(attempts)[n..]) == Backoff.Waits(0, Successes(attempts))
      invariant forall k :: 0 <= k < n && attempts[k].Some? ==>
                  attempts[k].value.written == old(ServedTo(attempts[k].value, Target(sessionId, readerName), env(k)))
      invariant forall k :: n <= k < |attempts| && attempts[k].Some? ==> unchanged(attempts[k].value)
    {
      OneMoreWait(waits, consecutiveErrors, Successes(attempts), n);
      if attempts[n].Some? {
        client.Connect(attempts[n].value, env(n));
        waits := waits + [100];
        consecutiveErrors := 0;
      } else {
        consecutiveErrors := Backoff.Counted(consecutiveErrors);
        var delay := if consecutiveErrors <= Backoff.MAX_WAIT_SECS then consecutiveErrors else Backoff.MAX_WAIT_SECS;
        waits := waits + [1000 * delay];
      }
    }
    NoMoreWaits(waits, consecutiveErrors, Successes(attempts));
  }

  // ---------------------------------------------------------------------------------------
  // The connection as vpcd sees it

  /** vpcd prints any valid messages and closes. What it can peel off the connection is exactly
      the sequence of responses to its answer-bearing messages, if and only if all of them fit
      a 16-bit length; and power is as it last asked. */
  lemma VpcdReadsTheResponses(target: Option<Target>, ms: seq<Message>, budget: nat, env: nat -> Surroundings)
    requires forall m | m in ms :: Valid(m)
    requires |FrameAll(Responses(target, ms, env, 0))| <= budget
    ensures var s := Serve(target, true, ReceiveAll(EncodeAll(ms), Eof).messages, budget, env, 0);
            var responses := Responses(target, ms, env, 0);
            && ((PeelAll(s.written, |responses|) == Some(responses))
                  <==> (forall r | r in responses :: |r| < U16_MODULUS))
            && s.powered == PowerAfterAll(true, ms)
  {
    var responses := Responses(target, ms, env, 0);
    ParseInvertsPrint(ms);
    LoopIsPipeline(target, true, ms, budget, env);
    ResponsesReadBackIff(responses, []);
    assert FrameAll(responses) + [] == FrameAll(responses);
  }
}
