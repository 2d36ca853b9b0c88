/** Laws of a reader's connection over whole runs of card calls. */
module CardLaws {
  import opened Prelude
  import opened CardSlot

  datatype Op =
    | TransmitOp(apdu: seq<byte>)
    | AtrOp
    | DisconnectOp

  datatype Answer =
    | Bytes(result: Result<seq<byte>, ClientError>)
    | Done

  datatype Applied = Applied(slot: Slot, answer: Answer, events: seq<Event>)

  datatype Run = Run(slot: Slot, answers: seq<Answer>, events: seq<Event>)

  function Apply(reader: string, slot: Slot, oracle: Oracle, limit: nat, op: Op): Applied {
    match op
    case TransmitOp(apdu) =>
      var e := Transmit(reader, slot, oracle, limit, apdu);
      Applied(e.slot, Bytes(e.result), e.events)
    case AtrOp =>
      var e := QueryAtr(reader, slot, oracle, limit);
      Applied(e.slot, Bytes(e.result), e.events)
    case DisconnectOp =>
      var e := Drop(slot, OnRequest);
      Applied(e.slot, Done, e.events)
  }

  function RunOps(reader: string, slot: Slot, oracle: Oracle, limit: nat, ops: seq<Op>): Run
    decreases |ops|
  {
    if ops == [] then Run(slot, [], [])
    else
      var first := Apply(reader, slot, oracle, limit, ops[0]);
      var rest := RunOps(reader, first.slot, oracle, limit, ops[1..]);
      Run(rest.slot, [first.answer] + rest.answers, first.events + rest.events)
  }

  // ---------------------------------------------------------------------------------------
  // What a legal log of one persistent connection looks like

  /** `open` is the connection as the log shows it; `failed` says that the last thing the log
      shows is a failed transmission. */
  datatype Link = Link(open: Option<Handle>, failed: bool)

  /** The connection after one more event, or None when the event is not legal there. A
      connection is opened only when none is open, used only through the handle that is open,
      and given up only right after a failed transmission or on request. */
  function Step(link: Link, e: Event): Option<Link> {
    match e
    case Connected(outcome) =>
      if link.open.Some? then None
      else Some(Link(if outcome.Success? then Some(outcome.value) else None, false))
    case Slept(_) =>
      if link.open.Some? then None else Some(Link(None, false))
    case Transmitted(h, _, answer) =>
      if link.open == Some(h) then Some(Link(link.open, answer.Failure?)) else None
    case Queried(h, _) =>
      if link.open == Some(h) then Some(Link(link.open, false)) else None
    case Dropped(h, cause) =>
      if link.open == Some(h) && (cause == AfterFailedTransmit ==> link.failed) then Some(Link(None, false))
      else None
  }

  function Replay(link: Link, events: seq<Event>): Option<Link>
    decreases |events|
  {
    if events == [] then Some(link)
    else
      match Step(link, events[0])
      case None => None
      case Some(next) => Replay(next, events[1..])
  }

  lemma {:induction false} ReplayConcat(link: Link, a: seq<Event>, b: seq<Event>)
    requires Replay(link, a).Some?
    ensures Replay(link, a + b) == Replay(Replay(link, a).value, b)
    decreases |a|
  {
    if a == [] {
      assert a + b == b;
    } else {
      assert (a + b)[1..] == a[1..] + b;
      ReplayConcat(Step(link, a[0]).value, a[1..], b);
    }
  }

  function Has(open: Option<Handle>): nat {
    if open.Some? then 1 else 0
  }

  /** Opened minus removed is what the connection holds, in every legal log. */
  lemma {:induction false} ReplayConserves(link: Link, events: seq<Event>)
    requires Replay(link, events).Some?
    ensures Has(link.open) + Count(events, Open) == Has(Replay(link, events).value.open) + Count(events, Removal)
    decreases |events|
  {
    if events != [] {
      ReplayConserves(Step(link, events[0]).value, events[1..]);
    }
  }

  /** The log is legal from `link` on and ends with the connection that `after` caches. */
  ghost predicate Legal(link: Link, after: Slot, events: seq<Event>) {
    && Replay(link, events).Some?
    && Replay(link, events).value.open == after.cached
  }

  lemma {:induction false} ConnectLegal(oracle: Oracle, calls: nat, attempt: nat, limit: nat, failed: bool)
    ensures var c := ConnectFrom(oracle, calls, attempt, limit);
            Legal(Link(None, failed), Slot(if c.result.Success? then Some(c.result.value) else None, c.calls), c.events)
    decreases limit + 1 - attempt
  {
    if attempt <= limit {
      var outcome := oracle(calls).connect;
      if outcome.Failure? && Retryable(outcome.error) && attempt < limit {
        ConnectLegal(oracle, calls + 1, attempt + 1, limit, false);
        var rest := ConnectFrom(oracle, calls + 1, attempt + 1, limit);
        var events := [Connected(outcome), Slept(RETRY_DELAY_MS)];
        ReplayTwo(Link(None, failed), events[0], events[1]);
        ReplayConcat(Link(None, failed), events, rest.events);
      }
    }
  }

  lemma ReplayOne(link: Link, e: Event)
    ensures Replay(link, [e]) == Step(link, e)
  {
  }

  lemma ReplayTwo(link: Link, d: Event, e: Event)
    requires Step(link, d).Some?
    ensures Replay(link, [d, e]) == Step(Step(link, d).value, e)
  {
    ReplayOne(Step(link, d).value, e);
    assert [d, e][1..] == [e];
  }

  lemma GetOrConnectLegal(reader: string, slot: Slot, oracle: Oracle, limit: nat, failed: bool)
    ensures var e := GetOrConnect(reader, slot, oracle, limit);
            && Legal(Link(slot.cached, failed), e.slot, e.events)
            && (e.result.Success? ==> e.slot.cached == Some(e.result.value))
  {
    if slot.cached.None? && ValidName(reader) {
      ConnectLegal(oracle, slot.calls, 1, limit, failed);
    }
  }

  lemma TryTransmitLegal(reader: string, slot: Slot, oracle: Oracle, limit: nat, apdu: seq<byte>, failed: bool)
    ensures var e := TryTransmit(reader, slot, oracle, limit, apdu);
            && Legal(Link(slot.cached, failed), e.slot, e.events)
            && (e.result.Failure? && e.slot.cached.Some? ==> Replay(Link(slot.cached, failed), e.events).value.failed)
  {
    var link := Link(slot.cached, failed);
    var c := GetOrConnect(reader, slot, oracle, limit);
    GetOrConnectLegal(reader, slot, oracle, limit, failed);
    if c.result.Success? {
      var last := Transmitted(c.result.value, apdu, oracle(c.slot.calls).transmit);
      ReplayConcat(link, c.events, [last]);
      ReplayOne(Replay(link, c.events).value, last);
    } else {
      UncachedAfterFailure(reader, slot, oracle, limit);
    }
  }

  lemma UncachedAfterFailure(reader: string, slot: Slot, oracle: Oracle, limit: nat)
    ensures var e := GetOrConnect(reader, slot, oracle, limit);
            e.result.Failure? ==> e.slot.cached == None
  {
  }

  lemma TransmitLegal(reader: string, slot: Slot, oracle: Oracle, limit: nat, apdu: seq<byte>, failed: bool)
    ensures var e := Transmit(reader, slot, oracle, limit, apdu); Legal(Link(slot.cached, failed), e.slot, e.events)
  {
    var link := Link(slot.cached, failed);
    var first := TryTransmit(reader, slot, oracle, limit, apdu);
    TryTransmitLegal(reader, slot, oracle, limit, apdu, failed);
    if first.result.Failure? {
      var mid := Replay(link, first.events).value;
      var dropped := Drop(first.slot, AfterFailedTransmit);
      ReplayConcat(link, first.events, dropped.events);
      if first.slot.cached.Some? {
        ReplayOne(mid, dropped.events[0]);
      }
      var between := Replay(link, first.events + dropped.events).value;
      var second := TryTransmit(reader, dropped.slot, oracle, limit, apdu);
      TryTransmitLegal(reader, dropped.slot, oracle, limit, apdu, between.failed);
      ReplayConcat(link, first.events + dropped.events, second.events);
    }
  }

  lemma QueryAtrLegal(reader: string, slot: Slot, oracle: Oracle, limit: nat, failed: bool)
    ensures var e := QueryAtr(reader, slot, oracle, limit); Legal(Link(slot.cached, failed), e.slot, e.events)
  {
    var link := Link(slot.cached, failed);
    var c := GetOrConnect(reader, slot, oracle, limit);
    GetOrConnectLegal(reader, slot, oracle, limit, failed);
    if c.result.Success? {
      var last := Queried(c.result.value, oracle(c.slot.calls).status);
      ReplayConcat(link, c.events, [last]);
      ReplayOne(Replay(link, c.events).value, last);
    }
  }

  lemma ApplyLegal(reader: string, slot: Slot, oracle: Oracle, limit: nat, op: Op, failed: bool)
    ensures var r := Apply(reader, slot, oracle, limit, op); Legal(Link(slot.cached, failed), r.slot, r.events)
  {
    match op
    case TransmitOp(apdu) => TransmitLegal(reader, slot, oracle, limit, apdu, failed);
    case AtrOp => QueryAtrLegal(reader, slot, oracle, limit, failed);
    case DisconnectOp =>
      if slot.cached.Some? {
        ReplayOne(Link(slot.cached, failed), Dropped(slot.cached.value, OnRequest));
      }
  }

  function Disconnects(ops: seq<Op>): nat {
    if ops == [] then 0 else (if ops[0].DisconnectOp? then 1 else 0) + Disconnects(ops[1..])
  }

  lemma {:induction false} ConnectDropsNothing(oracle: Oracle, calls: nat, attempt: nat, limit: nat)
    ensures Count(ConnectFrom(oracle, calls, attempt, limit).events, RequestedRemoval) == 0
    decreases limit + 1 - attempt
  {
    if attempt <= limit && Busy(oracle, calls) && attempt < limit {
      ConnectDropsNothing(oracle, calls + 1, attempt + 1, limit);
      CountConcat([Connected(oracle(calls).connect), Slept(RETRY_DELAY_MS)],
                  ConnectFrom(oracle, calls + 1, attempt + 1, limit).events, RequestedRemoval);
    }
  }

  lemma TryTransmitKeeps(reader: string, slot: Slot, oracle: Oracle, limit: nat, apdu: seq<byte>)
    ensures Count(TryTransmit(reader, slot, oracle, limit, apdu).events, RequestedRemoval) == 0
  {
    var c := GetOrConnect(reader, slot, oracle, limit);
    ConnectDropsNothing(oracle, slot.calls, 1, limit);
    if c.result.Success? {
      CountConcat(c.events, [Transmitted(c.result.value, apdu, oracle(c.slot.calls).transmit)], RequestedRemoval);
    }
  }

  /** A connection is given up on request by exactly the disconnects that find one: transmitting
      and asking for the ATR never do. */
  lemma OnlyDisconnectDrops(reader: string, slot: Slot, oracle: Oracle, limit: nat, op: Op)
    ensures var r := Apply(reader, slot, oracle, limit, op);
            && Count(r.events, RequestedRemoval) == (if op.DisconnectOp? && slot.cached.Some? then 1 else 0)
            && (op.DisconnectOp? ==> r.slot.cached.None?)
            && (op.AtrOp? && slot.cached.Some? ==> r.slot.cached == slot.cached)
  {
    match op
    case TransmitOp(apdu) =>
      var first := TryTransmit(reader, slot, oracle, limit, apdu);
      TryTransmitKeeps(reader, slot, oracle, limit, apdu);
      if first.result.Failure? {
        var dropped := Drop(first.slot, AfterFailedTransmit);
        var second := TryTransmit(reader, dropped.slot, oracle, limit, apdu);
        TryTransmitKeeps(reader, dropped.slot, oracle, limit, apdu);
        CountConcat(first.events, dropped.events, RequestedRemoval);
        CountConcat(first.events + dropped.events, second.events, RequestedRemoval);
      }
    case AtrOp =>
      var c := GetOrConnect(reader, slot, oracle, limit);
      ConnectDropsNothing(oracle, slot.calls, 1, limit);
      if c.result.Success? {
        CountConcat(c.events, [Queried(c.result.value, oracle(c.slot.calls).status)], RequestedRemoval);
      }
    case DisconnectOp =>
  }

  /** Over any sequence of card calls and any environment, the cache keeps one persistent
      connection for the reader: its whole PC/SC log is legal, the handle it caches is the one
      the log shows as open, and connections are given up on request at most as often as that
      was requested. */
  lemma {:induction false} OnePersistentConnection(reader: string, slot: Slot, oracle: Oracle, limit: nat, ops: seq<Op>, failed: bool)
    ensures var r := RunOps(reader, slot, oracle, limit, ops);
            Legal(Link(slot.cached, failed), r.slot, r.events) && Count(r.events, RequestedRemoval) <= Disconnects(ops)
    decreases |ops|
  {
    if ops != [] {
      var link := Link(slot.cached, failed);
      var first := Apply(reader, slot, oracle, limit, ops[0]);
      ApplyLegal(reader, slot, oracle, limit, ops[0], failed);
      OnlyDisconnectDrops(reader, slot, oracle, limit, ops[0]);
      var rest := RunOps(reader, first.slot, oracle, limit, ops[1..]);
      OnePersistentConnection(reader, first.slot, oracle, limit, ops[1..], Replay(link, first.events).value.failed);
      ReplayConcat(link, first.events, rest.events);
      CountConcat(first.events, rest.events, RequestedRemoval);
    }
  }

  /** From an empty cache, connections opened minus connections removed is 1 exactly when the
      reader is cached, and 0 otherwise. */
  lemma ConnectionsConserved(reader: string, oracle: Oracle, limit: nat, ops: seq<Op>)
    ensures var r := RunOps(reader, EMPTY_SLOT, oracle, limit, ops);
            Count(r.events, Open) == Count(r.events, Removal) + Has(r.slot.cached)
  {
    var r := RunOps(reader, EMPTY_SLOT, oracle, limit, ops);
    OnePersistentConnection(reader, EMPTY_SLOT, oracle, limit, ops, false);
    ReplayConserves(Link(None, false), r.events);
  }

  /** In a legal log every removal was requested or answers a failed transmission of its own. */
  lemma {:induction false} RemovalsHaveCauses(link: Link, events: seq<Event>)
    requires Replay(link, events).Some?
    ensures Count(events, Removal)
         <= Count(events, RequestedRemoval) + Count(events, FailedTransmission) + if link.failed then 1 else 0
    decreases |events|
  {
    if events != [] {
      RemovalsHaveCauses(Step(link, events[0]).value, events[1..]);
    }
  }

  /** A reader is connected to anew only after a failed transmission or a requested disconnect:
      however many calls are made, it is opened at most once more than there are of those. */
  lemma ReopenedOnlyForCause(reader: string, oracle: Oracle, limit: nat, ops: seq<Op>)
    ensures var events := RunOps(reader, EMPTY_SLOT, oracle, limit, ops).events;
            Count(events, Open) <= 1 + Count(events, FailedTransmission) + Disconnects(ops)
  {
    OnePersistentConnection(reader, EMPTY_SLOT, oracle, limit, ops, false);
    ConnectionsConserved(reader, oracle, limit, ops);
    RemovalsHaveCauses(Link(None, false), RunOps(reader, EMPTY_SLOT, oracle, limit, ops).events);
  }

  // ---------------------------------------------------------------------------------------
  // Results

  /** The last PC/SC call was a transmission that the card answered. */
  predicate EndsAnswered(events: seq<Event>) {
    events != [] && Last(events).Transmitted? && Last(events).answer.Success?
  }

  predicate EndsIdentified(events: seq<Event>) {
    events != [] && Last(events).Queried? && Last(events).atr.Success?
  }

  lemma {:induction false} ConnectOnlyConnects(oracle: Oracle, calls: nat, attempt: nat, limit: nat)
    ensures forall e | e in ConnectFrom(oracle, calls, attempt, limit).events :: e.Connected? || e.Slept?
    decreases limit + 1 - attempt
  {
    if attempt <= limit && Busy(oracle, calls) && attempt < limit {
      ConnectOnlyConnects(oracle, calls + 1, attempt + 1, limit);
    }
  }

  lemma GetOrConnectEnds(reader: string, slot: Slot, oracle: Oracle, limit: nat)
    ensures var e := GetOrConnect(reader, slot, oracle, limit);
            && (e.result.Success? ==> e.slot.cached == Some(e.result.value))
            && !EndsAnswered(e.events) && !EndsIdentified(e.events)
  {
    ConnectOnlyConnects(oracle, slot.calls, 1, limit);
    var e := GetOrConnect(reader, slot, oracle, limit);
    assert e.events != [] ==> Last(e.events) in e.events;
  }

  lemma TryTransmitEnds(reader: string, slot: Slot, oracle: Oracle, limit: nat, apdu: seq<byte>)
    ensures var e := TryTransmit(reader, slot, oracle, limit, apdu);
            && (e.result.Success? <==> EndsAnswered(e.events))
            && (e.result.Success? ==>
                  e.slot.cached.Some?
                  && Last(e.events) == Transmitted(e.slot.cached.value, apdu, Success(e.result.value)))
  {
    GetOrConnectEnds(reader, slot, oracle, limit);
  }

  /** A transmit succeeds exactly when its last PC/SC call was answered by the card, and the
      bytes it returns are the card's own answer to that very APDU, given on the handle that is
      cached afterwards. */
  lemma TransmitReturnsCardAnswer(reader: string, slot: Slot, oracle: Oracle, limit: nat, apdu: seq<byte>)
    ensures var e := Transmit(reader, slot, oracle, limit, apdu);
            && (e.result.Success? <==> EndsAnswered(e.events))
            && (e.result.Success? ==>
                  e.slot.cached.Some?
                  && Last(e.events) == Transmitted(e.slot.cached.value, apdu, Success(e.result.value)))
  {
    var first := TryTransmit(reader, slot, oracle, limit, apdu);
    TryTransmitEnds(reader, slot, oracle, limit, apdu);
    if first.result.Failure? {
      var dropped := Drop(first.slot, AfterFailedTransmit);
      var second := TryTransmit(reader, dropped.slot, oracle, limit, apdu);
      TryTransmitEnds(reader, dropped.slot, oracle, limit, apdu);
      LastOfThree(first.events, dropped.events, second.events);
    }
  }

  lemma LastOfThree(a: seq<Event>, b: seq<Event>, c: seq<Event>)
    ensures var all := a + b + c;
            && (all == [] <==> a == [] && b == [] && c == [])
            && (c != [] ==> Last(all) == Last(c))
            && (c == [] && b != [] ==> Last(all) == Last(b))
            && (c == [] && b == [] && a != [] ==> Last(all) == Last(a))
  {
  }

  /** Likewise for the ATR. */
  lemma QueryReturnsCardAtr(reader: string, slot: Slot, oracle: Oracle, limit: nat)
    ensures var e := QueryAtr(reader, slot, oracle, limit);
            && (e.result.Success? <==> EndsIdentified(e.events))
            && (e.result.Success? ==>
                  e.slot.cached.Some?
                  && Last(e.events) == Queried(e.slot.cached.value, Success(e.result.value)))
  {
    GetOrConnectEnds(reader, slot, oracle, limit);
  }

  // ---------------------------------------------------------------------------------------
  // Cost

  function Transmits(ops: seq<Op>): nat {
    if ops == [] then 0 else (if ops[0].TransmitOp? then 1 else 0) + Transmits(ops[1..])
  }

  function AtrQueries(ops: seq<Op>): nat {
    if ops == [] then 0 else (if ops[0].AtrOp? then 1 else 0) + AtrQueries(ops[1..])
  }

  /** At most `t` transmissions and at most `c` runs of the connect loop's worth of work. */
  ghost predicate Within(events: seq<Event>, limit: nat, t: nat, c: nat)
    requires limit >= 1
  {
    && Count(events, Transmission) <= t
    && Count(events, Attempt) <= limit * c
    && SleptMs(events) <= (limit - 1) * c * RETRY_DELAY_MS
  }

  lemma WithinConcat(a: seq<Event>, b: seq<Event>, limit: nat, t1: nat, c1: nat, t2: nat, c2: nat)
    requires limit >= 1 && Within(a, limit, t1, c1) && Within(b, limit, t2, c2)
    ensures Within(a + b, limit, t1 + t2, c1 + c2)
  {
    CountConcat(a, b, Transmission);
    CountConcat(a, b, Attempt);
    SleptConcat(a, b);
    assert limit * (c1 + c2) == limit * c1 + limit * c2;
    assert (limit - 1) * (c1 + c2) == (limit - 1) * c1 + (limit - 1) * c2;
  }

  lemma {:induction false} ConnectSendsNothing(oracle: Oracle, calls: nat, attempt: nat, limit: nat)
    ensures Count(ConnectFrom(oracle, calls, attempt, limit).events, Transmission) == 0
    decreases limit + 1 - attempt
  {
    if attempt <= limit {
      var outcome := oracle(calls).connect;
      if outcome.Failure? && Retryable(outcome.error) && attempt < limit {
        ConnectSendsNothing(oracle, calls + 1, attempt + 1, limit);
        CountConcat([Connected(outcome), Slept(RETRY_DELAY_MS)],
                    ConnectFrom(oracle, calls + 1, attempt + 1, limit).events, Transmission);
      }
    }
  }

  lemma GetOrConnectCost(reader: string, slot: Slot, oracle: Oracle, limit: nat)
    requires limit >= 1
    ensures Within(GetOrConnect(reader, slot, oracle, limit).events, limit, 0, 1)
  {
    if slot.cached.None? && ValidName(reader) {
      var stop := ConnectStops(oracle, slot.calls, 1, limit);
      ConnectSendsNothing(oracle, slot.calls, 1, limit);
      assert (stop - slot.calls) * RETRY_DELAY_MS <= (limit - 1) * RETRY_DELAY_MS;
    }
  }

  lemma TryTransmitCost(reader: string, slot: Slot, oracle: Oracle, limit: nat, apdu: seq<byte>)
    requires limit >= 1
    ensures Within(TryTransmit(reader, slot, oracle, limit, apdu).events, limit, 1, 1)
  {
    var c := GetOrConnect(reader, slot, oracle, limit);
    GetOrConnectCost(reader, slot, oracle, limit);
    if c.result.Success? {
      WithinConcat(c.events, [Transmitted(c.result.value, apdu, oracle(c.slot.calls).transmit)], limit, 0, 1, 1, 0);
    }
  }

  lemma ApplyCost(reader: string, slot: Slot, oracle: Oracle, limit: nat, op: Op)
    requires limit >= 1
    ensures Within(Apply(reader, slot, oracle, limit, op).events, limit,
                   if op.TransmitOp? then 2 else 0,
                   if op.TransmitOp? then 2 else if op.AtrOp? then 1 else 0)
  {
    match op
    case TransmitOp(apdu) =>
      var first := TryTransmit(reader, slot, oracle, limit, apdu);
      TryTransmitCost(reader, slot, oracle, limit, apdu);
      if first.result.Failure? {
        var dropped := Drop(first.slot, AfterFailedTransmit);
        var second := TryTransmit(reader, dropped.slot, oracle, limit, apdu);
        TryTransmitCost(reader, dropped.slot, oracle, limit, apdu);
        WithinConcat(first.events, dropped.events, limit, 1, 1, 0, 0);
        WithinConcat(first.events + dropped.events, second.events, limit, 1, 1, 1, 1);
      }
    case AtrOp =>
      var c := GetOrConnect(reader, slot, oracle, limit);
      GetOrConnectCost(reader, slot, oracle, limit);
      if c.result.Success? {
        WithinConcat(c.events, [Queried(c.result.value, oracle(c.slot.calls).status)], limit, 0, 1, 0, 0);
      }
    case DisconnectOp =>
  }

  /** With retry limit n, k transmits and m ATR queries cost at most 2k card transmissions,
      n(2k + m) connect attempts and (n - 1)(2k + m) sleeps of the retry delay. */
  lemma {:induction false} RetryCost(reader: string, slot: Slot, oracle: Oracle, limit: nat, ops: seq<Op>)
    requires limit >= 1
    ensures Within(RunOps(reader, slot, oracle, limit, ops).events, limit,
                   2 * Transmits(ops), 2 * Transmits(ops) + AtrQueries(ops))
    decreases |ops|
  {
    if ops != [] {
      var first := Apply(reader, slot, oracle, limit, ops[0]);
      ApplyCost(reader, slot, oracle, limit, ops[0]);
      RetryCost(reader, first.slot, oracle, limit, ops[1..]);
      WithinConcat(first.events, RunOps(reader, first.slot, oracle, limit, ops[1..]).events, limit,
                   if ops[0].TransmitOp? then 2 else 0,
                   if ops[0].TransmitOp? then 2 else if ops[0].AtrOp? then 1 else 0,
                   2 * Transmits(ops[1..]), 2 * Transmits(ops[1..]) + AtrQueries(ops[1..]));
    }
  }

  // ---------------------------------------------------------------------------------------
  // Many readers behind one cache

  type Slots = map<string, Slot>

  function SlotOf(slots: Slots, reader: string): Slot {
    if reader in slots then slots[reader] else EMPTY_SLOT
  }

  datatype Call = Call(reader: string, op: Op)

  datatype ManyRun = ManyRun(slots: Slots, answers: seq<Answer>)

  /** Calls on any readers in any order, each worked on its own reader's slot. */
  function RunCalls(slots: Slots, oracles: string -> Oracle, limit: nat, calls: seq<Call>): (r: ManyRun)
    ensures |r.answers| == |calls|
    decreases |calls|
  {
    if calls == [] then ManyRun(slots, [])
    else
      var c := calls[0];
      var first := Apply(c.reader, SlotOf(slots, c.reader), oracles(c.reader), limit, c.op);
      var rest := RunCalls(slots[c.reader := first.slot], oracles, limit, calls[1..]);
      ManyRun(rest.slots, [first.answer] + rest.answers)
  }

  function OpsOf(calls: seq<Call>, reader: string): seq<Op> {
    if calls == [] then []
    else (if calls[0].reader == reader then [calls[0].op] else []) + OpsOf(calls[1..], reader)
  }

  function AnswersOf(calls: seq<Call>, answers: seq<Answer>, reader: string): seq<Answer>
    requires |calls| == |answers|
  {
    if calls == [] then []
    else (if calls[0].reader == reader then [answers[0]] else []) + AnswersOf(calls[1..], answers[1..], reader)
  }

  /** Refinement: what a reader's caller sees of the shared cache, however calls on other
      readers are interleaved, is exactly what the reader's own single connection gives. */
  lemma {:induction false} CacheRefinesPrivateConnections(slots: Slots, oracles: string -> Oracle, limit: nat, calls: seq<Call>, reader: string)
    ensures var many := RunCalls(slots, oracles, limit, calls);
            var own := RunOps(reader, SlotOf(slots, reader), oracles(reader), limit, OpsOf(calls, reader));
            && AnswersOf(calls, many.answers, reader) == own.answers
            && SlotOf(many.slots, reader) == own.slot
    decreases |calls|
  {
    if calls != [] {
      var c := calls[0];
      var first := Apply(c.reader, SlotOf(slots, c.reader), oracles(c.reader), limit, c.op);
      var slots' := slots[c.reader := first.slot];
      var rest := RunCalls(slots', oracles, limit, calls[1..]);
      CacheRefinesPrivateConnections(slots', oracles, limit, calls[1..], reader);
      UnfoldCalls(slots, oracles, limit, calls, reader);
      if c.reader == reader {
        UnfoldOps(reader, SlotOf(slots, reader), oracles(reader), limit, c.op, OpsOf(calls[1..], reader));
      } else {
        assert OpsOf(calls, reader) == OpsOf(calls[1..], reader);
      }
    }
  }

  lemma UnfoldOps(reader: string, slot: Slot, oracle: Oracle, limit: nat, op: Op, ops: seq<Op>)
    ensures var first := Apply(reader, slot, oracle, limit, op);
            var rest := RunOps(reader, first.slot, oracle, limit, ops);
            RunOps(reader, slot, oracle, limit, [op] + ops)
              == Run(rest.slot, [first.answer] + rest.answers, first.events + rest.events)
  {
  }

  lemma UnfoldCalls(slots: Slots, oracles: string -> Oracle, limit: nat, calls: seq<Call>, reader: string)
    requires calls != []
    ensures var c := calls[0];
            var first := Apply(c.reader, SlotOf(slots, c.reader), oracles(c.reader), limit, c.op);
            var rest := RunCalls(slots[c.reader := first.slot], oracles, limit, calls[1..]);
            var many := RunCalls(slots, oracles, limit, calls);
            && many.slots == rest.slots
            && AnswersOf(calls, many.answers, reader)
                 == (if c.reader == reader then [first.answer] else []) + AnswersOf(calls[1..], rest.answers, reader)
  {
  }
}
