/** One reader's persistent card connection, as a state machine over PC/SC outcomes.

    This is the reference the client's connection cache is proved against: a slot holds at
    most one open handle, and every PC/SC call it makes is recorded as an event. */
module CardSlot {
  import opened Prelude

  const MAX_RETRIES: nat := 5
  const RETRY_DELAY_MS: nat := 500
  const RESPONSE_BUFFER: nat := 65538
  const MAX_ATR_SIZE: nat := 33

  type CardBytes = s: seq<byte> | |s| <= RESPONSE_BUFFER
  type AtrBytes = s: seq<byte> | |s| <= MAX_ATR_SIZE
  type Handle = nat

  datatype PcscError =
    | SharingViolation(text: string)
    | ReaderUnavailable(text: string)
    | OtherError(text: string)

  predicate Retryable(e: PcscError) {
    e.SharingViolation? || e.ReaderUnavailable?
  }

  datatype ClientError =
    | ConfigError
    | PcscFailure(cause: PcscError)
    | SmartcardFailure(message: string)

  const CARD_BUSY := "Card is busy (sharing violation). Another application may be using it."
  const READER_GONE := "Reader unavailable after retries"
  const FELL_THROUGH := "Connection failed"

  /** The error as the client formats it into a response. */
  function Display(e: ClientError): string {
    match e
    case ConfigError => "Configuration error: Invalid reader name"
    case PcscFailure(cause) => "PC/SC error: " + cause.text
    case SmartcardFailure(message) => "Smartcard error: " + message
  }

  /** What the PC/SC stack would answer to one call, whichever call it turns out to be. */
  datatype Reply = Reply(
    connect: Result<Handle, PcscError>,
    transmit: Result<CardBytes, PcscError>,
    status: Result<AtrBytes, PcscError>)

  /** The environment of one reader: the reply to its n-th PC/SC call. */
  type Oracle = nat -> Reply

  datatype DropCause = AfterFailedTransmit | OnRequest

  datatype Event =
    | Connected(outcome: Result<Handle, PcscError>)
    | Slept(ms: nat)
    | Transmitted(handle: Handle, apdu: seq<byte>, answer: Result<CardBytes, PcscError>)
    | Queried(handle: Handle, atr: Result<AtrBytes, PcscError>)
    | Dropped(handle: Handle, cause: DropCause)

  /** `cached` is the handle the cache holds for the reader; `calls` counts its PC/SC calls. */
  datatype Slot = Slot(cached: Option<Handle>, calls: nat)

  const EMPTY_SLOT := Slot(None, 0)

  datatype Effect<+T> = Effect(slot: Slot, result: Result<T, ClientError>, events: seq<Event>)

  /** A C string cannot be made from a name with an interior NUL. */
  predicate ValidName(reader: string) {
    '\0' !in reader
  }

  datatype Connecting = Connecting(result: Result<Handle, ClientError>, calls: nat, events: seq<Event>)

  /** The connect loop from `attempt` on, out of `limit` attempts in all. */
  function ConnectFrom(oracle: Oracle, calls: nat, attempt: nat, limit: nat): Connecting
    decreases limit + 1 - attempt
  {
    if attempt > limit then
      Connecting(Failure(SmartcardFailure(FELL_THROUGH)), calls, [])
    else
      var outcome := oracle(calls).connect;
      match outcome
      case Success(h) => Connecting(Success(h), calls + 1, [Connected(outcome)])
      case Failure(e) =>
        if Retryable(e) && attempt < limit then
          var rest := ConnectFrom(oracle, calls + 1, attempt + 1, limit);
          Connecting(rest.result, rest.calls, [Connected(outcome), Slept(RETRY_DELAY_MS)] + rest.events)
        else
          Connecting(Failure(GivenUp(e)), calls + 1, [Connected(outcome)])
  }

  /** The error reported when the loop stops on `e`. */
  function GivenUp(e: PcscError): ClientError {
    match e
    case SharingViolation(_) => SmartcardFailure(CARD_BUSY)
    case ReaderUnavailable(_) => SmartcardFailure(READER_GONE)
    case OtherError(_) => PcscFailure(e)
  }

  function GetOrConnect(reader: string, slot: Slot, oracle: Oracle, limit: nat): Effect<Handle> {
    match slot.cached
    case Some(h) => Effect(slot, Success(h), [])
    case None =>
      if !ValidName(reader) then Effect(slot, Failure(ConfigError), [])
      else
        var c := ConnectFrom(oracle, slot.calls, 1, limit);
        var cached := if c.result.Success? then Some(c.result.value) else None;
        Effect(Slot(cached, c.calls), c.result, c.events)
  }

  function TryTransmit(reader: string, slot: Slot, oracle: Oracle, limit: nat, apdu: seq<byte>): Effect<CardBytes> {
    var c := GetOrConnect(reader, slot, oracle, limit);
    match c.result
    case Failure(e) => Effect(c.slot, Failure(e), c.events)
    case Success(h) =>
      var answer := oracle(c.slot.calls).transmit;
      var after := c.slot.(calls := c.slot.calls + 1);
      var events := c.events + [Transmitted(h, apdu, answer)];
      match answer
      case Success(bytes) => Effect(after, Success(bytes), events)
      case Failure(e) => Effect(after, Failure(PcscFailure(e)), events)
  }

  function Drop(slot: Slot, cause: DropCause): Effect<()> {
    match slot.cached
    case Some(h) => Effect(slot.(cached := None), Success(()), [Dropped(h, cause)])
    case None => Effect(slot, Success(()), [])
  }

  function Transmit(reader: string, slot: Slot, oracle: Oracle, limit: nat, apdu: seq<byte>): Effect<CardBytes> {
    var first := TryTransmit(reader, slot, oracle, limit, apdu);
    if first.result.Success? then first
    else
      var dropped := Drop(first.slot, AfterFailedTransmit);
      var second := TryTransmit(reader, dropped.slot, oracle, limit, apdu);
      Effect(second.slot, second.result, first.events + dropped.events + second.events)
  }

  function QueryAtr(reader: string, slot: Slot, oracle: Oracle, limit: nat): Effect<AtrBytes> {
    var c := GetOrConnect(reader, slot, oracle, limit);
    match c.result
    case Failure(e) => Effect(c.slot, Failure(e), c.events)
    case Success(h) =>
      var answer := oracle(c.slot.calls).status;
      var after := c.slot.(calls := c.slot.calls + 1);
      var events := c.events + [Queried(h, answer)];
      match answer
      case Success(bytes) => Effect(after, Success(bytes), events)
      case Failure(e) => Effect(after, Failure(PcscFailure(e)), events)
  }

  // ---------------------------------------------------------------------------------------
  // The connect loop

  /** The reader is busy or away at call `n`, so that connecting is worth another attempt. */
  ghost predicate Busy(oracle: Oracle, n: nat) {
    && oracle(n).connect.Failure?
    && (oracle(n).connect.error.SharingViolation? || oracle(n).connect.error.ReaderUnavailable?)
  }

  /** A loop of `limit` attempts stops at call `stop`: every earlier call found the reader
      busy, and this one did not or is the last allowed. */
  ghost predicate StopsAt(oracle: Oracle, calls: nat, stop: nat, limit: nat) {
    && calls <= stop < calls + limit
    && (forall n: nat :: calls <= n < stop ==> Busy(oracle, n))
    && (Busy(oracle, stop) ==> stop == calls + limit - 1)
  }

  /** The loop returns the reply it stops at: the first success if one comes within the limit
      after retryable errors only, and otherwise the error of the stopping attempt. It makes
      one more call than it sleeps, and never reaches the error after the loop. */
  lemma {:induction false} ConnectStops(oracle: Oracle, calls: nat, attempt: nat, limit: nat) returns (stop: nat)
    requires 1 <= attempt <= limit
    ensures StopsAt(oracle, calls, stop, limit - attempt + 1)
    ensures var c := ConnectFrom(oracle, calls, attempt, limit);
            var reply := oracle(stop).connect;
            && c.calls == stop + 1
            && c.result == (if reply.Success? then Success(reply.value) else Failure(GivenUp(reply.error)))
            && c.result != Failure(SmartcardFailure(FELL_THROUGH))
            && Count(c.events, Attempt) == stop - calls + 1
            && SleptMs(c.events) == (stop - calls) * RETRY_DELAY_MS
    decreases limit - attempt
  {
    if Busy(oracle, calls) && attempt < limit {
      stop := ConnectStops(oracle, calls + 1, attempt + 1, limit);
      var rest := ConnectFrom(oracle, calls + 1, attempt + 1, limit);
      var first := [Connected(oracle(calls).connect), Slept(RETRY_DELAY_MS)];
      CountConcat(first, rest.events, Attempt);
      SleptConcat(first, rest.events);
    } else {
      stop := calls;
    }
  }

  /** Only one call satisfies `StopsAt`, so the previous lemma determines the loop's result. */
  lemma StopsAtOnce(oracle: Oracle, calls: nat, i: nat, j: nat, limit: nat)
    requires StopsAt(oracle, calls, i, limit) && StopsAt(oracle, calls, j, limit)
    ensures i == j
  {
  }

  // ---------------------------------------------------------------------------------------
  // Counting PC/SC work in an event log

  datatype Kind = Attempt | Open | Transmission | FailedTransmission | Removal | RequestedRemoval

  predicate Matches(kind: Kind, e: Event) {
    match kind
    case Attempt => e.Connected?
    case Open => e.Connected? && e.outcome.Success?
    case Transmission => e.Transmitted?
    case FailedTransmission => e.Transmitted? && e.answer.Failure?
    case Removal => e.Dropped?
    case RequestedRemoval => e.Dropped? && e.cause == OnRequest
  }

  function Count(events: seq<Event>, kind: Kind): nat {
    if events == [] then 0 else (if Matches(kind, events[0]) then 1 else 0) + Count(events[1..], kind)
  }

  function SleptMs(events: seq<Event>): nat {
    if events == [] then 0 else (if events[0].Slept? then events[0].ms else 0) + SleptMs(events[1..])
  }

  lemma {:induction false} CountConcat(a: seq<Event>, b: seq<Event>, kind: Kind)
    ensures Count(a + b, kind) == Count(a, kind) + Count(b, kind)
  {
    if a == [] {
      assert a + b == b;
    } else {
      assert (a + b)[1..] == a[1..] + b;
      CountConcat(a[1..], b, kind);
    }
  }

  lemma {:induction false} SleptConcat(a: seq<Event>, b: seq<Event>)
    ensures SleptMs(a + b) == SleptMs(a) + SleptMs(b)
  {
    if a == [] {
      assert a + b == b;
    } else {
      assert (a + b)[1..] == a[1..] + b;
      SleptConcat(a[1..], b);
    }
  }
}
