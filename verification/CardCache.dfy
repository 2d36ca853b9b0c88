/** The client's cache of card connections as an object, proved to work each reader's slot as
    CardSlot says and to leave every other reader's alone. */
module CardCache {
  import opened Prelude
  import opened CardSlot

  /** The PC/SC stack: each reader's replies, how many it has given, and a log per reader. */
  class PcscContext {
    const oracles: string -> Oracle
    var calls: map<string, nat>
    ghost var log: map<string, seq<Event>>

    constructor (oracles: string -> Oracle)
      ensures this.oracles == oracles && calls == map[] && log == map[]
    {
      this.oracles := oracles;
      this.calls := map[];
      this.log := map[];
    }

    function CallsOf(reader: string): nat
      reads this
    {
      if reader in calls then calls[reader] else 0
    }

    ghost function LogOf(reader: string): seq<Event>
      reads this
    {
      if reader in log then log[reader] else []
    }

    method Note(reader: string, made: nat, ghost event: Event)
      modifies this
      ensures CallsOf(reader) == old(CallsOf(reader)) + made
      ensures LogOf(reader) == old(LogOf(reader)) + [event]
      ensures forall r :: r != reader ==> CallsOf(r) == old(CallsOf(r)) && LogOf(r) == old(LogOf(r))
    {
      calls := calls[reader := CallsOf(reader) + made];
      log := log[reader := LogOf(reader) + [event]];
    }

    method Connect(reader: string) returns (outcome: Result<Handle, PcscError>)
      modifies this
      ensures outcome == oracles(reader)(old(CallsOf(reader))).connect
      ensures CallsOf(reader) == old(CallsOf(reader)) + 1
      ensures LogOf(reader) == old(LogOf(reader)) + [Connected(outcome)]
      ensures forall r :: r != reader ==> CallsOf(r) == old(CallsOf(r)) && LogOf(r) == old(LogOf(r))
    {
      outcome := oracles(reader)(CallsOf(reader)).connect;
      Note(reader, 1, Connected(outcome));
    }

    /** Write the card's answer to the front of the buffer and say how long it is. */
    method Transmit(reader: string, handle: Handle, apdu: seq<byte>, buffer: array<byte>)
      returns (len: Result<nat, PcscError>)
      requires buffer.Length == RESPONSE_BUFFER
      modifies this, buffer
      ensures var answer := oracles(reader)(old(CallsOf(reader))).transmit;
              && LogOf(reader) == old(LogOf(reader)) + [Transmitted(handle, apdu, answer)]
              && (match answer
                  case Success(bytes) => len == Success(|bytes|) && buffer[..|bytes|] == bytes
                  case Failure(e) => len == Failure(e))
      ensures CallsOf(reader) == old(CallsOf(reader)) + 1
      ensures forall r :: r != reader ==> CallsOf(r) == old(CallsOf(r)) && LogOf(r) == old(LogOf(r))
    {
      var answer := oracles(reader)(CallsOf(reader)).transmit;
      Note(reader, 1, Transmitted(handle, apdu, answer));
      match answer
      case Success(bytes) =>
        for i := 0 to |bytes|
          invariant buffer[..i] == bytes[..i]
          modifies buffer
        {
          buffer[i] := bytes[i];
        }
        len := Success(|bytes|);
      case Failure(e) =>
        len := Failure(e);
    }

    method Status(reader: string, handle: Handle) returns (atr: Result<AtrBytes, PcscError>)
      modifies this
      ensures atr == oracles(reader)(old(CallsOf(reader))).status
      ensures CallsOf(reader) == old(CallsOf(reader)) + 1
      ensures LogOf(reader) == old(LogOf(reader)) + [Queried(handle, atr)]
      ensures forall r :: r != reader ==> CallsOf(r) == old(CallsOf(r)) && LogOf(r) == old(LogOf(r))
    {
      atr := oracles(reader)(CallsOf(reader)).status;
      Note(reader, 1, Queried(handle, atr));
    }
  }

  lemma TwoMore(before: seq<Event>, done: seq<Event>, a: Event, b: Event, rest: seq<Event>)
    ensures before + done + [a] + [b] == before + (done + [a, b])
    ensures done + ([a, b] + rest) == (done + [a, b]) + rest
  {
  }

  lemma ThreeMore(before: seq<Event>, a: seq<Event>, b: seq<Event>, c: seq<Event>)
    ensures before + a + b + c == before + (a + b + c)
  {
  }

  class CardConnectionManager {
    const context: PcscContext
    var connections: map<string, Handle>

    constructor (context: PcscContext)
      ensures this.context == context && connections == map[]
    {
      this.context := context;
      this.connections := map[];
    }

    /** The reader's connection as this manager holds it. */
    function SlotOf(reader: string): Slot
      reads this, context
    {
      Slot(if reader in connections then Some(connections[reader]) else None, context.CallsOf(reader))
    }

    method GetOrConnect(reader: string) returns (card: Result<Handle, ClientError>)
      modifies this`connections, context
      ensures var e := CardSlot.GetOrConnect(reader, old(SlotOf(reader)), context.oracles(reader), MAX_RETRIES);
              SlotOf(reader) == e.slot && card == e.result
              && context.LogOf(reader) == old(context.LogOf(reader)) + e.events
      ensures forall r :: r != reader ==> SlotOf(r) == old(SlotOf(r)) && context.LogOf(r) == old(context.LogOf(r))
    {
      if reader in connections {
        return Success(connections[reader]);
      }
      if !ValidName(reader) {
        return Failure(ConfigError);
      }
      card := ConnectWithRetry(reader, MAX_RETRIES);
      if card.Success? {
        connections := connections[reader := card.value];
      }
    }

    /** Attempts 1 to `limit`, sleeping between those that find the reader busy or away. */
    method ConnectWithRetry(reader: string, limit: nat) returns (card: Result<Handle, ClientError>)
      requires reader !in connections
      modifies context
      ensures var c := ConnectFrom(context.oracles(reader), old(context.CallsOf(reader)), 1, limit);
              card == c.result && context.CallsOf(reader) == c.calls
              && context.LogOf(reader) == old(context.LogOf(reader)) + c.events
      ensures forall r :: r != reader ==>
                context.CallsOf(r) == old(context.CallsOf(r)) && context.LogOf(r) == old(context.LogOf(r))
    {
      ghost var whole := ConnectFrom(context.oracles(reader), context.CallsOf(reader), 1, limit);
      ghost var before := context.LogOf(reader);
      ghost var done: seq<Event> := [];
      for attempt := 1 to limit + 1
        invariant context.LogOf(reader) == before + done
        invariant var rest := ConnectFrom(context.oracles(reader), context.CallsOf(reader), attempt, limit);
                  whole == Connecting(rest.result, rest.calls, done + rest.events)
        invariant forall r :: r != reader ==>
                    context.CallsOf(r) == old(context.CallsOf(r)) && context.LogOf(r) == old(context.LogOf(r))
      {
        var outcome := context.Connect(reader);
        if outcome.Success? {
          return Success(outcome.value);
        }
        if !Retryable(outcome.error) || attempt >= limit {
          return Failure(GivenUp(outcome.error));
        }
        context.Note(reader, 0, Slept(RETRY_DELAY_MS));
        ghost var rest := ConnectFrom(context.oracles(reader), context.CallsOf(reader), attempt + 1, limit);
        TwoMore(before, done, Connected(outcome), Slept(RETRY_DELAY_MS), rest.events);
        done := done + [Connected(outcome), Slept(RETRY_DELAY_MS)];
      }
      return Failure(SmartcardFailure(FELL_THROUGH));
    }

    method Disconnect(reader: string, ghost cause: DropCause)
      modifies this`connections, context
      ensures var e := Drop(old(SlotOf(reader)), cause);
              SlotOf(reader) == e.slot && context.LogOf(reader) == old(context.LogOf(reader)) + e.events
      ensures forall r :: r != reader ==> SlotOf(r) == old(SlotOf(r)) && context.LogOf(r) == old(context.LogOf(r))
    {
      if reader in connections {
        context.Note(reader, 0, Dropped(connections[reader], cause));
        connections := connections - {reader};
      }
    }

    method TryTransmit(reader: string, apdu: seq<byte>) returns (response: Result<CardBytes, ClientError>)
      modifies this`connections, context
      ensures var e := CardSlot.TryTransmit(reader, old(SlotOf(reader)), context.oracles(reader), MAX_RETRIES, apdu);
              SlotOf(reader) == e.slot && response == e.result
              && context.LogOf(reader) == old(context.LogOf(reader)) + e.events
      ensures forall r :: r != reader ==> SlotOf(r) == old(SlotOf(r)) && context.LogOf(r) == old(context.LogOf(r))
    {
      var card := GetOrConnect(reader);
      if card.Failure? {
        return Failure(card.error);
      }
      var buffer := new byte[RESPONSE_BUFFER];
      var len := context.Transmit(reader, card.value, apdu, buffer);
      if len.Failure? {
        return Failure(PcscFailure(len.error));
      }
      response := Success(buffer[..len.value]);
    }

    /** Transmit, and when that fails reconnect once and transmit again. */
    method Transmit(reader: string, apdu: seq<byte>) returns (response: Result<CardBytes, ClientError>)
      modifies this`connections, context
      ensures var e := CardSlot.Transmit(reader, old(SlotOf(reader)), context.oracles(reader), MAX_RETRIES, apdu);
              SlotOf(reader) == e.slot && response == e.result
              && context.LogOf(reader) == old(context.LogOf(reader)) + e.events
      ensures forall r :: r != reader ==> SlotOf(r) == old(SlotOf(r)) && context.LogOf(r) == old(context.LogOf(r))
    {
      ghost var before := context.LogOf(reader);
      ghost var first := CardSlot.TryTransmit(reader, SlotOf(reader), context.oracles(reader), MAX_RETRIES, apdu);
      response := TryTransmit(reader, apdu);
      if response.Failure? {
        ghost var dropped := Drop(first.slot, AfterFailedTransmit);
        Disconnect(reader, AfterFailedTransmit);
        ghost var second := CardSlot.TryTransmit(reader, dropped.slot, context.oracles(reader), MAX_RETRIES, apdu);
        response := TryTransmit(reader, apdu);
        ThreeMore(before, first.events, dropped.events, second.events);
      }
    }

    method GetAtr(reader: string) returns (atr: Result<AtrBytes, ClientError>)
      modifies this`connections, context
      ensures var e := QueryAtr(reader, old(SlotOf(reader)), context.oracles(reader), MAX_RETRIES);
              SlotOf(reader) == e.slot && atr == e.result
              && context.LogOf(reader) == old(context.LogOf(reader)) + e.events
      ensures forall r :: r != reader ==> SlotOf(r) == old(SlotOf(r)) && context.LogOf(r) == old(context.LogOf(r))
    {
      var card := GetOrConnect(reader);
      if card.Failure? {
        return Failure(card.error);
      }
      var status := context.Status(reader, card.value);
      if status.Failure? {
        return Failure(PcscFailure(status.error));
      }
      atr := Success(status.value);
    }
  }
}
