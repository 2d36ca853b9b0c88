/** What the replies of the PC/SC stack decide: the outcome of every card call in terms of the
    environment alone, whatever the calls log. */
module CardOutcomes {
  import opened Prelude
  import opened CardSlot
  import opened CardLaws

  // ---------------------------------------------------------------------------------------
  // Connecting

  /** The error of giving up on this reply. */
  predicate StopsWith(e: PcscError, error: ClientError) {
    match e
    case SharingViolation(_) =>
      error == SmartcardFailure("Card is busy (sharing violation). Another application may be using it.")
    case ReaderUnavailable(_) => error == SmartcardFailure("Reader unavailable after retries")
    case OtherError(_) => error == PcscFailure(e)
  }

  /** A cached handle is used as it is. Otherwise the reader is connected: the calls up to `stop`
      find it busy or away and are retried, and the call at `stop` decides. */
  ghost predicate GetsHandle(reader: string, oracle: Oracle, slot: Slot, limit: nat,
                             handle: Result<Handle, ClientError>, after: Slot) {
    match slot.cached
    case Some(h) => handle == Success(h) && after == slot
    case None =>
      if '\0' in reader then handle == Failure(ConfigError) && after == slot
      else
        exists stop: nat :: StopsAt(oracle, slot.calls, stop, limit) && Decides(oracle(stop).connect, stop, handle, after)
  }

  /** The reply to the call at `stop` is the outcome of connecting. */
  ghost predicate Decides(reply: Result<Handle, PcscError>, stop: nat, handle: Result<Handle, ClientError>, after: Slot) {
    match reply
    case Success(h) => handle == Success(h) && after == Slot(Some(h), stop + 1)
    case Failure(e) => handle.Failure? && StopsWith(e, handle.error) && after == Slot(None, stop + 1)
  }

  lemma GetOrConnectGets(reader: string, slot: Slot, oracle: Oracle, limit: nat)
    requires limit >= 1
    ensures var e := GetOrConnect(reader, slot, oracle, limit); GetsHandle(reader, oracle, slot, limit, e.result, e.slot)
  {
    if slot.cached.None? && ValidName(reader) {
      var stop := ConnectStops(oracle, slot.calls, 1, limit);
      assert StopsAt(oracle, slot.calls, stop, limit);
    }
  }

  lemma GetsHandleOnce(reader: string, oracle: Oracle, slot: Slot, limit: nat,
                       h1: Result<Handle, ClientError>, a1: Slot, h2: Result<Handle, ClientError>, a2: Slot)
    requires GetsHandle(reader, oracle, slot, limit, h1, a1) && GetsHandle(reader, oracle, slot, limit, h2, a2)
    ensures h1 == h2 && a1 == a2
  {
    if slot.cached.None? && '\0' !in reader {
      var s1: nat :| StopsAt(oracle, slot.calls, s1, limit) && Decides(oracle(s1).connect, s1, h1, a1);
      var s2: nat :| StopsAt(oracle, slot.calls, s2, limit) && Decides(oracle(s2).connect, s2, h2, a2);
      StopsAtOnce(oracle, slot.calls, s1, s2, limit);
    }
  }

  /** A reader that stays busy for `k` calls is tried `k + 1` times, with a sleep of 500 ms before
      each further try, as long as that is within the limit. */
  lemma BusyReaderIsRetried(reader: string, oracle: Oracle, calls: nat, k: nat, limit: nat)
    requires '\0' !in reader && k < limit
    requires forall n: nat | calls <= n < calls + k :: Busy(oracle, n)
    requires !Busy(oracle, calls + k) || k == limit - 1
    ensures var e := GetOrConnect(reader, Slot(None, calls), oracle, limit);
            && Count(e.events, Attempt) == k + 1 && SleptMs(e.events) == 500 * k
            && e.slot.calls == calls + k + 1
            && match oracle(calls + k).connect
               case Success(h) => e.result == Success(h) && e.slot.cached == Some(h)
               case Failure(error) => e.result.Failure? && StopsWith(error, e.result.error) && e.slot.cached == None
  {
    var stop := ConnectStops(oracle, calls, 1, limit);
    assert StopsAt(oracle, calls, calls + k, limit);
    StopsAtOnce(oracle, calls, stop, calls + k, limit);
  }

  // ---------------------------------------------------------------------------------------
  // Transmitting

  function Wrapped<T>(reply: Result<T, PcscError>): Result<T, ClientError> {
    match reply
    case Success(value) => Success(value)
    case Failure(e) => Failure(PcscFailure(e))
  }

  /** One try: get a handle, then the card's reply to the next call decides. */
  ghost predicate TriesOnce(reader: string, oracle: Oracle, slot: Slot, limit: nat,
                            reply: Result<CardBytes, ClientError>, after: Slot) {
    exists handle: Result<Handle, ClientError>, mid: Slot ::
      && GetsHandle(reader, oracle, slot, limit, handle, mid)
      && match handle
         case Failure(e) => reply == Failure(e) && after == mid
         case Success(_) => reply == Wrapped(oracle(mid.calls).transmit) && after == mid.(calls := mid.calls + 1)
  }

  /** What a transmission comes to: the first try if it succeeds, else a second, after dropping the
      connection. */
  ghost predicate CardReplies(reader: string, oracle: Oracle, slot: Slot, limit: nat,
                              reply: Result<CardBytes, ClientError>, after: Slot) {
    exists first: Result<CardBytes, ClientError>, between: Slot ::
      && TriesOnce(reader, oracle, slot, limit, first, between)
      && if first.Success? then reply == first && after == between
         else TriesOnce(reader, oracle, Slot(None, between.calls), limit, reply, after)
  }

  lemma TryTransmitTries(reader: string, slot: Slot, oracle: Oracle, limit: nat, apdu: seq<byte>)
    requires limit >= 1
    ensures var e := TryTransmit(reader, slot, oracle, limit, apdu); TriesOnce(reader, oracle, slot, limit, e.result, e.slot)
  {
    GetOrConnectGets(reader, slot, oracle, limit);
    var c := GetOrConnect(reader, slot, oracle, limit);
    assert GetsHandle(reader, oracle, slot, limit, c.result, c.slot);
  }

  /** For every connection, environment and retry limit. */
  lemma TransmitReplies(reader: string, slot: Slot, oracle: Oracle, limit: nat, apdu: seq<byte>)
    requires limit >= 1
    ensures var e := Transmit(reader, slot, oracle, limit, apdu);
            CardReplies(reader, oracle, slot, limit, e.result, e.slot)
  {
    var first := TryTransmit(reader, slot, oracle, limit, apdu);
    TryTransmitTries(reader, slot, oracle, limit, apdu);
    if first.result.Failure? {
      var dropped := Drop(first.slot, AfterFailedTransmit);
      TryTransmitTries(reader, dropped.slot, oracle, limit, apdu);
      assert dropped.slot == Slot(None, first.slot.calls);
    }
    assert TriesOnce(reader, oracle, slot, limit, first.result, first.slot);
  }

  lemma TriesOnceOnly(reader: string, oracle: Oracle, slot: Slot, limit: nat,
                      r1: Result<CardBytes, ClientError>, a1: Slot, r2: Result<CardBytes, ClientError>, a2: Slot)
    requires TriesOnce(reader, oracle, slot, limit, r1, a1) && TriesOnce(reader, oracle, slot, limit, r2, a2)
    ensures r1 == r2 && a1 == a2
  {
    var h1: Result<Handle, ClientError>, m1: Slot :| GetsHandle(reader, oracle, slot, limit, h1, m1)
      && match h1
         case Failure(e) => r1 == Failure(e) && a1 == m1
         case Success(_) => r1 == Wrapped(oracle(m1.calls).transmit) && a1 == m1.(calls := m1.calls + 1);
    var h2: Result<Handle, ClientError>, m2: Slot :| GetsHandle(reader, oracle, slot, limit, h2, m2)
      && match h2
         case Failure(e) => r2 == Failure(e) && a2 == m2
         case Success(_) => r2 == Wrapped(oracle(m2.calls).transmit) && a2 == m2.(calls := m2.calls + 1);
    GetsHandleOnce(reader, oracle, slot, limit, h1, m1, h2, m2);
  }

  /** The environment leaves no choice. */
  lemma CardRepliesOnce(reader: string, oracle: Oracle, slot: Slot, limit: nat,
                        r1: Result<CardBytes, ClientError>, a1: Slot, r2: Result<CardBytes, ClientError>, a2: Slot)
    requires CardReplies(reader, oracle, slot, limit, r1, a1) && CardReplies(reader, oracle, slot, limit, r2, a2)
    ensures r1 == r2 && a1 == a2
  {
    hide TriesOnce;
    var f1: Result<CardBytes, ClientError>, b1: Slot :| TriesOnce(reader, oracle, slot, limit, f1, b1)
      && if f1.Success? then r1 == f1 && a1 == b1 else TriesOnce(reader, oracle, Slot(None, b1.calls), limit, r1, a1);
    var f2: Result<CardBytes, ClientError>, b2: Slot :| TriesOnce(reader, oracle, slot, limit, f2, b2)
      && if f2.Success? then r2 == f2 && a2 == b2 else TriesOnce(reader, oracle, Slot(None, b2.calls), limit, r2, a2);
    TriesOnceOnly(reader, oracle, slot, limit, f1, b1, f2, b2);
    if f1.Failure? { TriesOnceOnly(reader, oracle, Slot(None, b1.calls), limit, r1, a1, r2, a2); }
  }

  /** On a cached connection that works, the APDU is sent once and the card's reply is the result. */
  lemma WorkingConnectionTransmits(reader: string, h: Handle, calls: nat, oracle: Oracle, limit: nat, apdu: seq<byte>)
    requires oracle(calls).transmit.Success?
    ensures Transmit(reader, Slot(Some(h), calls), oracle, limit, apdu)
         == Effect(Slot(Some(h), calls + 1), Success(oracle(calls).transmit.value), [Transmitted(h, apdu, oracle(calls).transmit)])
  {
    assert [] + [Transmitted(h, apdu, oracle(calls).transmit)] == [Transmitted(h, apdu, oracle(calls).transmit)];
  }

  /** On a cached connection that has failed, as after a card reset, the handle is removed, the
      reader connected anew and the APDU sent a second time: the reply to that is the result. */
  lemma FailedConnectionIsReplaced(reader: string, h: Handle, calls: nat, oracle: Oracle, limit: nat, apdu: seq<byte>, stop: nat)
    requires oracle(calls).transmit.Failure? && '\0' !in reader
    requires StopsAt(oracle, calls + 1, stop, limit)
    ensures var e := Transmit(reader, Slot(Some(h), calls), oracle, limit, apdu);
            && Count(e.events, Removal) == 1 && Count(e.events, Attempt) == stop - calls
            && match oracle(stop).connect
               case Success(h') =>
                 && e.result == Wrapped(oracle(stop + 1).transmit) && e.slot == Slot(Some(h'), stop + 2)
                 && Count(e.events, Transmission) == 2
                 && Last(e.events) == Transmitted(h', apdu, oracle(stop + 1).transmit)
               case Failure(error) =>
                 && e.result.Failure? && StopsWith(error, e.result.error) && e.slot == Slot(None, stop + 1)
                 && Count(e.events, Transmission) == 1
  {
    var first := TryTransmit(reader, Slot(Some(h), calls), oracle, limit, apdu);
    var sent := Transmitted(h, apdu, oracle(calls).transmit);
    assert first.events == [sent];
    var removed := Dropped(h, AfterFailedTransmit);
    assert Drop(first.slot, AfterFailedTransmit) == Effect(Slot(None, calls + 1), Success(()), [removed]);
    var second := TryTransmit(reader, Slot(None, calls + 1), oracle, limit, apdu);
    FreshTry(reader, calls + 1, oracle, limit, apdu, stop);
    CountBoth([sent] + [removed], second.events, Removal);
    CountBoth([sent] + [removed], second.events, Attempt);
    CountBoth([sent] + [removed], second.events, Transmission);
    assert [sent] + [removed] == [sent, removed];
    assert second.events != [] ==> Last([sent] + [removed] + second.events) == Last(second.events);
  }

  lemma CountBoth(a: seq<Event>, b: seq<Event>, kind: Kind)
    requires |a| == 2
    ensures Count(a + b, kind)
         == (if Matches(kind, a[0]) then 1 else 0) + (if Matches(kind, a[1]) then 1 else 0) + Count(b, kind)
  {
    CountConcat(a, b, kind);
    assert a == [a[0], a[1]] && a[1..] == [a[1]] && a[1..][1..] == [];
  }

  lemma {:induction false} ConnectingCounts(oracle: Oracle, calls: nat, attempt: nat, limit: nat)
    ensures var c := ConnectFrom(oracle, calls, attempt, limit);
            Count(c.events, Removal) == 0 && Count(c.events, Transmission) == 0
    decreases limit + 1 - attempt
  {
    if attempt < limit && Busy(oracle, calls) {
      ConnectingCounts(oracle, calls + 1, attempt + 1, limit);
      var first := [Connected(oracle(calls).connect), Slept(RETRY_DELAY_MS)];
      CountBoth(first, ConnectFrom(oracle, calls + 1, attempt + 1, limit).events, Removal);
      CountBoth(first, ConnectFrom(oracle, calls + 1, attempt + 1, limit).events, Transmission);
    }
  }

  /** One try without a connection. */
  lemma FreshTry(reader: string, calls: nat, oracle: Oracle, limit: nat, apdu: seq<byte>, stop: nat)
    requires '\0' !in reader && StopsAt(oracle, calls, stop, limit)
    ensures var e := TryTransmit(reader, Slot(None, calls), oracle, limit, apdu);
            && Count(e.events, Removal) == 0 && Count(e.events, Attempt) == stop - calls + 1
            && match oracle(stop).connect
               case Success(h) =>
                 && e.result == Wrapped(oracle(stop + 1).transmit) && e.slot == Slot(Some(h), stop + 2)
                 && Count(e.events, Transmission) == 1
                 && e.events != [] && Last(e.events) == Transmitted(h, apdu, oracle(stop + 1).transmit)
               case Failure(error) =>
                 && e.result.Failure? && StopsWith(error, e.result.error) && e.slot == Slot(None, stop + 1)
                 && Count(e.events, Transmission) == 0
  {
    var stops := ConnectStops(oracle, calls, 1, limit);
    StopsAtOnce(oracle, calls, stops, stop, limit);
    var c := ConnectFrom(oracle, calls, 1, limit);
    ConnectingCounts(oracle, calls, 1, limit);
    if c.result.Success? {
      var last := [Transmitted(c.result.value, apdu, oracle(stop + 1).transmit)];
      CountConcat(c.events, last, Removal);
      CountConcat(c.events, last, Attempt);
      CountConcat(c.events, last, Transmission);
    }
  }

  // ---------------------------------------------------------------------------------------
  // Asking for the ATR

  /** The card's status at the next call, on the cached or a new connection, is the result. */
  ghost predicate CardIdentifies(reader: string, oracle: Oracle, slot: Slot, limit: nat,
                                 reply: Result<AtrBytes, ClientError>, after: Slot) {
    exists handle: Result<Handle, ClientError>, mid: Slot ::
      && GetsHandle(reader, oracle, slot, limit, handle, mid)
      && match handle
         case Failure(e) => reply == Failure(e) && after == mid
         case Success(_) => reply == Wrapped(oracle(mid.calls).status) && after == mid.(calls := mid.calls + 1)
  }

  lemma QueryIdentifies(reader: string, slot: Slot, oracle: Oracle, limit: nat)
    requires limit >= 1
    ensures var e := QueryAtr(reader, slot, oracle, limit); CardIdentifies(reader, oracle, slot, limit, e.result, e.slot)
  {
    GetOrConnectGets(reader, slot, oracle, limit);
    var c := GetOrConnect(reader, slot, oracle, limit);
    assert GetsHandle(reader, oracle, slot, limit, c.result, c.slot);
  }

  lemma CardIdentifiesOnce(reader: string, oracle: Oracle, slot: Slot, limit: nat,
                           r1: Result<AtrBytes, ClientError>, a1: Slot, r2: Result<AtrBytes, ClientError>, a2: Slot)
    requires CardIdentifies(reader, oracle, slot, limit, r1, a1) && CardIdentifies(reader, oracle, slot, limit, r2, a2)
    ensures r1 == r2 && a1 == a2
  {
    var h1: Result<Handle, ClientError>, m1: Slot :| GetsHandle(reader, oracle, slot, limit, h1, m1)
      && match h1
         case Failure(e) => r1 == Failure(e) && a1 == m1
         case Success(_) => r1 == Wrapped(oracle(m1.calls).status) && a1 == m1.(calls := m1.calls + 1);
    var h2: Result<Handle, ClientError>, m2: Slot :| GetsHandle(reader, oracle, slot, limit, h2, m2)
      && match h2
         case Failure(e) => r2 == Failure(e) && a2 == m2
         case Success(_) => r2 == Wrapped(oracle(m2.calls).status) && a2 == m2.(calls := m2.calls + 1);
    GetsHandleOnce(reader, oracle, slot, limit, h1, m1, h2, m2);
  }

  /** On a cached connection, the card is asked once, and keeps its connection whatever it says. */
  lemma CachedConnectionIsAsked(reader: string, h: Handle, calls: nat, oracle: Oracle, limit: nat)
    ensures QueryAtr(reader, Slot(Some(h), calls), oracle, limit)
         == Effect(Slot(Some(h), calls + 1), Wrapped(oracle(calls).status), [Queried(h, oracle(calls).status)])
  {
    assert [] + [Queried(h, oracle(calls).status)] == [Queried(h, oracle(calls).status)];
  }

  /** Without one, the reader is connected first. */
  lemma NewConnectionIsAsked(reader: string, calls: nat, oracle: Oracle, limit: nat, stop: nat)
    requires '\0' !in reader && StopsAt(oracle, calls, stop, limit)
    ensures var e := QueryAtr(reader, Slot(None, calls), oracle, limit);
            match oracle(stop).connect
            case Success(h) =>
              && e.result == Wrapped(oracle(stop + 1).status) && e.slot == Slot(Some(h), stop + 2)
              && e.events != [] && Last(e.events) == Queried(h, oracle(stop + 1).status)
            case Failure(error) => e.result.Failure? && StopsWith(error, e.result.error) && e.slot == Slot(None, stop + 1)
  {
    var stops := ConnectStops(oracle, calls, 1, limit);
    StopsAtOnce(oracle, calls, stops, stop, limit);
  }
}
