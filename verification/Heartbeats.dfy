/** The client's heartbeat loop, and why a client still in it keeps its session. */
module Heartbeats {
  import opened Prelude
  import opened SessionSpec
  import World

  const MAX_FAILURES: nat := 3
  const INTERVAL: nat := 30 * NANOS_PER_SECOND

  // ---------------------------------------------------------------------------------------
  // The loop

  datatype Beat = Acked(valid: bool) | Failed

  /** What the loop's select can yield. */
  datatype LoopEvent =
    | Tick(beat: Beat)
    | ChannelClosed
    | ShutdownChanged(requested: bool)

  datatype Exit = StillRunning | CleanShutdown | SessionInvalid | TooManyFailures | ChannelLost

  /** How the loop fares on these events after `failures` failed beats in a row. */
  function Loop(failures: nat, events: seq<LoopEvent>): Exit
    decreases |events|
  {
    if events == [] then StillRunning
    else
      match events[0]
      case Tick(Acked(valid)) => if valid then Loop(0, events[1..]) else SessionInvalid
      case Tick(Failed) =>
        if failures + 1 >= MAX_FAILURES then TooManyFailures else Loop(failures + 1, events[1..])
      case ChannelClosed => ChannelLost
      case ShutdownChanged(requested) => if requested then CleanShutdown else Loop(failures, events[1..])
  }

  function Beats(events: seq<LoopEvent>): seq<Beat> {
    if events == [] then []
    else (if events[0].Tick? then [events[0].beat] else []) + Beats(events[1..])
  }

  predicate Ends(e: LoopEvent) {
    e.ChannelClosed? || (e.ShutdownChanged? && e.requested) || (e.Tick? && e.beat == Acked(false))
  }

  /** Failures at the end of a beat sequence that began after `failures` of them. */
  function TrailingFailures(failures: nat, beats: seq<Beat>): nat {
    if beats == [] then failures
    else if Last(beats).Acked? then 0
    else TrailingFailures(failures, beats[..|beats| - 1]) + 1
  }

  /** At no point do three beats in a row fail. */
  ghost predicate NeverThree(failures: nat, beats: seq<Beat>) {
    forall n :: 0 < n <= |beats| ==> TrailingFailures(failures, beats[..n]) < MAX_FAILURES
  }

  lemma {:induction false} TrailingFrom(failures: nat, beat: Beat, beats: seq<Beat>)
    ensures TrailingFailures(failures, [beat] + beats)
              == TrailingFailures(if beat.Acked? then 0 else failures + 1, beats)
    decreases |beats|
  {
    var all := [beat] + beats;
    if beats == [] {
      assert all[..0] == [];
    } else {
      assert all[..|all| - 1] == [beat] + beats[..|beats| - 1];
      TrailingFrom(failures, beat, beats[..|beats| - 1]);
    }
  }

  lemma NeverThreeCons(failures: nat, beat: Beat, beats: seq<Beat>)
    ensures var next := if beat.Acked? then 0 else failures + 1;
            NeverThree(failures, [beat] + beats) <==> next < MAX_FAILURES && NeverThree(next, beats)
  {
    var next := if beat.Acked? then 0 else failures + 1;
    var all := [beat] + beats;
    TrailingFrom(failures, beat, []);
    assert all[..1] == [beat] + [];
    forall n | 0 < n <= |beats|
      ensures TrailingFailures(failures, all[..n + 1]) == TrailingFailures(next, beats[..n])
    {
      assert all[..n + 1] == [beat] + beats[..n];
      TrailingFrom(failures, beat, beats[..n]);
    }
    if NeverThree(failures, all) {
      assert TrailingFailures(failures, all[..1]) < MAX_FAILURES;
      forall n | 0 < n <= |beats| ensures TrailingFailures(next, beats[..n]) < MAX_FAILURES {
        assert TrailingFailures(failures, all[..n + 1]) < MAX_FAILURES;
      }
    }
    if next < MAX_FAILURES && NeverThree(next, beats) {
      forall n | 0 < n <= |all| ensures TrailingFailures(failures, all[..n]) < MAX_FAILURES {
        if n > 1 { assert TrailingFailures(next, beats[..n - 1]) < MAX_FAILURES; }
      }
    }
  }

  /** The loop is still running exactly when nothing has ended it and no three beats in a row
      have failed, whatever else came between them. */
  lemma {:induction false} RunningIff(failures: nat, events: seq<LoopEvent>)
    ensures Loop(failures, events) == StillRunning <==>
              (forall i :: 0 <= i < |events| ==> !Ends(events[i])) && NeverThree(failures, Beats(events))
    decreases |events|
  {
    if events != [] {
      var e, later := events[0], events[1..];
      var next := match e case Tick(Acked(_)) => 0 case Tick(Failed) => failures + 1 case _ => failures;
      RunningIff(next, later);
      assert forall i :: 0 < i < |events| ==> events[i] == later[i - 1];
      if e.Tick? {
        NeverThreeCons(failures, e.beat, Beats(later));
      } else {
        assert Beats(events) == Beats(later);
      }
    }
  }

  /** How the loop ends, when it runs until one more event: a closed command channel, a requested
      shutdown, a session the server no longer knows and a third failure in a row each have their
      own exit, whatever comes afterwards. */
  lemma {:induction false} ExitsBy(failures: nat, events: seq<LoopEvent>, p: nat)
    requires p < |events| && Loop(failures, events[..p]) == StillRunning
    ensures var exit := match events[p]
                        case ChannelClosed => ChannelLost
                        case ShutdownChanged(requested) => if requested then CleanShutdown else StillRunning
                        case Tick(Acked(valid)) => if valid then StillRunning else SessionInvalid
                        case Tick(Failed) =>
                          if TrailingFailures(failures, Beats(events[..p])) >= 2 then TooManyFailures else StillRunning;
            exit != StillRunning ==> Loop(failures, events) == exit
    decreases p
  {
    if p == 0 {
      assert events[..0] == [];
    } else {
      var e, later := events[0], events[1..];
      assert events[..p][0] == e && events[..p][1..] == later[..p - 1];
      var next := match e case Tick(Acked(_)) => 0 case Tick(Failed) => failures + 1 case _ => failures;
      ExitsBy(next, later, p - 1);
      if e.Tick? {
        assert Beats(events[..p]) == [e.beat] + Beats(later[..p - 1]);
        TrailingFrom(failures, e.beat, Beats(later[..p - 1]));
      } else {
        assert Beats(events[..p]) == Beats(later[..p - 1]);
      }
    }
  }

  /** The loop of one connection's lifetime. */
  method RunLoop(events: seq<LoopEvent>) returns (exit: Exit)
    ensures exit == Loop(0, events)
  {
    var consecutiveFailures: nat := 0;
    for i := 0 to |events|
      invariant Loop(consecutiveFailures, events[i..]) == Loop(0, events)
    {
      assert events[i..][1..] == events[i + 1..];
      match events[i] {
      case Tick(Acked(valid)) =>
        consecutiveFailures := 0;
        if !valid {
          return SessionInvalid;
        }
      case Tick(Failed) =>
        consecutiveFailures := consecutiveFailures + 1;
        if consecutiveFailures >= MAX_FAILURES {
          return TooManyFailures;
        }
      case ChannelClosed => return ChannelLost;
      case ShutdownChanged(requested) =>
        if requested {
          return CleanShutdown;
        }
      }
    }
    return StillRunning;
  }

  // ---------------------------------------------------------------------------------------
  // Heartbeats against expiry

  /** What happens over time to a client in its loop and to its session. A beat that is sent may
      arrive at the server and still not be acknowledged, and may even arrive after the client has
      given it up. */
  datatype Moment =
    | SentAt(at: nat)
    | ArrivedAt(at: nat)
    | OverAt(at: nat, acked: bool)
    | LateAt(at: nat)
    | CleanupAt(at: nat)

  /** A beat on its way: when it was sent, whether it has arrived, and what the server said. */
  datatype Flight = Flight(sent: nat, arrived: bool, valid: bool)

  /** `beats` and `failures` count the beats that are over and those failed in a row; `free` is
      when the last one was over. `running` while the client is in its loop. */
  datatype Life = Life(
    table: Table,
    beats: nat,
    failures: nat,
    flight: Option<Flight>,
    free: nat,
    now: nat,
    running: bool)

  function Outcome(l: Life, acked: bool): Beat {
    if acked && l.flight.Some? then Acked(l.flight.value.valid) else Failed
  }

  function Live(l: Life, sid: string, timeoutSecs: nat, m: Moment): Life {
    match m
    case SentAt(at) => l.(flight := Some(Flight(at, false, false)), now := at)
    case ArrivedAt(at) =>
      l.(table := Touch(l.table, sid, at), now := at,
         flight := if l.flight.Some? then Some(l.flight.value.(arrived := true, valid := sid in l.table)) else None)
    case LateAt(at) => l.(table := Touch(l.table, sid, at), now := at)
    case OverAt(at, acked) =>
      l.(beats := l.beats + 1, failures := if Outcome(l, acked).Acked? then 0 else l.failures + 1,
         flight := None, free := at, now := at,
         running := Loop(l.failures, [Tick(Outcome(l, acked))]) == StillRunning)
    case CleanupAt(at) => l.(table := l.table - ExpiredIds(l.table, at, timeoutSecs), now := at)
  }

  lemma OneBeat(failures: nat, beat: Beat)
    ensures Loop(failures, [Tick(beat)]) == StillRunning <==>
              beat == Acked(true) || (beat.Failed? && failures + 1 < MAX_FAILURES)
  {
    assert [Tick(beat)][1..] == [];
  }

  function Max(a: nat, b: nat): nat {
    if a >= b then a else b
  }

  /** The interval's k-th tick is due at `start` + 30k s, but the loop waits for a beat to be over
      before it looks at the next tick, and a tick missed by then comes at once. */
  function SendTime(l: Life, start: nat): nat {
    if l.flight.Some? then l.flight.value.sent else Max(start + l.beats * INTERVAL, l.free)
  }

  /** Nothing comes after what is due by now: the end of a beat, at most `call` after it was
      sent, or the sending of the next one. */
  ghost predicate Timely(l: Life, start: nat, call: nat, m: Moment) {
    && l.now <= m.at <= SendTime(l, start) + (if l.flight.Some? then call else 0)
    && match m
       case SentAt(at) => l.flight.None? && at == SendTime(l, start)
       case ArrivedAt(_) => l.flight.Some?
       case OverAt(_, acked) => l.flight.Some? && (acked ==> l.flight.value.arrived)
       case _ => true
  }

  /** The longest time from sending one beat to sending the next. */
  function Gap(call: nat): nat {
    Max(INTERVAL, call)
  }

  /** The longest silence: a beat that got through, or the setup, then two that did not, and one
      on its way. */
  function LongestSilence(setup: nat, call: nat): nat {
    Max(setup, Gap(call)) + 2 * Gap(call) + call
  }

  /** How long before sending the present beat the session was last heard of, at most. */
  function Lag(l: Life, setup: nat, gap: nat): nat {
    (if l.failures == l.beats then setup else gap)
      + (if l.failures == 0 then 0 else if l.failures == 1 then gap else 2 * gap)
  }

  ghost predicate HeardOf(l: Life, sid: string, start: nat, setup: nat, call: nat) {
    && sid in l.table
    && l.failures <= l.beats && l.failures < MAX_FAILURES
    && start + l.beats * INTERVAL <= SendTime(l, start)
    && SendTime(l, start) <= l.table[sid].lastActivity + Lag(l, setup, Gap(call))
    && l.table[sid].lastActivity <= l.now
    && (l.flight.Some? ==>
          && l.flight.value.sent <= l.now
          && (l.flight.value.arrived ==> l.flight.value.valid && l.table[sid].lastActivity >= l.flight.value.sent))
  }

  /** A client in its loop was last heard of no longer ago than the bound. */
  lemma SilenceBounded(l: Life, sid: string, start: nat, setup: nat, call: nat, m: Moment)
    requires HeardOf(l, sid, start, setup, call) && Timely(l, start, call, m)
    ensures m.at <= l.table[sid].lastActivity + LongestSilence(setup, call)
  {
  }

  lemma MomentKeepsSession(l: Life, sid: string, start: nat, setup: nat, call: nat, timeoutSecs: nat, m: Moment)
    requires HeardOf(l, sid, start, setup, call) && Timely(l, start, call, m)
    requires LongestSilence(setup, call) < (timeoutSecs + 1) * NANOS_PER_SECOND
    ensures var l' := Live(l, sid, timeoutSecs, m);
            && sid in l'.table
            && (l.running && !l'.running ==> m.OverAt? && !m.acked && l.failures == MAX_FAILURES - 1)
            && (l'.running || !m.OverAt? ==> HeardOf(l', sid, start, setup, call))
  {
    SilenceBounded(l, sid, start, setup, call, m);
    if m.OverAt? { OneBeat(l.failures, Outcome(l, m.acked)); }
  }

  /** The moments of one client's life in its loop, one after another. */
  function LiveAll(l: Life, sid: string, timeoutSecs: nat, moments: seq<Moment>): Life
    decreases |moments|
  {
    if moments == [] then l else LiveAll(Live(l, sid, timeoutSecs, moments[0]), sid, timeoutSecs, moments[1..])
  }

  ghost predicate AllTimely(l: Life, sid: string, start: nat, call: nat, timeoutSecs: nat, moments: seq<Moment>)
    decreases |moments|
  {
    moments != [] ==>
      && l.running
      && Timely(l, start, call, moments[0])
      && AllTimely(Live(l, sid, timeoutSecs, moments[0]), sid, start, call, timeoutSecs, moments[1..])
  }

  /** A client enters its loop at `start`, at most `setup` after its session was established. */
  ghost predicate Enters(l: Life, sid: string, start: nat, setup: nat) {
    && l.running && l.beats == 0 && l.failures == 0 && l.flight.None? && l.free == l.now == start
    && sid in l.table && l.table[sid].lastActivity <= start <= l.table[sid].lastActivity + setup
  }

  /** A client that enters its loop within `setup` of establishing its session, as the server does
      that. */
  lemma EstablishedEnters(w: World.World, sid: string, clientId: string, start: nat, setup: nat)
    requires World.Enabled(w, World.OnTable(World.Establish(sid, clientId)))
    requires w.now <= start <= w.now + setup
    ensures var table := World.Next(w, World.OnTable(World.Establish(sid, clientId))).table;
            Enters(Life(table, 0, 0, None, start, start, true), sid, start, setup)
  {
  }

  lemma {:induction false} HeardOfThroughout(l: Life, sid: string, start: nat, setup: nat, call: nat,
                                             timeoutSecs: nat, moments: seq<Moment>)
    requires l.running && HeardOf(l, sid, start, setup, call)
    requires AllTimely(l, sid, start, call, timeoutSecs, moments)
    requires LongestSilence(setup, call) < (timeoutSecs + 1) * NANOS_PER_SECOND
    ensures sid in LiveAll(l, sid, timeoutSecs, moments).table
    decreases |moments|
  {
    if moments != [] {
      var m := moments[0];
      var l' := Live(l, sid, timeoutSecs, m);
      MomentKeepsSession(l, sid, start, setup, call, timeoutSecs, m);
      if l'.running {
        HeardOfThroughout(l', sid, start, setup, call, timeoutSecs, moments[1..]);
      } else {
        assert moments[1..] == [];
      }
    }
  }

  /** Whatever becomes of its beats, and whenever sessions are cleaned up, the session of a client
      in its loop is there. */
  ghost predicate AlwaysKept(setup: nat, call: nat, timeoutSecs: nat) {
    forall l: Life, sid: string, start: nat, moments: seq<Moment>
      | Enters(l, sid, start, setup) && AllTimely(l, sid, start, call, timeoutSecs, moments) ::
      sid in LiveAll(l, sid, timeoutSecs, moments).table
  }

  /** Heartbeats keep every client's session alive if and only if the longest silence is within
      the timeout, for calls of any length: with gaps of at most 30 s or one call between beats, a
      beat that got through or the setup, two that did not, and one on its way. */
  lemma HeartbeatsKeepSessionIff(setup: nat, call: nat, timeoutSecs: nat)
    ensures var gap := if call >= 30_000_000_000 then call else 30_000_000_000;
            var silence := (if setup >= gap then setup else gap) + 2 * gap + call;
            AlwaysKept(setup, call, timeoutSecs) <==> silence < (timeoutSecs + 1) * 1_000_000_000
  {
    if LongestSilence(setup, call) < (timeoutSecs + 1) * NANOS_PER_SECOND {
      forall l: Life, sid: string, start: nat, moments: seq<Moment>
        | Enters(l, sid, start, setup) && AllTimely(l, sid, start, call, timeoutSecs, moments)
        ensures sid in LiveAll(l, sid, timeoutSecs, moments).table
      {
        HeardOfThroughout(l, sid, start, setup, call, timeoutSecs, moments);
      }
    } else {
      var l, sid, start, moments := BoundIsSharp(setup, call, timeoutSecs);
    }
  }

  /** With the default timeout and setup within 30 s, sessions are safe with calls of at most this
      length if and only if it is less than 75.25 s. */
  lemma DefaultsAreSafeIff(setup: nat, call: nat)
    requires setup <= INTERVAL
    ensures AlwaysKept(setup, call, DEFAULT_TIMEOUT_SECS) <==> 4 * call < 301 * NANOS_PER_SECOND
  {
    HeartbeatsKeepSessionIff(setup, call, DEFAULT_TIMEOUT_SECS);
  }

  // ---------------------------------------------------------------------------------------
  // The bound is reached

  lemma Then(l: Life, sid: string, start: nat, call: nat, timeoutSecs: nat, m: Moment, later: seq<Moment>)
    requires l.running && Timely(l, start, call, m)
    requires AllTimely(Live(l, sid, timeoutSecs, m), sid, start, call, timeoutSecs, later)
    ensures AllTimely(l, sid, start, call, timeoutSecs, [m] + later)
    ensures LiveAll(l, sid, timeoutSecs, [m] + later) == LiveAll(Live(l, sid, timeoutSecs, m), sid, timeoutSecs, later)
  {
    assert ([m] + later)[1..] == later;
  }

  /** A cleanup comes while a beat is on its way, as late as it can. */
  lemma Swept(l: Life, sid: string, start: nat, call: nat, timeoutSecs: nat) returns (moments: seq<Moment>)
    requires l.running && sid in l.table && l.flight.None? && l.now <= SendTime(l, start)
    requires SendTime(l, start) + call >= l.table[sid].lastActivity + (timeoutSecs + 1) * NANOS_PER_SECOND
    ensures AllTimely(l, sid, start, call, timeoutSecs, moments)
    ensures sid !in LiveAll(l, sid, timeoutSecs, moments).table && LiveAll(l, sid, timeoutSecs, moments).running
  {
    var sent := SentAt(SendTime(l, start));
    var sweep := CleanupAt(SendTime(l, start) + call);
    var l1 := Live(l, sid, timeoutSecs, sent);
    var l2 := Live(l1, sid, timeoutSecs, sweep);
    assert IsExpired(l1.table[sid], sweep.at, timeoutSecs) by {
      assert (sweep.at - l1.table[sid].lastActivity) / NANOS_PER_SECOND >= timeoutSecs + 1;
    }
    Then(l1, sid, start, call, timeoutSecs, sweep, []);
    Then(l, sid, start, call, timeoutSecs, sent, [sweep]);
    moments := [sent] + [sweep];
  }

  /** `n` beats are lost, each after the full length of a call. */
  lemma {:induction false} Lost(l: Life, sid: string, start: nat, call: nat, timeoutSecs: nat, n: nat) returns (moments: seq<Moment>)
    requires l.running && sid in l.table && l.flight.None? && l.now <= SendTime(l, start)
    requires l.failures + n < MAX_FAILURES
    requires SendTime(l, start) == start + l.beats * Gap(call)
    requires start + (l.beats + n) * Gap(call) + call >= l.table[sid].lastActivity + (timeoutSecs + 1) * NANOS_PER_SECOND
    ensures AllTimely(l, sid, start, call, timeoutSecs, moments)
    ensures sid !in LiveAll(l, sid, timeoutSecs, moments).table && LiveAll(l, sid, timeoutSecs, moments).running
    decreases n
  {
    if n == 0 {
      moments := Swept(l, sid, start, call, timeoutSecs);
    } else {
      var sent := SentAt(SendTime(l, start));
      var over := OverAt(SendTime(l, start) + call, false);
      var l1 := Live(l, sid, timeoutSecs, sent);
      var l2 := Live(l1, sid, timeoutSecs, over);
      GapsAddUp(l, start, call);
      OneBeat(l.failures, Failed);
      var later := Lost(l2, sid, start, call, timeoutSecs, n - 1);
      Then(l1, sid, start, call, timeoutSecs, over, later);
      Then(l, sid, start, call, timeoutSecs, sent, [over] + later);
      moments := [sent] + ([over] + later);
    }
  }

  /** Calls of full length space the beats out evenly. */
  lemma GapsAddUp(l: Life, start: nat, call: nat)
    requires start + l.beats * INTERVAL <= start + l.beats * Gap(call)
    ensures Max(start + (l.beats + 1) * INTERVAL, start + l.beats * Gap(call) + call) == start + (l.beats + 1) * Gap(call)
  {
    assert (l.beats + 1) * Gap(call) == l.beats * Gap(call) + Gap(call);
  }

  lemma BoundIsSharp(setup: nat, call: nat, timeoutSecs: nat)
    returns (l: Life, sid: string, start: nat, moments: seq<Moment>)
    requires LongestSilence(setup, call) >= (timeoutSecs + 1) * NANOS_PER_SECOND
    ensures Enters(l, sid, start, setup) && AllTimely(l, sid, start, call, timeoutSecs, moments)
    ensures sid !in LiveAll(l, sid, timeoutSecs, moments).table && LiveAll(l, sid, timeoutSecs, moments).running
  {
    sid := "s";
    var s := NewSession("c", 0);
    if setup > Gap(call) {
      start := setup;
      l := Life(map[sid := s], 0, 0, None, start, start, true);
      moments := Lost(l, sid, start, call, timeoutSecs, 2);
    } else {
      start := 0;
      l := Life(map[sid := s], 0, 0, None, 0, 0, true);
      var sent, arrived, over := SentAt(0), ArrivedAt(0), OverAt(call, true);
      var l1 := Live(l, sid, timeoutSecs, sent);
      var l2 := Live(l1, sid, timeoutSecs, arrived);
      var l3 := Live(l2, sid, timeoutSecs, over);
      GapsAddUp(l, start, call);
      OneBeat(0, Acked(true));
      var later := Lost(l3, sid, start, call, timeoutSecs, 2);
      Then(l2, sid, start, call, timeoutSecs, over, later);
      Then(l1, sid, start, call, timeoutSecs, arrived, [over] + later);
      Then(l, sid, start, call, timeoutSecs, sent, [arrived] + ([over] + later));
      moments := [sent] + ([arrived] + ([over] + later));
    }
  }
}
