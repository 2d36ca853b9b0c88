/** The two backoff schedules: the client's reconnect delay and the vpcd client's retry wait. */
module Backoff {
  import opened Prelude

  const NANOS: nat := 1_000_000_000
  /** A duration holds 64-bit seconds and the nanoseconds below one second. */
  const DURATION_MAX: nat := (U64_MODULUS - 1) * NANOS + (NANOS - 1)

  type Duration = d: nat | d <= DURATION_MAX

  function Pow2(k: nat): nat {
    if k == 0 then 1 else 2 * Pow2(k - 1)
  }

  // ---------------------------------------------------------------------------------------
  // Exponential reconnect delay

  /** The delay in force after `k` calls, were durations unbounded. */
  function Current(initial: nat, max: nat, k: nat): nat {
    if k == 0 then initial else Min(2 * Current(initial, max, k - 1), max)
  }

  /** The k-th delay since the start is the initial one for k = 0 and afterwards the initial
      delay doubled k times, cut off at the maximum. */
  lemma {:induction false} DelayClosedForm(initial: nat, max: nat, k: nat)
    ensures Current(initial, max, k) == if k == 0 then initial else Min(initial * Pow2(k), max)
  {
    if k > 1 {
      DelayClosedForm(initial, max, k - 1);
      assert initial * Pow2(k) == 2 * (initial * Pow2(k - 1));
    }
  }

  /** Each delay is twice the one before, unless that exceeds the maximum. */
  lemma DelayDoubles(initial: nat, max: nat, k: nat)
    ensures Current(initial, max, 0) == initial
    ensures var delay, next := Current(initial, max, k), Current(initial, max, k + 1);
            next == (if delay + delay <= max then delay + delay else max)
    ensures Pow2(0) == 1 && Pow2(k + 1) == Pow2(k) + Pow2(k)
  {
  }

  /** Doubling overflows at none of the calls. */
  ghost predicate NeverOverflows(initial: nat, max: nat) {
    forall k: nat :: 2 * Current(initial, max, k) <= DURATION_MAX
  }

  lemma {:induction false} Pow2Exceeds(k: nat)
    ensures Pow2(k) > k
  {
    if k > 0 { Pow2Exceeds(k - 1); }
  }

  /** However often it is called, the delay can be doubled without overflow if and only if the
      initial delay can, and the maximum can unless the initial delay is zero. */
  lemma NeverOverflowsIff(initial: Duration, max: Duration)
    ensures NeverOverflows(initial, max) <==>
              2 * initial <= DURATION_MAX && (initial == 0 || 2 * max <= DURATION_MAX)
  {
    if 2 * initial <= DURATION_MAX && (initial == 0 || 2 * max <= DURATION_MAX) {
      forall k: nat ensures 2 * Current(initial, max, k) <= DURATION_MAX {
        DelayClosedForm(initial, max, k);
      }
    }
    if NeverOverflows(initial, max) {
      assert Current(initial, max, 0) == initial;
      if initial > 0 {
        // Late enough, the delay has reached the maximum.
        var k := max + 1;
        DelayClosedForm(initial, max, k);
        Pow2Exceeds(k);
        assert initial * Pow2(k) >= Pow2(k) by { MultipleAtLeast(initial, Pow2(k)); }
        assert Current(initial, max, k) == max;
      }
    }
  }

  lemma MultipleAtLeast(n: nat, x: nat)
    requires n >= 1
    ensures n * x >= x
  {
  }

  class ReconnectConfig {
    const initialDelay: Duration
    const maxDelay: Duration
    const enabled: bool
    var currentDelay: Duration
    /** Calls of NextDelay since creation or the last reset. */
    ghost var calls: nat

    ghost predicate Valid()
      reads this
    {
      currentDelay == Current(initialDelay, maxDelay, calls)
    }

    constructor (initialDelay: Duration, maxDelay: Duration, enabled: bool)
      ensures Valid() && calls == 0
      ensures this.initialDelay == initialDelay && this.maxDelay == maxDelay && this.enabled == enabled
    {
      this.initialDelay := initialDelay;
      this.maxDelay := maxDelay;
      this.enabled := enabled;
      this.currentDelay := initialDelay;
      this.calls := 0;
    }

    /** The delay to wait now; None when doubling it for the next time overflows, which panics. */
    method NextDelay() returns (delay: Option<Duration>)
      requires Valid()
      modifies this`currentDelay, this`calls
      ensures Valid()
      ensures delay.Some? <==> 2 * Current(initialDelay, maxDelay, old(calls)) <= DURATION_MAX
      ensures delay.Some? ==> calls == old(calls) + 1
      ensures delay.Some? ==> delay.value == if old(calls) == 0 then initialDelay
                                             else Min(initialDelay * Pow2(old(calls)), maxDelay)
      ensures delay.None? ==> calls == old(calls)
    {
      DelayClosedForm(initialDelay, maxDelay, calls);
      if 2 * currentDelay > DURATION_MAX {
        return None;
      }
      delay := Some(currentDelay);
      currentDelay := if currentDelay * 2 <= maxDelay then currentDelay * 2 else maxDelay;
      calls := calls + 1;
    }

    method Reset()
      requires Valid()
      modifies this`currentDelay, this`calls
      ensures Valid() && calls == 0
    {
      currentDelay := initialDelay;
      calls := 0;
    }
  }

  /** How one connection lifecycle and the wait after it end. */
  datatype Lifecycle =
    | Finished
    | Lost(shutdownDuringWait: bool, shutdownAfterWait: bool)

  /** How many waits the main loop gets through when nothing but shutdown stops it. */
  function Rounds(lifecycles: seq<Lifecycle>): nat {
    if lifecycles == [] || lifecycles[0].Finished? then 0
    else if lifecycles[0].shutdownDuringWait || lifecycles[0].shutdownAfterWait then 1
    else 1 + Rounds(lifecycles[1..])
  }

  /** The loop waits once for each lost connection, until a connection finishes cleanly, a shutdown
      comes during a wait or is found after it, or there are no more connections. */
  lemma {:induction false} RoundsAreLosses(lifecycles: seq<Lifecycle>)
    ensures var n := Rounds(lifecycles);
            && n <= |lifecycles|
            && (forall i :: 0 <= i < n ==> lifecycles[i].Lost?)
            && (forall i :: 0 <= i < n - 1 ==> !lifecycles[i].shutdownDuringWait && !lifecycles[i].shutdownAfterWait)
            && (n < |lifecycles| ==>
                  lifecycles[n].Finished?
                  || (n > 0 && (lifecycles[n - 1].shutdownDuringWait || lifecycles[n - 1].shutdownAfterWait)))
  {
    if lifecycles != [] && lifecycles[0].Lost? && !lifecycles[0].shutdownDuringWait && !lifecycles[0].shutdownAfterWait {
      var later := lifecycles[1..];
      RoundsAreLosses(later);
      assert forall i :: 0 < i < |lifecycles| ==> lifecycles[i] == later[i - 1];
    }
  }

  /** The client's main loop, over the lifecycles it goes through. It resets the delay after
      every wait, so it never waits longer than the initial delay. `panicked` says that a delay
      could not be doubled. */
  method MainLoop(config: ReconnectConfig, lifecycles: seq<Lifecycle>) returns (waits: seq<Duration>, panicked: bool)
    requires config.Valid() && config.calls == 0
    modifies config
    ensures forall i :: 0 <= i < |waits| ==> waits[i] == config.initialDelay
    ensures config.enabled && 2 * config.initialDelay <= DURATION_MAX ==> !panicked && |waits| == Rounds(lifecycles)
    ensures config.enabled && 2 * config.initialDelay > DURATION_MAX ==>
              waits == [] && (panicked <==> lifecycles != [] && lifecycles[0].Lost?)
    ensures !config.enabled ==> waits == [] && !panicked
  {
    waits, panicked := [], false;
    var i := 0;
    while i < |lifecycles|
      invariant 0 <= i <= |lifecycles| && |waits| == i
      invariant config.Valid() && config.calls == 0
      invariant forall j :: 0 <= j < |waits| ==> waits[j] == config.initialDelay
      invariant !panicked && (i > 0 ==> config.enabled && 2 * config.initialDelay <= DURATION_MAX)
      invariant Rounds(lifecycles) == i + Rounds(lifecycles[i..])
    {
      if lifecycles[i].Finished? || !config.enabled {
        return;
      }
      var delay := config.NextDelay();
      if delay.None? {
        return waits, true;
      }
      waits := waits + [delay.value];
      if lifecycles[i].shutdownDuringWait || lifecycles[i].shutdownAfterWait {
        return;
      }
      config.Reset();
      i := i + 1;
    }
  }

  // ---------------------------------------------------------------------------------------
  // Linear retry wait of a vpcd client

  const MAX_WAIT_SECS: nat := 5
  const U32_MODULUS: nat := 0x1_0000_0000

  /** The count after one more error. */
  function Counted(errors: nat): nat {
    (errors + 1) % U32_MODULUS
  }

  /** The waits in milliseconds over connection attempts, true for a normal disconnect, when
      `errors` errors in a row came before. */
  function Waits(errors: nat, attempts: seq<bool>): seq<nat>
    decreases |attempts|
  {
    if attempts == [] then []
    else if attempts[0] then [100] + Waits(0, attempts[1..])
    else
      var errors' := Counted(errors);
      [1000 * Min(errors', MAX_WAIT_SECS)] + Waits(errors', attempts[1..])
  }

  function Sum(s: seq<nat>): nat {
    if s == [] then 0 else s[0] + Sum(s[1..])
  }

  function Failures(k: nat): seq<bool> {
    seq(k, _ => false)
  }

  /** Seconds waited in all after `k` errors in a row, were the counter unbounded. */
  function TotalSecs(k: nat): nat {
    if k <= MAX_WAIT_SECS then k * (k + 1) / 2 else 5 * k - 10
  }

  lemma OneMoreFailure(errors: nat, k: nat)
    requires k >= 1
    ensures Sum(Waits(errors, Failures(k)))
              == 1000 * Min(Counted(errors), MAX_WAIT_SECS) + Sum(Waits(Counted(errors), Failures(k - 1)))
  {
    var wait := 1000 * Min(Counted(errors), MAX_WAIT_SECS);
    var later := Waits(Counted(errors), Failures(k - 1));
    assert Failures(k)[1..] == Failures(k - 1);
    assert Waits(errors, Failures(k)) == [wait] + later;
    assert ([wait] + later)[1..] == later;
  }

  lemma {:induction false} WaitsFrom(errors: nat, k: nat)
    requires errors + k < U32_MODULUS
    ensures Sum(Waits(errors, Failures(k))) == 1000 * (TotalSecs(errors + k) - TotalSecs(errors))
    decreases k
  {
    if k > 0 {
      assert Counted(errors) == errors + 1;
      hide Counted, Waits, Sum, TotalSecs;
      OneMoreFailure(errors, k);
      WaitsFrom(errors + 1, k - 1);
      OneMoreSecs(errors);
      assert errors + 1 + (k - 1) == errors + k;
    }
  }

  lemma OneMoreSecs(k: nat)
    ensures TotalSecs(k + 1) == TotalSecs(k) + Min(k + 1, MAX_WAIT_SECS)
  {
  }

  /** A smaller error count never makes for longer waits. */
  lemma {:induction false} WaitsAtMost(errors: nat, counted: nat, k: nat)
    requires errors <= counted
    ensures Sum(Waits(errors, Failures(k))) <= 1000 * (TotalSecs(counted + k) - TotalSecs(counted))
    decreases k
  {
    if k > 0 {
      hide Waits, Sum, TotalSecs;
      OneMoreFailure(errors, k);
      WaitsAtMost(Counted(errors), counted + 1, k - 1);
      OneMoreSecs(counted);
      assert counted + 1 + (k - 1) == counted + k;
    }
  }

  /** When the counter wraps, one wait is skipped. */
  lemma {:induction false} WaitsShort(errors: nat, k: nat)
    requires errors < U32_MODULUS <= errors + k
    ensures Sum(Waits(errors, Failures(k))) < 1000 * (TotalSecs(errors + k) - TotalSecs(errors))
    decreases k
  {
    hide Waits, Sum, TotalSecs;
    OneMoreFailure(errors, k);
    OneMoreSecs(errors);
    assert errors + 1 + (k - 1) == errors + k;
    if errors + 1 < U32_MODULUS {
      WaitsShort(errors + 1, k - 1);
    } else {
      WaitsAtMost(Counted(errors), errors + 1, k - 1);
    }
  }

  /** After any history that ended in a normal disconnect, k errors in a row cost k(k+1)/2
      seconds for k up to 5 and 5k - 10 beyond, exactly until the 32-bit counter wraps. */
  lemma RetryWaitsClosedFormIff(k: nat)
    ensures Sum(Waits(0, Failures(k))) == 1000 * (if k <= 5 then k * (k + 1) / 2 else 5 * k - 10) <==> k < U32_MODULUS
  {
    if k < U32_MODULUS { WaitsFrom(0, k); } else { WaitsShort(0, k); }
  }

  /** One wait per attempt. After a connection it is 100 ms; after the r-th error in a row it is r
      seconds, but at most 5. (`errors` came before the first attempt.) */
  lemma {:induction false} WaitAfterRun(errors: nat, attempts: seq<bool>, n: nat, r: nat)
    requires n < |attempts| && r <= n + 1
    requires forall i :: n - r < i <= n ==> !attempts[i]
    requires r <= n ==> attempts[n - r]
    ensures |Waits(errors, attempts)| == |attempts|
    ensures r == 0 ==> Waits(errors, attempts)[n] == 100
    ensures var run := if r == n + 1 then errors + r else r;
            r > 0 && run < U32_MODULUS ==> Waits(errors, attempts)[n] == if run <= 5 then 1000 * run else 5000
    decreases n
  {
    var errors' := if attempts[0] then 0 else Counted(errors);
    OneWaitEach(errors, attempts);
    if n > 0 {
      var later := attempts[1..];
      assert later[n - 1] == attempts[n];
      WaitAfterRun(errors', later, n - 1, if r == n + 1 then r - 1 else r);
      assert Waits(errors, attempts)[n] == Waits(errors', later)[n - 1];
    }
  }

  lemma {:induction false} OneWaitEach(errors: nat, attempts: seq<bool>)
    ensures |Waits(errors, attempts)| == |attempts|
    decreases |attempts|
  {
    if attempts != [] { OneWaitEach(if attempts[0] then 0 else Counted(errors), attempts[1..]); }
  }
}
