/**
 * The tear gas canister's landing tracker (TearGasTracker.run): an age gate,
 * a counter of consecutive slow velocity samples, the landing test, and the
 * failsafe that forces the cloud once the canister is older than 60 ticks.
 */
module TearGas {
  import opened Common

  const ACTIVATION_TICKS_THRESHOLD: int := 10
  const PROC_DELAY_TICKS: int := 2
  const FAILSAFE_DESPAWN_TICKS: int := 60

  /**
   * What one tick reads from the canister entity: validity, age in ticks,
   * whether its squared speed is below the stationary threshold (0.005),
   * ground and water contact, and its location. Both velocity reads of one
   * tick see the same velocity, so one `slow` sample serves both.
   */
  datatype TearGasSample = TearGasSample(valid: bool, ticksLived: int, slow: bool,
                                         onGround: bool, inWater: bool, location: Location)

  /** The tracker's fields: the stationary counter, and whether the task is cancelled. */
  datatype TrackerState = TrackerState(ticksStationary: int, cancelled: bool)

  const INITIAL := TrackerState(0, false)

  /** One tick: the new state and the number of clouds spawned (each at the canister). */
  datatype TearGasOutcome = TearGasOutcome(next: TrackerState, clouds: nat)

  /** Started from the initial state, the counter is 0 or 1 until the task is cancelled. */
  predicate Reachable(st: TrackerState)
  {
    st.cancelled || 0 <= st.ticksStationary < PROC_DELAY_TICKS
  }

  /**
   * One tick of TearGasTracker.run as the scheduler drives it (a cancelled
   * task is not run again). The landing test and the failsafe are separate
   * tests, so a landing on a tick past the failsafe age spawns two clouds.
   */
  function TearGasStep(st: TrackerState, s: TearGasSample): (o: TearGasOutcome)
    ensures st.cancelled ==> o == TearGasOutcome(st, 0)
    ensures !st.cancelled && !s.valid ==> o == TearGasOutcome(st.(cancelled := true), 0)
    ensures !st.cancelled && s.valid && s.ticksLived < ACTIVATION_TICKS_THRESHOLD ==> o == TearGasOutcome(st, 0)
    ensures !st.cancelled && s.valid && s.ticksLived >= ACTIVATION_TICKS_THRESHOLD ==>
              o.next.ticksStationary == (if s.slow then st.ticksStationary + 1 else 0)
    ensures o.clouds <= 2
    ensures o.clouds > 0 <==> !st.cancelled && o.next.cancelled && s.valid
    ensures !st.cancelled && s.valid && s.ticksLived > FAILSAFE_DESPAWN_TICKS ==> o.clouds >= 1 && o.next.cancelled
    ensures Reachable(st) ==> Reachable(o.next)
    ensures o.clouds == 2 <==> !st.cancelled && s.valid && s.ticksLived > FAILSAFE_DESPAWN_TICKS
                               && (if s.slow then st.ticksStationary + 1 else 0) >= PROC_DELAY_TICKS
                               && (s.onGround || s.inWater || s.slow)
  {
    if st.cancelled then TearGasOutcome(st, 0)
    else if !s.valid then TearGasOutcome(st.(cancelled := true), 0)
    else if s.ticksLived < ACTIVATION_TICKS_THRESHOLD then TearGasOutcome(st, 0)
    else
      var count := if s.slow then st.ticksStationary + 1 else 0;
      var landed := count >= PROC_DELAY_TICKS && (s.onGround || s.inWater || s.slow);
      var failsafe := s.ticksLived > FAILSAFE_DESPAWN_TICKS;
      TearGasOutcome(TrackerState(count, landed || failsafe),
                     (if landed then 1 else 0) + (if failsafe then 1 else 0))
  }

  /**
   * The landing test repeats the slow test that has just raised the counter,
   * so from a reachable state a post-gate tick lands exactly when it is the
   * second slow sample in a row.
   */
  lemma LandsOnSecondSlowSample(st: TrackerState, s: TearGasSample)
    requires Reachable(st) && !st.cancelled
    requires s.valid && ACTIVATION_TICKS_THRESHOLD <= s.ticksLived <= FAILSAFE_DESPAWN_TICKS
    ensures TearGasStep(st, s).clouds == 1 <==> s.slow && st.ticksStationary == 1
    ensures TearGasStep(st, s).clouds == 0 <==> !(s.slow && st.ticksStationary == 1)
  {
  }

  /** A sequence of ticks: the final state and the number of clouds in all. */
  function TearGasRun(st: TrackerState, samples: seq<TearGasSample>): TearGasOutcome
    decreases |samples|
  {
    if samples == [] then TearGasOutcome(st, 0)
    else
      var first := TearGasStep(st, samples[0]);
      var rest := TearGasRun(first.next, samples[1..]);
      TearGasOutcome(rest.next, first.clouds + rest.clouds)
  }

  /** Running two sequences of ticks one after the other. */
  lemma {:induction false} RunAppend(st: TrackerState, a: seq<TearGasSample>, b: seq<TearGasSample>)
    ensures TearGasRun(st, a + b).next == TearGasRun(TearGasRun(st, a).next, b).next
    ensures TearGasRun(st, a + b).clouds == TearGasRun(st, a).clouds + TearGasRun(TearGasRun(st, a).next, b).clouds
    decreases |a|
  {
    if a == [] {
      assert a + b == b;
    } else {
      assert (a + b)[1..] == a[1..] + b;
      RunAppend(TearGasStep(st, a[0]).next, a[1..], b);
    }
  }

  /** Once cancelled, the tracker stays as it is and spawns nothing. */
  lemma {:induction false} CancelledIsTerminal(st: TrackerState, samples: seq<TearGasSample>)
    requires st.cancelled
    ensures TearGasRun(st, samples) == TearGasOutcome(st, 0)
    decreases |samples|
  {
    if samples != [] {
      CancelledIsTerminal(st, samples[1..]);
    }
  }

  /** Ticks before the age gate change nothing. */
  lemma {:induction false} EarlyTicksIgnored(st: TrackerState, samples: seq<TearGasSample>)
    requires forall i :: 0 <= i < |samples| ==> samples[i].valid && samples[i].ticksLived < ACTIVATION_TICKS_THRESHOLD
    ensures TearGasRun(st, samples) == TearGasOutcome(st, 0)
    decreases |samples|
  {
    if samples != [] {
      EarlyTicksIgnored(st, samples[1..]);
    }
  }

  /**
   * The failsafe deadline: if the canister stays valid and the last tick
   * sees it older than 60 ticks, a cloud has been spawned and the task has
   * stopped by then.
   */
  lemma {:induction false} FailsafeDeadline(st: TrackerState, samples: seq<TearGasSample>)
    requires !st.cancelled
    requires forall i :: 0 <= i < |samples| ==> samples[i].valid
    requires samples != [] && samples[|samples| - 1].ticksLived > FAILSAFE_DESPAWN_TICKS
    ensures TearGasRun(st, samples).next.cancelled
    ensures TearGasRun(st, samples).clouds >= 1
    decreases |samples|
  {
    var first := TearGasStep(st, samples[0]);
    if |samples| > 1 {
      if first.next.cancelled {
        CancelledIsTerminal(first.next, samples[1..]);
      } else {
        FailsafeDeadline(first.next, samples[1..]);
      }
    }
  }

  /** An invalidated canister never produces a cloud, whatever comes after. */
  lemma InvalidationSuppressesCloud(st: TrackerState, s: TearGasSample, rest: seq<TearGasSample>)
    requires !s.valid
    ensures TearGasRun(st, [s] + rest).clouds == 0
    ensures TearGasRun(st, [s] + rest).next.cancelled
  {
    assert ([s] + rest)[1..] == rest;
    CancelledIsTerminal(TearGasStep(st, s).next, rest);
  }

  /**
   * The sampling scenario: a canister that is ignored while younger than 10
   * ticks, and then reads slow at ages 10 and 11, spawns one cloud, at the
   * second of those ticks, and the task ends.
   */
  lemma {:induction false} LandingScenario(early: seq<TearGasSample>, s10: TearGasSample, s11: TearGasSample)
    requires forall i :: 0 <= i < |early| ==> early[i].valid && early[i].ticksLived < ACTIVATION_TICKS_THRESHOLD
    requires s10.valid && s10.ticksLived == 10 && s10.slow
    requires s11.valid && s11.ticksLived == 11 && s11.slow
    ensures TearGasRun(INITIAL, early + [s10]) == TearGasOutcome(TrackerState(1, false), 0)
    ensures TearGasRun(INITIAL, early + [s10, s11]) == TearGasOutcome(TrackerState(2, true), 1)
  {
    EarlyTicksIgnored(INITIAL, early);
    RunAppend(INITIAL, early, [s10]);
    RunAppend(INITIAL, early, [s10, s11]);
    var one := TrackerState(1, false);
    assert [s10, s11][1..] == [s11];
    assert TearGasRun(one, [s11]) == TearGasOutcome(TrackerState(2, true), 1);
  }

  /** Ticks that never read slow, up to the failsafe age, spawn nothing and keep the counter at zero. */
  lemma {:induction false} NeverSlowBeforeDeadline(samples: seq<TearGasSample>)
    requires forall i :: 0 <= i < |samples| ==> samples[i].valid && !samples[i].slow
                                                && samples[i].ticksLived <= FAILSAFE_DESPAWN_TICKS
    ensures TearGasRun(INITIAL, samples) == TearGasOutcome(INITIAL, 0)
    decreases |samples|
  {
    if samples != [] {
      NeverSlowBeforeDeadline(samples[1..]);
    }
  }

  /**
   * The failsafe scenario: a canister that never reads slow spawns exactly
   * one cloud, on the first tick on which it is older than 60 ticks.
   */
  lemma FailsafeScenario(before: seq<TearGasSample>, last: TearGasSample)
    requires forall i :: 0 <= i < |before| ==> before[i].valid && !before[i].slow
                                               && before[i].ticksLived <= FAILSAFE_DESPAWN_TICKS
    requires last.valid && !last.slow && last.ticksLived == FAILSAFE_DESPAWN_TICKS + 1
    ensures TearGasRun(INITIAL, before).clouds == 0
    ensures TearGasRun(INITIAL, before + [last]) == TearGasOutcome(TrackerState(0, true), 1)
  {
    NeverSlowBeforeDeadline(before);
    RunAppend(INITIAL, before, [last]);
  }

  /**
   * As written, a landing on the first tick past the failsafe age spawns a
   * second cloud in the same tick: slow readings at ages 60 and 61.
   */
  lemma DoubleCloudAtFailsafeAge(before: seq<TearGasSample>, loc: Location)
    requires forall i :: 0 <= i < |before| ==> before[i].valid && !before[i].slow
                                               && before[i].ticksLived < FAILSAFE_DESPAWN_TICKS
    ensures TearGasRun(INITIAL, before + [TearGasSample(true, 60, true, false, false, loc),
                                          TearGasSample(true, 61, true, false, false, loc)]).clouds == 2
  {
    var s60 := TearGasSample(true, 60, true, false, false, loc);
    var s61 := TearGasSample(true, 61, true, false, false, loc);
    NeverSlowBeforeDeadline(before);
    RunAppend(INITIAL, before, [s60, s61]);
    assert [s60, s61][1..] == [s61];
    assert TearGasRun(TrackerState(1, false), [s61]).clouds == 2;
  }

  // ---------------------------------------------------------------------
  // The intended tracker, at most one cloud per canister: the failsafe only
  // acts when the same tick has not already resolved the tracker.
  // ---------------------------------------------------------------------

  function TearGasStepResolved(st: TrackerState, s: TearGasSample): (o: TearGasOutcome)
    ensures o.clouds <= 1
    ensures o.clouds == 1 <==> !st.cancelled && o.next.cancelled && s.valid
    ensures st.cancelled ==> o == TearGasOutcome(st, 0)
    ensures !st.cancelled && s.valid && s.ticksLived > FAILSAFE_DESPAWN_TICKS ==> o.clouds == 1 && o.next.cancelled
    ensures o.next.cancelled == TearGasStep(st, s).next.cancelled
    ensures o.clouds == (if TearGasStep(st, s).clouds > 0 then 1 else 0)
  {
    var o := TearGasStep(st, s);
    TearGasOutcome(o.next, if o.clouds > 0 then 1 else 0)
  }

  function TearGasRunResolved(st: TrackerState, samples: seq<TearGasSample>): TearGasOutcome
    decreases |samples|
  {
    if samples == [] then TearGasOutcome(st, 0)
    else
      var first := TearGasStepResolved(st, samples[0]);
      var rest := TearGasRunResolved(first.next, samples[1..]);
      TearGasOutcome(rest.next, first.clouds + rest.clouds)
  }

  /**
   * With the failsafe limited to unresolved trackers, a canister gives at
   * most one cloud, and one exactly when the tracker ends without having
   * been invalidated.
   */
  lemma {:induction false} ResolvedAtMostOnce(st: TrackerState, samples: seq<TearGasSample>)
    ensures TearGasRunResolved(st, samples).clouds <= 1
    ensures st.cancelled ==> TearGasRunResolved(st, samples) == TearGasOutcome(st, 0)
    ensures !st.cancelled && TearGasRunResolved(st, samples).next.cancelled
            && (forall i :: 0 <= i < |samples| ==> samples[i].valid)
            ==> TearGasRunResolved(st, samples).clouds == 1
    decreases |samples|
  {
    if samples != [] {
      ResolvedAtMostOnce(TearGasStepResolved(st, samples[0]).next, samples[1..]);
    }
  }

  class TearGasTracker {
    var ticksStationary: int
    var cancelled: bool

    function State(): TrackerState
      reads this
    {
      TrackerState(ticksStationary, cancelled)
    }

    constructor ()
      ensures State() == INITIAL
    {
      ticksStationary := 0;
      cancelled := false;
    }

    /**
     * One scheduled run of the tracker: the new state follows TearGasStep,
     * every cloud is spawned at the canister's location, and the canister is
     * removed whenever a cloud is spawned.
     */
    method Run(s: TearGasSample) returns (clouds: seq<Location>, removed: bool)
      modifies this
      ensures TearGasOutcome(State(), |clouds|) == TearGasStep(old(State()), s)
      ensures forall i :: 0 <= i < |clouds| ==> clouds[i] == s.location
      ensures removed <==> |clouds| > 0
    {
      clouds, removed := [], false;
      if cancelled {
        return;
      }
      if !s.valid {
        cancelled := true;
        return;
      }
      if s.ticksLived < ACTIVATION_TICKS_THRESHOLD {
        return;
      }
      if s.slow {
        ticksStationary := ticksStationary + 1;
      } else {
        ticksStationary := 0;
      }
      if ticksStationary >= PROC_DELAY_TICKS {
        if s.onGround || s.inWater || s.slow {
          clouds := clouds + [s.location];
          removed := true;
          cancelled := true;
        }
      }
      if s.ticksLived > FAILSAFE_DESPAWN_TICKS {
        clouds := clouds + [s.location];
        removed := true;
        cancelled := true;
      }
    }
  }
}
