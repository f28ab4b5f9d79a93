/**
 * The shutdown grace periods of the agent's shutdown chain
 * (`src/slave/utils.cpp`): each level below the containerizer gets a shorter
 * timeout than the level above it, so that a caller has time to terminate
 * what it started before its own parent kills it.
 *
 * Durations are nanoseconds. The two constants of `slave/constants.hpp`,
 * `SHUTDOWN_TIMEOUT_DELTA` and `EXECUTOR_SHUTDOWN_GRACE_PERIOD`, are
 * parameters: `delta` and `defaultGrace`.
 */
module Shutdown {

  /** Division truncating toward zero, as `Duration::operator/=` does. */
  function TruncatingDiv(a: int, b: int): (q: int)
    requires b > 0
    ensures a >= 0 ==> 0 <= q <= a
    ensures a >= 0 ==> q * b <= a < (q + 1) * b
  {
    if a >= 0 then a / b else -((-a) / b)
  }

  /** A negative timeout is replaced by the default grace period. */
  function Defaulted(shutdownTimeout: int, defaultGrace: int): (t: int)
    ensures shutdownTimeout >= 0 ==> t == shutdownTimeout
    ensures shutdownTimeout < 0 ==> t == defaultGrace
  {
    if shutdownTimeout < 0 then defaultGrace else shutdownTimeout
  }

  /**
   * `calculateShutdownTimeout` for a caller at `callerLevel` (the
   * containerizer is level 0): with room for `delta` on every level the
   * timeout loses `delta` per level above the caller, otherwise it is split
   * evenly between the levels.
   *
   * A level below 0 is not meaningful: level -1 divides by zero.
   */
  function CalculateShutdownTimeout(shutdownTimeout: int, callerLevel: nat, delta: nat, defaultGrace: int): (r: int)
    ensures var t := Defaulted(shutdownTimeout, defaultGrace);
      t >= delta * (callerLevel + 1) ==> r == t - delta * callerLevel
    ensures var t := Defaulted(shutdownTimeout, defaultGrace);
      t < delta * (callerLevel + 1) ==> r == TruncatingDiv(t, callerLevel + 1)
  {
    var t := Defaulted(shutdownTimeout, defaultGrace);
    var numLevels := callerLevel + 1;
    if t >= delta * numLevels then t - delta * callerLevel
    else TruncatingDiv(t, numLevels)
  }

  /**
   * The guarantee the source states: with a non-negative default, the
   * timeout is never negative and never longer than the (defaulted) base.
   */
  lemma ShutdownTimeoutBounds(shutdownTimeout: int, callerLevel: nat, delta: nat, defaultGrace: int)
    requires defaultGrace >= 0
    ensures 0 <= CalculateShutdownTimeout(shutdownTimeout, callerLevel, delta, defaultGrace)
      <= Defaulted(shutdownTimeout, defaultGrace)
  {
    var t := Defaulted(shutdownTimeout, defaultGrace);
    if t >= delta * (callerLevel + 1) {
      assert delta * (callerLevel + 1) == delta * callerLevel + delta;
      assert delta * callerLevel >= 0;
    }
  }

  /** The containerizer, at level 0, keeps the (defaulted) timeout. */
  lemma LevelZeroKeepsTimeout(shutdownTimeout: int, delta: nat, defaultGrace: int)
    ensures CalculateShutdownTimeout(shutdownTimeout, 0, delta, defaultGrace) == Defaulted(shutdownTimeout, defaultGrace)
  {
  }

  /** `q * m <= q * n` for `m <= n`, with `q` non-negative. */
  lemma MulMonotone(q: nat, m: nat, n: nat)
    ensures m <= n ==> q * m <= q * n
  {
  }

  /** Splitting less than `delta` per part into `n` parts leaves each part below `delta`. */
  lemma SplitBelowDelta(t: nat, n: nat, delta: nat)
    requires n > 0 && t < delta * n
    ensures TruncatingDiv(t, n) < delta
  {
    var q := TruncatingDiv(t, n);
    MulMonotone(n, delta, q);
  }

  /** Splitting into one more part gives a part no larger. */
  lemma MorePartsSmaller(t: nat, n: nat)
    requires n > 0
    ensures TruncatingDiv(t, n + 1) <= TruncatingDiv(t, n)
  {
    var q := TruncatingDiv(t, n + 1);
    var p := TruncatingDiv(t, n);
    MulMonotone(n, p + 1, q);
    MulMonotone(q, n, n + 1);
  }

  /**
   * A nested timeout is never longer than its parent's: the caller at
   * `callerLevel` gets at most what the level above it gets.
   */
  lemma NestedNotLonger(shutdownTimeout: int, callerLevel: nat, delta: nat, defaultGrace: int)
    requires callerLevel >= 1 && defaultGrace >= 0
    ensures CalculateShutdownTimeout(shutdownTimeout, callerLevel, delta, defaultGrace)
      <= CalculateShutdownTimeout(shutdownTimeout, callerLevel - 1, delta, defaultGrace)
  {
    var t := Defaulted(shutdownTimeout, defaultGrace);
    var L := callerLevel;
    assert delta * (L + 1) == delta * L + delta;
    assert delta * L == delta * (L - 1) + delta;
    if t >= delta * (L + 1) {
      // Both levels lose `delta` per level.
    } else if t >= delta * L {
      // The caller splits below `delta`; its parent keeps at least `delta`.
      SplitBelowDelta(t, L + 1, delta);
    } else {
      // Both levels split: more parts are smaller.
      MorePartsSmaller(t, L);
    }
  }

  /**
   * With room for `delta` on every level, each level gets exactly `delta`
   * less than its parent: the time a caller has to terminate what it
   * started.
   */
  lemma DeltaPerLevel(shutdownTimeout: int, callerLevel: nat, delta: nat, defaultGrace: int)
    requires callerLevel >= 1
    requires Defaulted(shutdownTimeout, defaultGrace) >= delta * (callerLevel + 1)
    ensures CalculateShutdownTimeout(shutdownTimeout, callerLevel - 1, delta, defaultGrace)
      - CalculateShutdownTimeout(shutdownTimeout, callerLevel, delta, defaultGrace) == delta
  {
    assert delta * (callerLevel + 1) == delta * callerLevel + delta;
    assert delta * callerLevel == delta * (callerLevel - 1) + delta;
  }

  /** `getExecutorShutdownTimeout`: an executor is level 1. */
  function ExecutorShutdownTimeout(baseShutdownTimeout: int, delta: nat, defaultGrace: int): (r: int)
    ensures defaultGrace >= 0 ==> 0 <= r <= Defaulted(baseShutdownTimeout, defaultGrace)
  {
    var r := CalculateShutdownTimeout(baseShutdownTimeout, 1, delta, defaultGrace);
    if defaultGrace >= 0 then
      ShutdownTimeoutBounds(baseShutdownTimeout, 1, delta, defaultGrace);
      r
    else r
  }

  /** `getCommandExecutorShutdownTimeout`: the command executor is level 2. */
  function CommandExecutorShutdownTimeout(baseShutdownTimeout: int, delta: nat, defaultGrace: int): (r: int)
    ensures defaultGrace >= 0 ==> 0 <= r <= ExecutorShutdownTimeout(baseShutdownTimeout, delta, defaultGrace)
  {
    var r := CalculateShutdownTimeout(baseShutdownTimeout, 2, delta, defaultGrace);
    if defaultGrace >= 0 then
      ShutdownTimeoutBounds(baseShutdownTimeout, 2, delta, defaultGrace);
      NestedNotLonger(baseShutdownTimeout, 2, delta, defaultGrace);
      r
    else r
  }
}
