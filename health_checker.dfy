/**
 * Health checks built on the general checker (`src/checks/health_checker.cpp`):
 * the translation of a `HealthCheck` into a `CheckInfo`, the verdict on a
 * check's status, the counters that decide which `TaskHealthStatus` updates
 * are sent, and the validation of a `HealthCheck`.
 *
 * This file is built against a later revision of the check messages than
 * `src/checks/checker.cpp`: its check types include TCP.
 */
module HealthChecks {
  import opened Wrappers
  import Text
  import Checks

  /** The check types, shared by `HealthCheck` and by this revision's `CheckInfo`. */
  datatype CheckType = COMMAND | HTTP | TCP | UNKNOWN

  datatype HttpCheckInfo = HttpCheckInfo(scheme: Option<string>, port: nat, path: Option<string>)

  datatype TcpCheckInfo = TcpCheckInfo(port: nat)

  /** A `HealthCheck`; an optional field that is not set is `None`. */
  datatype HealthCheck = HealthCheck(
    checkType: Option<CheckType>,
    command: Option<Checks.CommandInfo>,
    http: Option<HttpCheckInfo>,
    tcp: Option<TcpCheckInfo>,
    delaySeconds: Option<real>,
    intervalSeconds: Option<real>,
    timeoutSeconds: Option<real>,
    gracePeriodSeconds: Option<real>,
    consecutiveFailures: Option<nat>)

  /** The values the unset optional fields of a `HealthCheck` read as. */
  datatype Defaults = Defaults(delay: real, interval: real, timeout: real, gracePeriod: real, consecutiveFailures: nat)

  /** A `CheckInfo` of this revision. */
  datatype CheckInfo = CheckInfo(
    checkType: Option<CheckType>,
    command: Option<Checks.CommandInfo>,
    http: Option<Checks.HttpCheck>,
    tcp: Option<TcpCheckInfo>,
    delaySeconds: Option<real>,
    intervalSeconds: Option<real>,
    timeoutSeconds: Option<real>)

  /** The type a `HealthCheck` reads as; an unset enum reads as its first value, UNKNOWN. */
  function TypeOf(h: HealthCheck): CheckType
  {
    if h.checkType.Some? then h.checkType.value else UNKNOWN
  }

  /** An unset `CommandInfo` reads as one with no value whose `shell` is true. */
  const DefaultCommand: Checks.CommandInfo := Checks.CommandInfo(true, None)

  /**
   * `toCheckInfo`: the same type, the durations as the health check reads
   * them, and the type's own payload (command, HTTP port and path, or TCP
   * port) and nothing else.
   */
  function ToCheckInfo(h: HealthCheck, d: Defaults): (c: CheckInfo)
    ensures c.checkType == Some(TypeOf(h))
    ensures c.delaySeconds == Some(Checks.Seconds(h.delaySeconds, d.delay))
    ensures c.intervalSeconds == Some(Checks.Seconds(h.intervalSeconds, d.interval))
    ensures c.timeoutSeconds == Some(Checks.Seconds(h.timeoutSeconds, d.timeout))
    ensures c.command.Some? <==> TypeOf(h) == COMMAND
    ensures c.http.Some? <==> TypeOf(h) == HTTP
    ensures c.tcp.Some? <==> TypeOf(h) == TCP
  {
    var base := CheckInfo(
      Some(TypeOf(h)), None, None, None,
      Some(Checks.Seconds(h.delaySeconds, d.delay)),
      Some(Checks.Seconds(h.intervalSeconds, d.interval)),
      Some(Checks.Seconds(h.timeoutSeconds, d.timeout)));
    match TypeOf(h)
    case COMMAND =>
      base.(command := Some(if h.command.Some? then h.command.value else DefaultCommand))
    case HTTP =>
      base.(http := Some(if h.http.Some? then Checks.HttpCheck(h.http.value.port, h.http.value.path)
                         else Checks.HttpCheck(0, None)))
    case TCP =>
      base.(tcp := Some(TcpCheckInfo(if h.tcp.Some? then h.tcp.value.port else 0)))
    case UNKNOWN => base
  }

  /** A `TcpCheckStatusInfo`. */
  datatype TcpStatus = TcpStatus(succeeded: Option<bool>)

  /** A `CheckStatusInfo` of this revision; an optional field that is not set is `None`. */
  datatype CheckStatusInfo = CheckStatusInfo(
    checkType: Option<CheckType>,
    command: Option<Checks.CommandStatus>,
    http: Option<Checks.HttpStatus>,
    tcp: Option<TcpStatus>)

  /** `result.command().exit_code()`: 0 when unset. */
  function ExitCode(s: CheckStatusInfo): int
  {
    if s.command.Some? && s.command.value.exitCode.Some? then s.command.value.exitCode.value else 0
  }

  /** `result.http().status_code()`: 0 when unset. */
  function StatusCode(s: CheckStatusInfo): Checks.uint32
  {
    if s.http.Some? && s.http.value.statusCode.Some? then s.http.value.statusCode.value else 0
  }

  /** `result.tcp().succeeded()`: false when unset. */
  function Succeeded(s: CheckStatusInfo): bool
  {
    s.tcp.Some? && s.tcp.value.succeeded == Some(true)
  }

  /** The conversion of an unsigned 32-bit status code to a signed `int`. */
  function ToInt32(x: Checks.uint32): (r: int)
    ensures -0x8000_0000 <= r < 0x8000_0000
    ensures x < 0x8000_0000 ==> r == x as int
    ensures x >= 0x8000_0000 ==> r < 0
  {
    if x < 0x8000_0000 then x as int else x as int - 0x1_0000_0000
  }

  /** Why a status counts as unhealthy. */
  datatype Unhealthiness = NonZeroExit(exitCode: int) | UnexpectedStatusCode(statusCode: int) | TcpFailed

  /**
   * `interpretCheckStatusInfo`: a COMMAND check passes iff it exited with 0,
   * an HTTP check iff its status code is in [200, 400), a TCP check iff it
   * connected; a status of an UNKNOWN (or unset) type always passes.
   */
  function InterpretCheckStatusInfo(s: CheckStatusInfo): (r: Option<Unhealthiness>)
    ensures s.checkType == Some(COMMAND) ==> (r == None <==> ExitCode(s) == 0)
    ensures s.checkType == Some(HTTP) ==> (r == None <==> 200 <= StatusCode(s) < 400)
    ensures s.checkType == Some(TCP) ==> (r == None <==> Succeeded(s))
    ensures s.checkType.None? || s.checkType == Some(UNKNOWN) ==> r == None
  {
    match (if s.checkType.Some? then s.checkType.value else UNKNOWN)
    case COMMAND =>
      if ExitCode(s) != 0 then Some(NonZeroExit(ExitCode(s))) else None
    case HTTP =>
      var code := ToInt32(StatusCode(s));
      if code < 200 || code >= 400 then Some(UnexpectedStatusCode(code)) else None
    case TCP =>
      if !Succeeded(s) then Some(TcpFailed) else None
    case UNKNOWN => None
  }

  /** An HTTP check passes exactly for the 2xx and 3xx classes of section 6 of RFC 7231. */
  lemma HealthyHttpClasses(s: CheckStatusInfo)
    requires s.checkType == Some(HTTP)
    ensures InterpretCheckStatusInfo(s) == None <==> StatusCode(s) / 100 == 2 || StatusCode(s) / 100 == 3
  {
  }

  /** A status update for a task: healthy, or unhealthy with the failure count and whether to kill. */
  datatype TaskHealthStatus = Healthy | Unhealthy(consecutiveFailures: nat, killTask: bool)

  /** The failure count before update `i`: that of the update before it, or 0 after a healthy one or at the start. */
  function FailuresBefore(sent: seq<TaskHealthStatus>, i: nat): nat
    requires i <= |sent|
  {
    if i == 0 || sent[i - 1].Healthy? then 0 else sent[i - 1].consecutiveFailures
  }

  /**
   * The updates a health checker sends: a healthy update only first or after
   * an unhealthy one, and each unhealthy update counting one more failure
   * than the update before it and asking for a kill iff the count reached
   * the threshold.
   */
  ghost predicate Log(sent: seq<TaskHealthStatus>, threshold: nat)
  {
    forall i | 0 <= i < |sent| ::
      (sent[i].Healthy? ==> i == 0 || sent[i - 1].Unhealthy?) &&
      (sent[i].Unhealthy? ==>
        sent[i].consecutiveFailures == FailuresBefore(sent, i) + 1 &&
        sent[i].killTask == (sent[i].consecutiveFailures >= threshold))
  }

  /** The counters agree with what has been sent. */
  ghost predicate Consistent(sent: seq<TaskHealthStatus>, threshold: nat, consecutiveFailures: nat, initializing: bool)
  {
    Log(sent, threshold) &&
    consecutiveFailures == FailuresBefore(sent, |sent|) &&
    (sent == [] ==> initializing) &&
    (sent != [] && sent[|sent| - 1].Healthy? ==> !initializing)
  }

  /**
   * An unhealthy update with count `n` closes a run of `n` unhealthy
   * updates; in particular a kill is asked for only after `threshold`
   * failures reported in a row.
   */
  lemma {:induction false} FailureRun(sent: seq<TaskHealthStatus>, threshold: nat, i: nat)
    requires Log(sent, threshold) && i < |sent| && sent[i].Unhealthy?
    ensures 1 <= sent[i].consecutiveFailures <= i + 1
    ensures forall j | i + 1 - sent[i].consecutiveFailures <= j <= i :: sent[j].Unhealthy?
    ensures sent[i].killTask ==> threshold <= sent[i].consecutiveFailures
  {
    if i > 0 && sent[i - 1].Unhealthy? {
      FailureRun(sent, threshold, i - 1);
    }
  }

  /** Appending an update that fits after the log keeps it a log. */
  lemma LogSnoc(sent: seq<TaskHealthStatus>, threshold: nat, u: TaskHealthStatus)
    requires Log(sent, threshold)
    requires u.Healthy? ==> sent == [] || sent[|sent| - 1].Unhealthy?
    requires u.Unhealthy? ==>
      u.consecutiveFailures == FailuresBefore(sent, |sent|) + 1 && u.killTask == (u.consecutiveFailures >= threshold)
    ensures Log(sent + [u], threshold)
  {
    var next := sent + [u];
    forall i | 0 <= i < |next|
      ensures (next[i].Healthy? ==> i == 0 || next[i - 1].Unhealthy?) &&
        (next[i].Unhealthy? ==>
          next[i].consecutiveFailures == FailuresBefore(next, i) + 1 &&
          next[i].killTask == (next[i].consecutiveFailures >= threshold))
    {
      if i < |sent| {
        assert next[i] == sent[i];
        if i > 0 { assert next[i - 1] == sent[i - 1]; }
        assert FailuresBefore(next, i) == FailuresBefore(sent, i);
      } else {
        assert i == |sent|;
        assert next[i] == u;
        if i > 0 { assert next[i - 1] == sent[i - 1]; }
        assert FailuresBefore(next, i) == FailuresBefore(sent, |sent|);
      }
    }
  }

  /** A counted failure keeps the counters in agreement with the updates sent. */
  lemma ConsistentFailure(sent: seq<TaskHealthStatus>, threshold: nat, failures: nat, initializing: bool)
    requires Consistent(sent, threshold, failures, initializing)
    ensures Consistent(sent + [Unhealthy(failures + 1, failures + 1 >= threshold)], threshold, failures + 1, initializing)
  {
    var u := Unhealthy(failures + 1, failures + 1 >= threshold);
    LogSnoc(sent, threshold, u);
    assert (sent + [u])[|sent|] == u;
  }

  /** A reported success keeps the counters in agreement with the updates sent. */
  lemma ConsistentSuccess(sent: seq<TaskHealthStatus>, threshold: nat, failures: nat, initializing: bool)
    requires Consistent(sent, threshold, failures, initializing)
    requires initializing || failures > 0
    ensures Consistent(sent + [Healthy], threshold, 0, false)
  {
    LogSnoc(sent, threshold, Healthy);
    assert (sent + [Healthy])[|sent|] == Healthy;
  }

  /** The failure is ignored: still initializing, inside a positive grace period. */
  predicate InGracePeriod(initializing: bool, gracePeriod: real, elapsed: real)
  {
    initializing && gracePeriod > 0.0 && elapsed <= gracePeriod
  }

  /** `HealthChecker`: turns check results into task health updates. */
  class HealthChecker {
    const checkGracePeriod: real
    /** The configured `consecutive_failures`. */
    const threshold: nat
    var consecutiveFailures: nat
    var initializing: bool
    /** Every update handed to the callback, in order. */
    var sent: seq<TaskHealthStatus>

    ghost predicate Valid()
      reads this
    {
      Consistent(sent, threshold, consecutiveFailures, initializing)
    }

    /** The constructor: no failures yet, initializing, grace period and threshold as the check reads them. */
    constructor (check: HealthCheck, d: Defaults)
      ensures Valid()
      ensures checkGracePeriod == Checks.Seconds(check.gracePeriodSeconds, d.gracePeriod)
      ensures threshold == (if check.consecutiveFailures.Some? then check.consecutiveFailures.value else d.consecutiveFailures)
      ensures consecutiveFailures == 0 && initializing && sent == []
    {
      checkGracePeriod := Checks.Seconds(check.gracePeriodSeconds, d.gracePeriod);
      threshold := if check.consecutiveFailures.Some? then check.consecutiveFailures.value else d.consecutiveFailures;
      consecutiveFailures := 0;
      initializing := true;
      sent := [];
    }

    /**
     * `failure`: ignored inside the grace period while initializing;
     * otherwise one more consecutive failure, reported as unhealthy, with a
     * kill requested once the threshold is reached.
     */
    method Failure(elapsed: real)
      requires Valid()
      modifies this
      ensures Valid()
      ensures initializing == old(initializing)
      ensures InGracePeriod(old(initializing), checkGracePeriod, elapsed) ==>
        consecutiveFailures == old(consecutiveFailures) && sent == old(sent)
      ensures !InGracePeriod(old(initializing), checkGracePeriod, elapsed) ==>
        consecutiveFailures == old(consecutiveFailures) + 1 &&
        sent == old(sent) + [Unhealthy(consecutiveFailures, consecutiveFailures >= threshold)]
    {
      if initializing && checkGracePeriod > 0.0 && elapsed <= checkGracePeriod {
        return;
      }
      ConsistentFailure(sent, threshold, consecutiveFailures, initializing);
      consecutiveFailures := consecutiveFailures + 1;
      var killTask := consecutiveFailures >= threshold;
      sent := sent + [Unhealthy(consecutiveFailures, killTask)];
    }

    /** `success`: a healthy update on the first success and on the first after failures; the counter is reset. */
    method Success()
      requires Valid()
      modifies this
      ensures Valid()
      ensures sent == old(sent) + (if old(initializing) || old(consecutiveFailures) > 0 then [Healthy] else [])
      ensures consecutiveFailures == 0 && !initializing
    {
      if initializing || consecutiveFailures > 0 {
        ConsistentSuccess(sent, threshold, consecutiveFailures, initializing);
        sent := sent + [Healthy];
        initializing := false;
      }
      consecutiveFailures := 0;
    }

    /** `processCheckResult`: a check error or an unhealthy status is a failure, anything else a success. */
    method ProcessCheckResult(result: Result<CheckStatusInfo, string>, elapsed: real)
      requires Valid()
      modifies this
      ensures Valid()
      ensures result.Ok? && InterpretCheckStatusInfo(result.value) == None ==>
        sent == old(sent) + (if old(initializing) || old(consecutiveFailures) > 0 then [Healthy] else []) &&
        consecutiveFailures == 0 && !initializing
      ensures (result.Err? || InterpretCheckStatusInfo(result.value).Some?) ==>
        initializing == old(initializing) &&
        if InGracePeriod(old(initializing), checkGracePeriod, elapsed) then
          consecutiveFailures == old(consecutiveFailures) && sent == old(sent)
        else
          consecutiveFailures == old(consecutiveFailures) + 1 &&
          sent == old(sent) + [Unhealthy(consecutiveFailures, consecutiveFailures >= threshold)]
    {
      if result.Err? {
        Failure(elapsed);
      } else {
        var verdict := InterpretCheckStatusInfo(result.value);
        if verdict.None? {
          Success();
        } else {
          Failure(elapsed);
        }
      }
    }
  }

  /** Why `validation::healthCheck` rejects a health check, one case per error it returns. */
  datatype HealthCheckError =
    | MissingType
    | GracePeriodOutOfRange
    | MissingCommand
    | MissingCommandValue(shell: bool)
    | InvalidCommand(message: string)
    | MissingHttp
    | UnsupportedScheme(scheme: string)
    | RelativePath(path: string)
    | MissingTcp
    | InvalidType
    | NegativeDelay
    | NegativeGracePeriod
    | NegativeInterval
    | NegativeTimeout

  /** The seconds a `Duration` (signed 64-bit nanoseconds) can hold. */
  predicate Representable(seconds: real)
  {
    -0x8000_0000_0000_0000 as real <= seconds * 1_000_000_000.0 <= 0x7FFF_FFFF_FFFF_FFFF as real
  }

  /** The schemes an HTTP health check may name. */
  predicate SupportedScheme(scheme: Option<string>)
  {
    scheme.None? || scheme.value == "http" || scheme.value == "https"
  }

  /** The type checks of a health check pass (`validateCommandInfo` given as a parameter). */
  predicate TypeWellFormed(h: HealthCheck, validateCommandInfo: Checks.CommandInfo -> Option<string>)
  {
    h.checkType.Some? && h.checkType.value != UNKNOWN &&
    (h.checkType.value == COMMAND ==>
      h.command.Some? && h.command.value.value.Some? && validateCommandInfo(h.command.value).None?) &&
    (h.checkType.value == HTTP ==>
      h.http.Some? && SupportedScheme(h.http.value.scheme) &&
      (h.http.value.path.Some? ==> Text.StartsWith(h.http.value.path.value, "/"))) &&
    (h.checkType.value == TCP ==> h.tcp.Some?)
  }

  /** A health check that can be run. */
  predicate WellFormed(h: HealthCheck, d: Defaults, validateCommandInfo: Checks.CommandInfo -> Option<string>)
  {
    TypeWellFormed(h, validateCommandInfo) &&
    Representable(Checks.Seconds(h.gracePeriodSeconds, d.gracePeriod)) &&
    !Checks.Negative(h.delaySeconds) && !Checks.Negative(h.gracePeriodSeconds) &&
    !Checks.Negative(h.intervalSeconds) && !Checks.Negative(h.timeoutSeconds)
  }

  /** The checks for the type, made after the type is known to be set and the grace period representable. */
  function TypeError(h: HealthCheck, validateCommandInfo: Checks.CommandInfo -> Option<string>): (r: Option<HealthCheckError>)
    requires h.checkType.Some?
    ensures r == None <==> TypeWellFormed(h, validateCommandInfo)
  {
    match h.checkType.value
    case COMMAND =>
      if h.command.None? then Some(MissingCommand)
      else if h.command.value.value.None? then Some(MissingCommandValue(h.command.value.shell))
      else if validateCommandInfo(h.command.value).Some? then
        Some(InvalidCommand(validateCommandInfo(h.command.value).value))
      else None
    case HTTP =>
      if h.http.None? then Some(MissingHttp)
      else if !SupportedScheme(h.http.value.scheme) then Some(UnsupportedScheme(h.http.value.scheme.value))
      else if h.http.value.path.Some? && !Text.StartsWith(h.http.value.path.value, "/") then
        Some(RelativePath(h.http.value.path.value))
      else None
    case TCP =>
      if h.tcp.None? then Some(MissingTcp) else None
    case UNKNOWN => Some(InvalidType)
  }

  /**
   * `validation::healthCheck`: the type, then the grace period as a
   * `Duration`, then the type's own fields, then the durations in the order
   * delay, grace period, interval, timeout; the first problem is returned.
   */
  function ValidateHealthCheck(h: HealthCheck, d: Defaults, validateCommandInfo: Checks.CommandInfo -> Option<string>)
    : (r: Option<HealthCheckError>)
    ensures r == None <==> WellFormed(h, d, validateCommandInfo)
    ensures h.checkType.None? ==> r == Some(MissingType)
    ensures h.checkType.Some? && !Representable(Checks.Seconds(h.gracePeriodSeconds, d.gracePeriod)) ==>
      r == Some(GracePeriodOutOfRange)
  {
    if h.checkType.None? then Some(MissingType)
    else if !Representable(Checks.Seconds(h.gracePeriodSeconds, d.gracePeriod)) then Some(GracePeriodOutOfRange)
    else if TypeError(h, validateCommandInfo).Some? then TypeError(h, validateCommandInfo)
    else if Checks.Negative(h.delaySeconds) then Some(NegativeDelay)
    else if Checks.Negative(h.gracePeriodSeconds) then Some(NegativeGracePeriod)
    else if Checks.Negative(h.intervalSeconds) then Some(NegativeInterval)
    else if Checks.Negative(h.timeoutSeconds) then Some(NegativeTimeout)
    else None
  }

  /**
   * What the checker process relies on: a health check that validates turns
   * into a check of the same type carrying that check's own command, port,
   * path or TCP port, with an absolute path and durations none of which is
   * negative.
   */
  lemma ToCheckInfoKeepsCheck(h: HealthCheck, d: Defaults, validateCommandInfo: Checks.CommandInfo -> Option<string>)
    requires ValidateHealthCheck(h, d, validateCommandInfo) == None
    requires d.delay >= 0.0 && d.interval >= 0.0 && d.timeout >= 0.0
    ensures ToCheckInfo(h, d).checkType == h.checkType && h.checkType != Some(UNKNOWN)
    ensures h.checkType == Some(COMMAND) ==>
      ToCheckInfo(h, d).command == h.command && ToCheckInfo(h, d).command.value.value.Some?
    ensures h.checkType == Some(HTTP) ==>
      ToCheckInfo(h, d).http == Some(Checks.HttpCheck(h.http.value.port, h.http.value.path)) &&
      (h.http.value.path.Some? ==> Text.StartsWith(h.http.value.path.value, "/"))
    ensures h.checkType == Some(TCP) ==> ToCheckInfo(h, d).tcp == h.tcp
    ensures ToCheckInfo(h, d).delaySeconds.value >= 0.0 && ToCheckInfo(h, d).intervalSeconds.value >= 0.0 &&
      ToCheckInfo(h, d).timeoutSeconds.value >= 0.0
  {
  }
}
