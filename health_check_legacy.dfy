/**
 * The older, stand-alone health checker (`src/health-check/health_checker.cpp`):
 * its failure and success counters, which also decide when the checker's
 * promise fails, the verdicts of its command, HTTP and TCP checks, and its
 * validation of a `HealthCheck`.
 */
module HealthCheckLegacy {
  import opened Wrappers
  import Text
  import Checks
  import HealthChecks

  /** The state of the checker's promise: still pending, or failed with a message. */
  datatype Promise = Pending | Failed(message: string)

  /** Why one check failed. */
  datatype CheckFailure =
    | NotReaped
    | CommandReturned(status: int)
    | StatusUnavailable
    | CurlReturned(status: int)
    | OutputUnavailable
    | UnexpectedOutput(output: string)
    | UnexpectedStatusCode(code: int)

  /**
   * The end of `_commandHealthCheck`: `status` is the reaped exit status, or
   * `None` when the process could not be reaped. The check passes iff the
   * process was reaped and exited with 0.
   */
  function CommandHealthCheck(status: Option<int>): (r: Option<CheckFailure>)
    ensures r == None <==> status == Some(0)
  {
    if status.None? then Some(NotReaped)
    else if status.value != 0 then Some(CommandReturned(status.value))
    else None
  }

  /**
   * `__httpHealthCheck`: `status` is curl's exit status (`None` when it is
   * not available, `Some(None)` when curl was not reaped), `output` what curl
   * wrote to stdout (`None` when it could not be read), and `numify` stout's
   * parse of it as an integer. The check passes iff curl was reaped and
   * exited with 0, its output is an integer, and that integer is in
   * [200, 400).
   */
  function HttpHealthCheck(status: Option<Option<int>>, output: Option<string>, numify: string -> Option<int>)
    : (r: Option<CheckFailure>)
    ensures r == None <==>
      status == Some(Some(0)) && output.Some? && numify(output.value).Some? &&
      200 <= numify(output.value).value < 400
    ensures status.Some? && status.value.Some? && status.value.value != 0 ==>
      r == Some(CurlReturned(status.value.value))
  {
    if status.None? then Some(StatusUnavailable)
    else if status.value.None? then Some(NotReaped)
    else if status.value.value != 0 then Some(CurlReturned(status.value.value))
    else if output.None? then Some(OutputUnavailable)
    else if numify(output.value).None? then Some(UnexpectedOutput(output.value))
    else if numify(output.value).value < 200 || numify(output.value).value >= 400 then
      Some(UnexpectedStatusCode(numify(output.value).value))
    else None
  }

  /** A failure inside a positive grace period, counted from the start of checking. */
  predicate InGracePeriod(gracePeriod: real, elapsed: real)
  {
    gracePeriod > 0.0 && elapsed <= gracePeriod
  }

  /** `HealthCheckerProcess`: runs health checks and sends their outcome to the executor. */
  class HealthCheckerProcess {
    const gracePeriod: real
    /** The configured `consecutive_failures`. */
    const threshold: nat
    var consecutiveFailures: nat
    var initializing: bool
    /** Every update sent to the executor, in order. */
    var sent: seq<HealthChecks.TaskHealthStatus>
    var promise: Promise
    /** How many times the next check has been scheduled. */
    var rescheduled: nat

    ghost predicate Valid()
      reads this
    {
      HealthChecks.Consistent(sent, threshold, consecutiveFailures, initializing)
    }

    /** The constructor: no failures yet, initializing, the promise pending. */
    constructor (gracePeriod: real, threshold: nat)
      ensures Valid()
      ensures this.gracePeriod == gracePeriod && this.threshold == threshold
      ensures consecutiveFailures == 0 && initializing && sent == [] && promise == Pending && rescheduled == 0
    {
      this.gracePeriod := gracePeriod;
      this.threshold := threshold;
      consecutiveFailures := 0;
      initializing := true;
      sent := [];
      promise := Pending;
      rescheduled := 0;
    }

    /** `promise.fail`: only a pending promise takes the failure. */
    method Fail(message: string)
      modifies this
      ensures promise == (if old(promise).Pending? then Failed(message) else old(promise))
      ensures consecutiveFailures == old(consecutiveFailures) && initializing == old(initializing)
      ensures sent == old(sent) && rescheduled == old(rescheduled)
    {
      if promise.Pending? {
        promise := Failed(message);
      }
    }

    /**
     * `failure`: inside the grace period the failure is ignored and the next
     * check scheduled, whether or not a check has passed before. Otherwise one
     * more consecutive failure is reported; once the threshold is reached the
     * promise fails and nothing more is scheduled.
     */
    method Failure(message: string, elapsed: real)
      requires Valid()
      modifies this
      ensures Valid()
      ensures initializing == old(initializing)
      ensures InGracePeriod(gracePeriod, elapsed) ==>
        consecutiveFailures == old(consecutiveFailures) && sent == old(sent) &&
        promise == old(promise) && rescheduled == old(rescheduled) + 1
      ensures !InGracePeriod(gracePeriod, elapsed) ==>
        consecutiveFailures == old(consecutiveFailures) + 1 &&
        sent == old(sent) + [HealthChecks.Unhealthy(consecutiveFailures, consecutiveFailures >= threshold)] &&
        if consecutiveFailures >= threshold then
          promise == (if old(promise).Pending? then Failed(message) else old(promise)) &&
          rescheduled == old(rescheduled)
        else
          promise == old(promise) && rescheduled == old(rescheduled) + 1
    {
      if gracePeriod > 0.0 && elapsed <= gracePeriod {
        rescheduled := rescheduled + 1;
        return;
      }
      HealthChecks.ConsistentFailure(sent, threshold, consecutiveFailures, initializing);
      consecutiveFailures := consecutiveFailures + 1;
      var killTask := consecutiveFailures >= threshold;
      sent := sent + [HealthChecks.Unhealthy(consecutiveFailures, killTask)];
      assert Valid();
      if killTask {
        Fail(message);
      } else {
        rescheduled := rescheduled + 1;
      }
    }

    /** `success`: a healthy update on the first success and on the first after failures; the counter is reset. */
    method Success()
      requires Valid()
      modifies this
      ensures Valid()
      ensures sent == old(sent) + (if old(initializing) || old(consecutiveFailures) > 0 then [HealthChecks.Healthy] else [])
      ensures consecutiveFailures == 0 && !initializing
      ensures promise == old(promise) && rescheduled == old(rescheduled) + 1
    {
      if initializing || consecutiveFailures > 0 {
        HealthChecks.ConsistentSuccess(sent, threshold, consecutiveFailures, initializing);
        sent := sent + [HealthChecks.Healthy];
        initializing := false;
      }
      consecutiveFailures := 0;
      rescheduled := rescheduled + 1;
    }

    /**
     * `__healthCheck`: a check that completed is a success; any other is a
     * failure, `result` holding the message composed for it.
     */
    method HealthCheckDone(result: Option<string>, elapsed: real)
      requires Valid()
      modifies this
      ensures Valid()
      ensures result.None? ==>
        sent == old(sent) + (if old(initializing) || old(consecutiveFailures) > 0 then [HealthChecks.Healthy] else []) &&
        consecutiveFailures == 0 && !initializing &&
        promise == old(promise) && rescheduled == old(rescheduled) + 1
      ensures result.Some? ==>
        initializing == old(initializing) &&
        if InGracePeriod(gracePeriod, elapsed) then
          consecutiveFailures == old(consecutiveFailures) && sent == old(sent) &&
          promise == old(promise) && rescheduled == old(rescheduled) + 1
        else
          consecutiveFailures == old(consecutiveFailures) + 1 &&
          sent == old(sent) + [HealthChecks.Unhealthy(consecutiveFailures, consecutiveFailures >= threshold)] &&
          if consecutiveFailures >= threshold then
            promise == (if old(promise).Pending? then Failed(result.value) else old(promise)) &&
            rescheduled == old(rescheduled)
          else
            promise == old(promise) && rescheduled == old(rescheduled) + 1
    {
      if result.None? {
        Success();
      } else {
        Failure(result.value, elapsed);
      }
    }

    /**
     * `_tcpHealthCheck`: the promise fails because TCP checks are not
     * supported, yet the check itself completes, so `__healthCheck` counts it
     * as a success.
     */
    method TcpHealthCheck()
      requires Valid()
      modifies this
      ensures Valid()
      ensures old(promise).Pending? ==> promise == Failed("TCP health check is not supported")
      ensures old(promise).Failed? ==> promise == old(promise)
      ensures sent == old(sent) + (if old(initializing) || old(consecutiveFailures) > 0 then [HealthChecks.Healthy] else [])
      ensures consecutiveFailures == 0 && !initializing && rescheduled == old(rescheduled) + 1
    {
      Fail("TCP health check is not supported");
      Success();
    }
  }

  /** The schemes this validation accepts: as written, it compares with "https" twice. */
  predicate AcceptedScheme(scheme: Option<string>)
  {
    scheme.None? || scheme.value == "https"
  }

  /** A health check this validation accepts. */
  predicate WellFormed(h: HealthChecks.HealthCheck)
  {
    h.checkType.Some? && h.checkType.value != HealthChecks.UNKNOWN &&
    (h.checkType.value == HealthChecks.COMMAND ==> h.command.Some? && h.command.value.value.Some?) &&
    (h.checkType.value == HealthChecks.HTTP ==>
      h.http.Some? && AcceptedScheme(h.http.value.scheme) &&
      (h.http.value.path.Some? ==> Text.StartsWith(h.http.value.path.value, "/"))) &&
    (h.checkType.value == HealthChecks.TCP ==> h.tcp.Some?)
  }

  /**
   * `validation::healthCheck` of this checker: the type, then the type's own
   * fields; no duration is looked at.
   */
  function ValidateHealthCheck(h: HealthChecks.HealthCheck): (r: Option<HealthChecks.HealthCheckError>)
    ensures r == None <==> WellFormed(h)
    ensures h.checkType.None? ==> r == Some(HealthChecks.MissingType)
  {
    if h.checkType.None? then Some(HealthChecks.MissingType)
    else match h.checkType.value
      case COMMAND =>
        if h.command.None? then Some(HealthChecks.MissingCommand)
        else if h.command.value.value.None? then Some(HealthChecks.MissingCommandValue(h.command.value.shell))
        else None
      case HTTP =>
        if h.http.None? then Some(HealthChecks.MissingHttp)
        else if h.http.value.scheme.Some? && h.http.value.scheme.value != "https" && h.http.value.scheme.value != "https" then
          Some(HealthChecks.UnsupportedScheme(h.http.value.scheme.value))
        else if h.http.value.path.Some? && !Text.StartsWith(h.http.value.path.value, "/") then
          Some(HealthChecks.RelativePath(h.http.value.path.value))
        else None
      case TCP =>
        if h.tcp.None? then Some(HealthChecks.MissingTcp) else None
      case UNKNOWN => Some(HealthChecks.InvalidType)
  }

  /**
   * The scheme check as written rejects the default scheme when it is named:
   * an HTTP health check with scheme "http" fails this validation, while the
   * validation of `src/checks/health_checker.cpp`, which compares with
   * "http" and "https", accepts it.
   */
  lemma ExplicitHttpSchemeRejected(port: nat, d: HealthChecks.Defaults, validateCommandInfo: Checks.CommandInfo -> Option<string>)
    requires HealthChecks.Representable(d.gracePeriod)
    ensures var h := HealthChecks.HealthCheck(
        Some(HealthChecks.HTTP), None, Some(HealthChecks.HttpCheckInfo(Some("http"), port, None)), None,
        None, None, None, None, None);
      ValidateHealthCheck(h) == Some(HealthChecks.UnsupportedScheme("http")) &&
      HealthChecks.ValidateHealthCheck(h, d, validateCommandInfo) == None
  {
    var h := HealthChecks.HealthCheck(
        Some(HealthChecks.HTTP), None, Some(HealthChecks.HttpCheckInfo(Some("http"), port, None)), None,
        None, None, None, None, None);
    assert "http" != "https" by {
      assert |"http"| != |"https"|;
    }
  }
}
