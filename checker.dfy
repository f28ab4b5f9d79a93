/**
 * General checks of a task (`src/checks/checker.cpp`): the validation of a
 * `CheckInfo` and of a `CheckStatusInfo`, the durations a checker runs with,
 * the status built from a finished COMMAND or HTTP check, and the rule that
 * the callback hears about a result only when it differs from the previous
 * one.
 */
module Checks {
  import opened Wrappers
  import Text

  datatype CheckType = COMMAND | HTTP | UNKNOWN

  /** What validation reads of a `CommandInfo`: whether it runs in a shell, and its `value` if set. */
  datatype CommandInfo = CommandInfo(shell: bool, value: Option<string>)

  datatype HttpCheck = HttpCheck(port: nat, path: Option<string>)

  /** A `CheckInfo`; an optional field that is not set is `None`. */
  datatype CheckInfo = CheckInfo(
    checkType: Option<CheckType>,
    command: Option<CommandInfo>,
    http: Option<HttpCheck>,
    delaySeconds: Option<real>,
    intervalSeconds: Option<real>,
    timeoutSeconds: Option<real>)

  /** Why `validation::checkInfo` rejects a check, one case per error it returns. */
  datatype CheckError =
    | MissingType
    | MissingCommand
    | MissingCommandValue(shell: bool)
    | MissingHttp
    | RelativePath(path: string)
    | InvalidType
    | NegativeDelay
    | NegativeInterval
    | NegativeTimeout

  /** The field is set to a negative value. */
  predicate Negative(f: Option<real>)
  {
    f.Some? && f.value < 0.0
  }

  /** The type checks pass: a known type with its sub-message and, for HTTP, an absolute path if any. */
  predicate TypeWellFormed(c: CheckInfo)
  {
    c.checkType.Some? && c.checkType.value != UNKNOWN &&
    (c.checkType.value == COMMAND ==> c.command.Some? && c.command.value.value.Some?) &&
    (c.checkType.value == HTTP ==>
      c.http.Some? && (c.http.value.path.Some? ==> Text.StartsWith(c.http.value.path.value, "/")))
  }

  /** A check that can be run: the type checks pass and no duration is negative. */
  predicate WellFormed(c: CheckInfo)
  {
    TypeWellFormed(c) &&
    !Negative(c.delaySeconds) && !Negative(c.intervalSeconds) && !Negative(c.timeoutSeconds)
  }

  /** The duration checks, made after the type checks, in the order delay, interval, timeout. */
  function DurationError(c: CheckInfo): (r: Option<CheckError>)
    ensures r == None <==> !Negative(c.delaySeconds) && !Negative(c.intervalSeconds) && !Negative(c.timeoutSeconds)
  {
    if Negative(c.delaySeconds) then Some(NegativeDelay)
    else if Negative(c.intervalSeconds) then Some(NegativeInterval)
    else if Negative(c.timeoutSeconds) then Some(NegativeTimeout)
    else None
  }

  /** `validation::checkInfo`: the first problem found, or `None` for a check that can be run. */
  function ValidateCheckInfo(c: CheckInfo): (r: Option<CheckError>)
    ensures r == None <==> WellFormed(c)
    ensures c.checkType == None ==> r == Some(MissingType)
    ensures c.checkType == Some(UNKNOWN) ==> r == Some(InvalidType)
  {
    if c.checkType.None? then Some(MissingType)
    else match c.checkType.value
      case COMMAND =>
        if c.command.None? then Some(MissingCommand)
        else if c.command.value.value.None? then Some(MissingCommandValue(c.command.value.shell))
        else DurationError(c)
      case HTTP =>
        if c.http.None? then Some(MissingHttp)
        else if c.http.value.path.Some? && !Text.StartsWith(c.http.value.path.value, "/") then
          Some(RelativePath(c.http.value.path.value))
        else DurationError(c)
      case UNKNOWN => Some(InvalidType)
  }

  /**
   * The type checks come first: a check that fails them is reported for that
   * whatever its durations, and one that passes them is judged on its
   * durations alone.
   */
  lemma TypeBeforeDurations(c: CheckInfo)
    ensures TypeWellFormed(c) ==> ValidateCheckInfo(c) == DurationError(c)
    ensures !TypeWellFormed(c) ==>
      ValidateCheckInfo(c).Some? && ValidateCheckInfo(c).value !in {NegativeDelay, NegativeInterval, NegativeTimeout}
  {
  }

  /** The HTTP cases of the validation tests: no path is fine, a path without a leading `/` is not. */
  lemma HttpPathExamples()
    ensures ValidateCheckInfo(CheckInfo(Some(HTTP), None, Some(HttpCheck(8080, None)), None, None, None)) == None
    ensures ValidateCheckInfo(CheckInfo(Some(HTTP), None, Some(HttpCheck(8080, Some("healthz"))), None, None, None))
      == Some(RelativePath("healthz"))
    ensures ValidateCheckInfo(CheckInfo(Some(HTTP), None, Some(HttpCheck(8080, Some("/healthz"))), None, None, None)) == None
  {
    assert !Text.StartsWith("healthz", "/") by {
      assert "healthz"[..1][0] == 'h';
    }
    assert Text.StartsWith("/healthz", "/") by {
      assert "/healthz"[..1] == "/";
    }
  }

  /** The duration cases of the validation tests: each negative duration is rejected, zeros are accepted. */
  lemma DurationExamples()
    ensures ValidateCheckInfo(CheckInfo(Some(HTTP), None, Some(HttpCheck(8080, None)), Some(-1.0), None, None))
      == Some(NegativeDelay)
    ensures ValidateCheckInfo(CheckInfo(Some(HTTP), None, Some(HttpCheck(8080, None)), Some(0.0), Some(-1.0), None))
      == Some(NegativeInterval)
    ensures ValidateCheckInfo(CheckInfo(Some(HTTP), None, Some(HttpCheck(8080, None)), Some(0.0), Some(0.0), Some(-1.0)))
      == Some(NegativeTimeout)
    ensures ValidateCheckInfo(CheckInfo(Some(HTTP), None, Some(HttpCheck(8080, None)), Some(0.0), Some(0.0), Some(0.0)))
      == None
  {
  }

  datatype CommandStatus = CommandStatus(exitCode: Option<int>)

  /** An unsigned 32-bit protobuf field. */
  newtype uint32 = x: int | 0 <= x < 0x1_0000_0000

  datatype HttpStatus = HttpStatus(statusCode: Option<uint32>)

  /** A `CheckStatusInfo`; an optional field that is not set is `None`. */
  datatype CheckStatusInfo = CheckStatusInfo(
    checkType: Option<CheckType>,
    command: Option<CommandStatus>,
    http: Option<HttpStatus>)

  /** The status a checker holds before its first result: nothing set. */
  const Initial: CheckStatusInfo := CheckStatusInfo(None, None, None)

  datatype StatusError = MissingStatusType | MissingCommandStatus | MissingHttpStatus | InvalidStatusType

  /** `validation::checkStatusInfo`: a known type, with the sub-message for it. */
  function ValidateCheckStatusInfo(s: CheckStatusInfo): (r: Option<StatusError>)
    ensures r == None <==>
      s.checkType.Some? && s.checkType.value != UNKNOWN &&
      (s.checkType.value == COMMAND ==> s.command.Some?) &&
      (s.checkType.value == HTTP ==> s.http.Some?)
  {
    if s.checkType.None? then Some(MissingStatusType)
    else match s.checkType.value
      case COMMAND => if s.command.None? then Some(MissingCommandStatus) else None
      case HTTP => if s.http.None? then Some(MissingHttpStatus) else None
      case UNKNOWN => Some(InvalidStatusType)
  }

  /** How a check's future ended. */
  datatype Outcome<T> = Ready(value: T) | Failed(message: string) | Discarded

  /** `static_cast<uint32_t>` of an `int`: the value modulo 2^32. */
  function ToUint32(x: int): (r: uint32)
    ensures 0 <= x < 0x1_0000_0000 ==> r as int == x
    ensures (r as int - x) % 0x1_0000_0000 == 0
  {
    (x % 0x1_0000_0000) as uint32
  }

  /**
   * `processCommandCheckResult`: a COMMAND status carrying the exit code when
   * the check finished, and an empty command message when it failed or was
   * discarded.
   */
  function CommandCheckStatus(result: Outcome<int>): (s: CheckStatusInfo)
  {
    CheckStatusInfo(Some(COMMAND), Some(CommandStatus(if result.Ready? then Some(result.value) else None)), None)
  }

  /**
   * `processHttpCheckResult`: an HTTP status carrying the response code (as an
   * unsigned 32-bit value) when the check finished, and an empty HTTP message
   * when it failed or was discarded.
   */
  function HttpCheckStatus(result: Outcome<int>): (s: CheckStatusInfo)
  {
    CheckStatusInfo(Some(HTTP), None, Some(HttpStatus(if result.Ready? then Some(ToUint32(result.value)) else None)))
  }

  /**
   * What a finished check reports: a status that passes `checkStatusInfo`,
   * of the check's type, carrying the result exactly when there was one, and
   * never equal to the initial status.
   */
  lemma ShapedStatusValid(result: Outcome<int>)
    ensures ValidateCheckStatusInfo(CommandCheckStatus(result)) == None
    ensures ValidateCheckStatusInfo(HttpCheckStatus(result)) == None
    ensures CommandCheckStatus(result) != Initial && HttpCheckStatus(result) != Initial
    ensures CommandCheckStatus(result).command.value.exitCode.Some? <==> result.Ready?
    ensures HttpCheckStatus(result).http.value.statusCode.Some? <==> result.Ready?
    ensures result.Ready? && 0 <= result.value < 0x1_0000_0000 ==>
      HttpCheckStatus(result).http.value.statusCode == Some(result.value as uint32)
  {
  }

  /** A failed check and a discarded one look the same, so a second failure in a row is not reported. */
  lemma FailuresLookAlike(message: string)
    ensures CommandCheckStatus(Failed(message)) == CommandCheckStatus(Discarded)
    ensures HttpCheckStatus(Failed(message)) == HttpCheckStatus(Discarded)
  {
  }

  /** A time limit for one check; `Infinite` is `Duration::max()`. */
  datatype Timeout = Finite(seconds: real) | Infinite

  /** The timeout a checker uses: zero (or less) means no limit. */
  function CheckTimeout(seconds: real): (t: Timeout)
    ensures t == Infinite <==> seconds <= 0.0
    ensures t.Finite? ==> t.seconds == seconds && t.seconds > 0.0
  {
    if seconds > 0.0 then Finite(seconds) else Infinite
  }

  /** The value a duration field reads as: its own when set, the protobuf default otherwise. */
  function Seconds(f: Option<real>, default: real): real
  {
    if f.Some? then f.value else default
  }

  /** The statuses handed to the callback so far start from `Initial` and never repeat the one before. */
  ghost predicate ChangesOnly(updates: seq<CheckStatusInfo>, previous: CheckStatusInfo)
  {
    previous == (if updates == [] then Initial else updates[|updates| - 1]) &&
    (updates != [] ==> updates[0] != Initial) &&
    (forall i :: 0 < i < |updates| ==> updates[i] != updates[i - 1])
  }

  /** `CheckerProcess`: runs a check over and over and tells the callback about changes. */
  class Checker {
    const check: CheckInfo
    const checkDelay: real
    const checkInterval: real
    const checkTimeout: Timeout
    /** The last result, or `Initial` before the first. */
    var previousCheckStatus: CheckStatusInfo
    /** Every status handed to the callback, in order. */
    var updates: seq<CheckStatusInfo>
    /** The delay of every check scheduled, in order. */
    var scheduled: seq<real>

    ghost predicate Valid()
      reads this
    {
      ChangesOnly(updates, previousCheckStatus)
    }

    /**
     * The constructor: the durations come from the check, an unset field
     * reading as the protobuf default, and a zero timeout means no limit.
     */
    constructor (check: CheckInfo, defaultDelay: real, defaultInterval: real, defaultTimeout: real)
      ensures Valid()
      ensures this.check == check && updates == [] && scheduled == [] && previousCheckStatus == Initial
      ensures checkDelay == Seconds(check.delaySeconds, defaultDelay)
      ensures checkInterval == Seconds(check.intervalSeconds, defaultInterval)
      ensures checkTimeout == CheckTimeout(Seconds(check.timeoutSeconds, defaultTimeout))
    {
      this.check := check;
      checkDelay := Seconds(check.delaySeconds, defaultDelay);
      checkInterval := Seconds(check.intervalSeconds, defaultInterval);
      var timeout := Seconds(check.timeoutSeconds, defaultTimeout);
      checkTimeout := if timeout > 0.0 then Finite(timeout) else Infinite;
      previousCheckStatus := Initial;
      updates := [];
      scheduled := [];
    }

    /** `initialize`: the first check is scheduled after the delay. */
    method Initialize()
      requires Valid()
      modifies this
      ensures Valid()
      ensures scheduled == old(scheduled) + [checkDelay]
      ensures updates == old(updates) && previousCheckStatus == old(previousCheckStatus)
    {
      scheduled := scheduled + [checkDelay];
    }

    /**
     * `processCheckResult`: the callback hears about the result exactly when
     * it differs from the previous one, the result is remembered, and the
     * next check is scheduled after the interval.
     */
    method ProcessCheckResult(result: CheckStatusInfo)
      requires Valid()
      modifies this
      ensures Valid()
      ensures updates == old(updates) + (if result != old(previousCheckStatus) then [result] else [])
      ensures previousCheckStatus == result
      ensures scheduled == old(scheduled) + [checkInterval]
    {
      if result != previousCheckStatus {
        updates := updates + [result];
        previousCheckStatus := result;
      }
      scheduled := scheduled + [checkInterval];
    }

    /** `processCommandCheckResult`: shape the outcome of a COMMAND check and process it. */
    method ProcessCommandCheckResult(result: Outcome<int>)
      requires Valid()
      modifies this
      ensures Valid()
      ensures updates == old(updates) + (if CommandCheckStatus(result) != old(previousCheckStatus) then [CommandCheckStatus(result)] else [])
      ensures previousCheckStatus == CommandCheckStatus(result)
      ensures scheduled == old(scheduled) + [checkInterval]
    {
      ShapedStatusValid(result);
      ProcessCheckResult(CommandCheckStatus(result));
    }

    /** `processHttpCheckResult`: shape the outcome of an HTTP check and process it. */
    method ProcessHttpCheckResult(result: Outcome<int>)
      requires Valid()
      modifies this
      ensures Valid()
      ensures updates == old(updates) + (if HttpCheckStatus(result) != old(previousCheckStatus) then [HttpCheckStatus(result)] else [])
      ensures previousCheckStatus == HttpCheckStatus(result)
      ensures scheduled == old(scheduled) + [checkInterval]
    {
      ShapedStatusValid(result);
      ProcessCheckResult(HttpCheckStatus(result));
    }
  }
}
