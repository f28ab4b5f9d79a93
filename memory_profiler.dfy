/**
 * The libprocess memory profiler (`3rdparty/libprocess/src/memory_profiler.cpp`):
 * its profiling run, the three files it generates on disk (raw profile,
 * symbolized profile, graph) cached by the id of the run they come from,
 * and the decisions of its HTTP endpoints.
 *
 * jemalloc, jeprof, the clock and the temporary directory are parameters:
 * `tmpdir` is what `getTemporaryDirectoryPath` gives, a generator is a
 * function from the output path to success or an error.
 */
module MemoryProfiler {
  import opened Wrappers

  // ---------------------------------------------------------------------
  // Durations, in nanoseconds

  const Second: int := 1_000_000_000
  const MinimumCollectionTime: int := Second
  const DefaultCollectionTime: int := 5 * 60 * Second
  const MaximumCollectionTime: int := 24 * 60 * 60 * Second
  /** How long a run is extended when jemalloc would not stop. */
  const StopRetryDelay: int := 5 * Second

  datatype DurationError = UnparsableDuration(error: string) | DurationOutOfRange(duration: int)

  /**
   * The collection time `start` uses: five minutes without a `duration`
   * parameter, the parsed one otherwise, which must lie within one second
   * and one day.
   */
  function CollectionTime(parameter: Option<Result<int, string>>): (r: Result<int, DurationError>)
    ensures r.Ok? ==> MinimumCollectionTime <= r.value <= MaximumCollectionTime
    ensures parameter.None? ==> r == Ok(DefaultCollectionTime)
    ensures parameter.Some? && parameter.value.Err? ==> r == Err(UnparsableDuration(parameter.value.error))
    ensures parameter.Some? && parameter.value.Ok? ==>
      (r.Ok? <==> MinimumCollectionTime <= parameter.value.value <= MaximumCollectionTime) &&
      (r.Ok? ==> r.value == parameter.value.value)
  {
    var duration :=
      if parameter.None? then Ok(DefaultCollectionTime)
      else if parameter.value.Err? then Err(UnparsableDuration(parameter.value.error))
      else Ok(parameter.value.value);
    if duration.Err? then duration
    else if duration.value < MinimumCollectionTime || duration.value > MaximumCollectionTime
    then Err(DurationOutOfRange(duration.value))
    else duration
  }

  /** `remaining_seconds` in the start response: the remaining time rounded to the nearest second. */
  function RoundedSeconds(nanos: nat): (s: nat)
    ensures s * Second <= nanos + Second / 2 < (s + 1) * Second
  {
    (nanos + Second / 2) / Second
  }

  // ---------------------------------------------------------------------
  // The `id` query parameter

  const Int64Min: int := -0x8000_0000_0000_0000
  const Int64Max: int := 0x7fff_ffff_ffff_ffff
  /** What `strerror(ERANGE)` says. */
  const RangeError := "Numerical result out of range"
  const GarbageError := "Garbage after parsed id"

  predicate IsSpace(c: char)
  {
    c == ' ' || c == '\t' || c == '\n' || c == '\U{B}' || c == '\U{C}' || c == '\r'
  }

  predicate IsDigit(c: char)
  {
    '0' <= c <= '9'
  }

  /** How many characters `s` starts with that satisfy `p`. */
  function Run(s: string, p: char -> bool): (n: nat)
    ensures n <= |s|
    ensures forall i :: 0 <= i < n ==> p(s[i])
    ensures n < |s| ==> !p(s[n])
  {
    if s == [] || !p(s[0]) then 0 else 1 + Run(s[1..], p)
  }

  /** The number a string of decimal digits spells. */
  function DigitsValue(ds: string): nat
    requires forall i :: 0 <= i < |ds| ==> IsDigit(ds[i])
    decreases |ds|
  {
    if ds == [] then 0
    else
      assert IsDigit(ds[|ds| - 1]);
      DigitsValue(ds[..|ds| - 1]) * 10 + (ds[|ds| - 1] as int - '0' as int)
  }

  /** What base-10 `strtoll` reads from `s`: its value, the characters it used, and whether it overflowed. */
  datatype Parsed = Parsed(value: int, consumed: nat, overflow: bool)

  /**
   * `strtoll(s, &end, 10)`: leading white space, an optional sign, then
   * decimal digits; without any digit nothing is consumed and the value is 0.
   */
  function Strtoll(s: string): (p: Parsed)
    ensures p.consumed <= |s|
    ensures !p.overflow ==> Int64Min <= p.value <= Int64Max
  {
    var spaces := Run(s, IsSpace);
    var rest := s[spaces..];
    var signed := if rest != [] && (rest[0] == '+' || rest[0] == '-') then 1 else 0;
    var digits := Run(rest[signed..], IsDigit);
    if digits == 0 then Parsed(0, 0, false)
    else
      var magnitude := DigitsValue(rest[signed..][..digits]);
      var value: int := if signed == 1 && rest[0] == '-' then 0 - magnitude else magnitude;
      Parsed(value, spaces + signed + digits, value < Int64Min || value > Int64Max)
  }

  datatype IdParameter = NoId | Id(value: int) | BadId(error: string)

  /**
   * `extractIdFromRequest`: none without an `id` parameter; an error when
   * the number overflows or characters follow it; the number otherwise.
   */
  function ExtractId(parameter: Option<string>): (r: IdParameter)
    ensures parameter.None? <==> r == NoId
    ensures r.Id? ==> Int64Min <= r.value <= Int64Max
    ensures r.Id? ==> r.value == Strtoll(parameter.value).value && Strtoll(parameter.value).consumed == |parameter.value|
    ensures r.BadId? <==> parameter.Some? && (Strtoll(parameter.value).overflow || Strtoll(parameter.value).consumed != |parameter.value|)
  {
    if parameter.None? then NoId
    else
      var parsed := Strtoll(parameter.value);
      if parsed.overflow then BadId(RangeError)
      else if parsed.consumed != |parameter.value| then BadId(GarbageError)
      else Id(parsed.value)
  }

  function DigitChar(d: nat): (c: char)
    requires d < 10
    ensures IsDigit(c) && c as int - '0' as int == d
  {
    ('0' as int + d) as char
  }

  /** The decimal digits of `n`. */
  function Digits(n: nat): (s: string)
    ensures |s| >= 1
    decreases n
  {
    if n < 10 then [DigitChar(n)] else Digits(n / 10) + [DigitChar(n % 10)]
  }

  /** `stringify` of an id. */
  function Decimal(n: int): string
  {
    if n < 0 then "-" + Digits(-n) else Digits(n)
  }

  lemma {:induction false} DigitsValueOfDigits(n: nat)
    ensures forall i :: 0 <= i < |Digits(n)| ==> IsDigit(Digits(n)[i])
    ensures DigitsValue(Digits(n)) == n
    decreases n
  {
    if n >= 10 {
      DigitsValueOfDigits(n / 10);
      var s := Digits(n / 10) + [DigitChar(n % 10)];
      assert s[..|s| - 1] == Digits(n / 10);
    }
  }

  /** The digits of a number are read back whole. */
  lemma DigitsRun(n: nat)
    ensures Run(Digits(n), IsDigit) == |Digits(n)|
  {
    DigitsValueOfDigits(n);
  }

  /** `strtoll` reads the digits of a non-negative number back whole. */
  lemma StrtollDigits(m: nat)
    ensures Strtoll(Digits(m)) == Parsed(m, |Digits(m)|, m > Int64Max)
  {
    var ds := Digits(m);
    DigitsValueOfDigits(m);
    DigitsRun(m);
    assert IsDigit(ds[0]);
    assert Run(ds, IsSpace) == 0;
    assert ds[0..] == ds;
    assert ds[..|ds|] == ds;
  }

  /** `strtoll` reads a minus sign and the digits of a number back as its negation. */
  lemma StrtollNegated(m: nat)
    ensures Strtoll("-" + Digits(m)) == Parsed(-(m as int), 1 + |Digits(m)|, -(m as int) < Int64Min)
  {
    var ds := Digits(m);
    var s := "-" + ds;
    DigitsValueOfDigits(m);
    DigitsRun(m);
    assert s[0] == '-';
    assert Run(s, IsSpace) == 0;
    assert s[0..] == s;
    assert s[1..] == ds;
    assert ds[..|ds|] == ds;
  }

  /** An id the profiler prints in its URLs reads back as the same id. */
  lemma ExtractPrintedId(n: int)
    requires Int64Min <= n <= Int64Max
    ensures ExtractId(Some(Decimal(n))) == Id(n)
  {
    if n < 0 {
      StrtollNegated(-n);
    } else {
      StrtollDigits(n);
    }
  }

  /** The two inputs that are not a plain number. */
  lemma ExtractOddIds()
    ensures ExtractId(Some("")) == Id(0)
    ensures ExtractId(Some("12x")) == BadId(GarbageError)
  {
    var s := "12x";
    assert Run(s, IsSpace) == 0;
    assert s[0..] == s;
    assert Run(s, IsDigit) == 2 by {
      assert Run(s[2..], IsDigit) == 0;
      assert s[1..][1..] == s[2..];
    }
    assert s[0..][..2] == "12" && "12"[..1] == "1" && "1"[..0] == "";
    assert DigitsValue("12") == 12;
    assert Strtoll(s).consumed == 2;
  }

  // ---------------------------------------------------------------------
  // Files on disk

  const RawProfileFilename := "profile.dump"
  const SymbolizedProfileFilename := "symbolized-profile.dump"
  const GraphFilename := "profile.svg"
  const NotYetGenerated := "Not yet generated."

  /** `path::join` of a directory and a file name. */
  function JoinPath(directory: string, filename: string): (p: string)
    ensures |p| > |filename|
  {
    if directory != [] && directory[|directory| - 1] == '/' then directory + filename
    else directory + "/" + filename
  }

  /**
   * `DiskArtifact::path` as written: when the temporary directory cannot be
   * made, its error message is returned as a path, so the lookup never
   * fails.
   */
  function PathAsWritten(tmpdir: Result<string, string>, filename: string): (r: Result<string, string>)
    ensures r.Ok?
  {
    if tmpdir.Err? then Ok(tmpdir.error) else Ok(JoinPath(tmpdir.value, filename))
  }

  /** A directory that cannot be made turns into a path named after the error. */
  lemma PathErrorBecomesPath(error: string, filename: string)
    ensures PathAsWritten(Err(error), filename) == Ok(error)
    ensures GenerationAsWritten(Err(NotYetGenerated), 1, Err(error), filename, (p: string) => Ok(())) == (Ok(1), Ok(()))
  {
  }

  /** `DiskArtifact::path` as intended: the file in the temporary directory, or why there is none. */
  function Path(tmpdir: Result<string, string>, filename: string): (r: Result<string, string>)
    ensures r.Err? <==> tmpdir.Err?
    ensures r.Err? ==> r.error == tmpdir.error
    ensures r.Ok? ==> r.value == JoinPath(tmpdir.value, filename)
  {
    if tmpdir.Err? then Err(tmpdir.error) else Ok(JoinPath(tmpdir.value, filename))
  }

  /**
   * `DiskArtifact::generate` as written, with `PathAsWritten`: the new id and
   * the result.
   */
  function GenerationAsWritten(
    id: Result<int, string>, requested: int, tmpdir: Result<string, string>, filename: string,
    generator: string -> Result<(), string>): (r: (Result<int, string>, Result<(), string>))
    ensures r.1.Ok? <==> r.0 == Ok(requested)
  {
    if id == Ok(requested) then (id, Ok(()))
    else
      var path := PathAsWritten(tmpdir, filename);
      var result := generator(path.value);
      if result.Err? then (Err(result.error), result) else (Ok(requested), Ok(()))
  }

  /**
   * `DiskArtifact::generate`: nothing to do when the file for `requested` is
   * already there; otherwise run the generator on the file's path and record
   * the id it now holds, or the error that left it unusable.
   */
  function Generation(
    id: Result<int, string>, requested: int, tmpdir: Result<string, string>, filename: string,
    generator: string -> Result<(), string>): (r: (Result<int, string>, Result<(), string>))
    ensures r.1.Ok? <==> r.0 == Ok(requested)
    ensures id == Ok(requested) ==> r == (id, Ok(()))
    ensures id != Ok(requested) && tmpdir.Err? ==> r == (id, Err("Could not determine target path: " + tmpdir.error))
    ensures id != Ok(requested) && tmpdir.Ok? && generator(JoinPath(tmpdir.value, filename)).Err? ==>
      r.0 == Err(generator(JoinPath(tmpdir.value, filename)).error) && r.1 == Err(generator(JoinPath(tmpdir.value, filename)).error)
  {
    if id == Ok(requested) then (id, Ok(()))
    else
      var path := Path(tmpdir, filename);
      if path.Err? then (id, Err("Could not determine target path: " + path.error))
      else
        var result := generator(path.value);
        if result.Err? then (Err(result.error), result) else (Ok(requested), Ok(()))
  }

  /** Generating the same id again is a no-op that succeeds, whatever the generator would do. */
  lemma GenerateIdempotent(
    id: Result<int, string>, requested: int, tmpdir: Result<string, string>, filename: string,
    first: string -> Result<(), string>, second: string -> Result<(), string>)
    requires Generation(id, requested, tmpdir, filename, first).1.Ok?
    ensures Generation(Generation(id, requested, tmpdir, filename, first).0, requested, tmpdir, filename, second) ==
      (Ok(requested), Ok(()))
  {
  }

  /** `DiskArtifact`: a file generated on demand and the id it holds, or why it is unusable. */
  class DiskArtifact {
    const filename: string
    var id: Result<int, string>

    constructor (filename: string)
      ensures this.filename == filename && id == Err(NotYetGenerated)
    {
      this.filename := filename;
      id := Err(NotYetGenerated);
    }

    method Generate(requested: int, tmpdir: Result<string, string>, generator: string -> Result<(), string>)
      returns (r: Result<(), string>)
      modifies this
      ensures (id, r) == Generation(old(id), requested, tmpdir, filename, generator)
    {
      if id == Ok(requested) {
        return Ok(());
      }
      var path := Path(tmpdir, filename);
      if path.Err? {
        return Err("Could not determine target path: " + path.error);
      }
      r := generator(path.value);
      if r.Err? {
        id := Err(r.error);
        return;
      }
      id := Ok(requested);
      r := Ok(());
    }
  }

  // ---------------------------------------------------------------------
  // Endpoints

  /** The id of a profiling run and the time left on its timer. */
  datatype ProfilingRun = ProfilingRun(id: int, remaining: nat)

  datatype Response =
    | JemallocNotDetected
    | ProfilingNotEnabled
    | BadRequest(message: string)
    /** The duration could not be parsed or is out of range (a bad request). */
    | InvalidDuration(error: DurationError)
    | Conflict(message: string)
    | Started(id: int, remainingSeconds: nat, alreadyActive: bool)
    | Stopped(id: int)
    /** The artifact's file is served (`DiskArtifact::asHttp`). */
    | Serve(filename: string)

  /** The `current_run` object of `state`: `None` is a null id. */
  datatype RunInformation = RunInformation(id: int, remaining: nat)

  const NotStartedByLibprocess :=
    "Profiling is active, but was not started by libprocess. Accessing the raw profile through libprocess is currently not supported."
  const UnexpectedlyInactive :=
    "Memory profiling unexpectedly inactive; not dumping profile. Ensure nothing else is interfacing with jemalloc in this process."
  const OutdatedVersion := "Requested outdated version."

  /** `generateJeprofFile`: jeprof on the input file, unless the input path is unknown. */
  function JeprofFile(
    jeprof: (string, string, string) -> Result<(), string>,
    input: Result<string, string>, options: string, output: string): Result<(), string>
  {
    if input.Err? then Err("Cannot read input file: " + input.error) else jeprof(input.value, options, output)
  }

  /** The generator the text and graph endpoints give their artifact. */
  function JeprofGenerator(
    jeprof: (string, string, string) -> Result<(), string>, requested: int, rawId: int,
    input: Result<string, string>, options: string): string -> Result<(), string>
  {
    (output: string) => if requested != rawId then Err(OutdatedVersion) else JeprofFile(jeprof, input, options, output)
  }

  /** `MemoryProfiler`: the current run, its three artifacts, and the ids of every run started. */
  class Profiler {
    var currentRun: Option<ProfilingRun>
    const raw: DiskArtifact
    const symbolized: DiskArtifact
    const graph: DiskArtifact
    /** Every run id `start` has handed out. */
    ghost var startedIds: set<int>

    ghost predicate Valid()
      reads this, raw
    {
      raw != symbolized && raw != graph && symbolized != graph &&
      raw.filename == RawProfileFilename &&
      symbolized.filename == SymbolizedProfileFilename &&
      graph.filename == GraphFilename &&
      (currentRun.Some? ==> currentRun.value.id in startedIds) &&
      (raw.id.Ok? ==> raw.id.value in startedIds)
    }

    constructor ()
      ensures Valid()
      ensures currentRun == None && raw.id == Err(NotYetGenerated)
      ensures symbolized.id == Err(NotYetGenerated) && graph.id == Err(NotYetGenerated)
      ensures fresh(raw) && fresh(symbolized) && fresh(graph)
    {
      currentRun := None;
      raw := new DiskArtifact(RawProfileFilename);
      symbolized := new DiskArtifact(SymbolizedProfileFilename);
      graph := new DiskArtifact(GraphFilename);
      startedIds := {};
    }

    /**
     * The `current_run` of `state`: the current run when there is one, else
     * the raw profile's run with no time left, else a null id.
     */
    function CurrentRunInformation(): (info: Option<RunInformation>)
      reads this, raw
      ensures currentRun.Some? ==> info == Some(RunInformation(currentRun.value.id, currentRun.value.remaining))
      ensures currentRun.None? && raw.id.Ok? ==> info == Some(RunInformation(raw.id.value, 0))
      ensures info.None? <==> currentRun.None? && raw.id.Err?
      ensures Valid() && info.Some? ==> info.value.id in startedIds
    {
      if currentRun.Some? then Some(RunInformation(currentRun.value.id, currentRun.value.remaining))
      else if raw.id.Ok? then Some(RunInformation(raw.id.value, 0))
      else None
    }

    /**
     * `start`: with jemalloc present and a valid duration, ask jemalloc to
     * start profiling; when it was not active yet, a new run with id `now`
     * begins; an active profile with no run of ours is a conflict.
     */
    method Start(detected: bool, duration: Option<Result<int, string>>, wasActive: Result<bool, string>, now: int)
      returns (response: Response)
      requires Valid()
      modifies this
      ensures Valid()
      ensures !detected ==> response == JemallocNotDetected && currentRun == old(currentRun)
      ensures detected && CollectionTime(duration).Err? ==>
        response == InvalidDuration(CollectionTime(duration).error) && currentRun == old(currentRun)
      ensures detected && CollectionTime(duration).Ok? && wasActive.Err? ==>
        response == ProfilingNotEnabled && currentRun == old(currentRun)
      ensures detected && CollectionTime(duration).Ok? && wasActive == Ok(false) ==>
        currentRun == Some(ProfilingRun(now, CollectionTime(duration).value)) &&
        response == Started(now, RoundedSeconds(CollectionTime(duration).value), false)
      ensures detected && CollectionTime(duration).Ok? && wasActive == Ok(true) ==>
        currentRun == old(currentRun) &&
        response == (if currentRun.None? then Conflict("Heap profiling was started externally.")
                     else Started(currentRun.value.id, RoundedSeconds(currentRun.value.remaining), true))
      ensures startedIds == old(startedIds) + (if currentRun != old(currentRun) then {now} else {})
    {
      if !detected {
        return JemallocNotDetected;
      }
      var collection := CollectionTime(duration);
      if collection.Err? {
        return InvalidDuration(collection.error);
      }
      if wasActive.Err? {
        return ProfilingNotEnabled;
      }
      if !wasActive.value {
        currentRun := Some(ProfilingRun(now, collection.value));
        startedIds := startedIds + {now};
      }
      if currentRun.None? {
        return Conflict("Heap profiling was started externally.");
      }
      response := Started(currentRun.value.id, RoundedSeconds(currentRun.value.remaining), wasActive.value);
    }

    /**
     * `stopAndGenerateRawProfile`: with no run, the raw profile's id as it
     * is; when jemalloc will not stop, the run goes on five seconds longer;
     * otherwise the run ends and its profile is dumped into the raw artifact
     * by `dump`.
     */
    method StopAndGenerateRawProfile(stopped: Result<bool, string>, tmpdir: Result<string, string>, dump: string -> Result<(), string>)
      returns (r: Result<int, string>)
      requires Valid()
      modifies this, raw
      ensures Valid() && startedIds == old(startedIds)
      ensures old(currentRun).None? ==> r == old(raw.id) && currentRun == None && raw.id == old(raw.id)
      ensures old(currentRun).Some? && stopped.Err? ==>
        r == Err(stopped.error) && raw.id == old(raw.id) &&
        currentRun == Some(old(currentRun).value.(remaining := old(currentRun).value.remaining + StopRetryDelay))
      ensures old(currentRun).Some? && stopped == Ok(false) ==>
        r == Err(UnexpectedlyInactive) && currentRun == None && raw.id == old(raw.id)
      ensures old(currentRun).Some? && stopped == Ok(true) ==>
        var generated := Generation(old(raw.id), old(currentRun).value.id, tmpdir, RawProfileFilename, dump);
        currentRun == None && raw.id == generated.0 &&
        r == (if generated.1.Err? then Err("Could not dump profile: " + generated.1.error) else Ok(old(currentRun).value.id))
      ensures r.Ok? ==> r.value in startedIds && raw.id == r
    {
      if currentRun.None? {
        return raw.id;
      }
      if stopped.Err? {
        currentRun := Some(currentRun.value.(remaining := currentRun.value.remaining + StopRetryDelay));
        return Err(stopped.error);
      }
      var runId := currentRun.value.id;
      currentRun := None;
      if !stopped.value {
        return Err(UnexpectedlyInactive);
      }
      var generated := raw.Generate(runId, tmpdir, dump);
      if generated.Err? {
        return Err("Could not dump profile: " + generated.error);
      }
      r := Ok(runId);
    }

    /**
     * `stop`: end the run of ours and report the id of the profile dumped;
     * a failure of jemalloc or of the dump is a bad request. `active` is what
     * `profilingActive` answers: a plain flag, false also when jemalloc's
     * setting cannot be read, so the source's check of it for an error never
     * fires.
     */
    method Stop(detected: bool, active: bool, stopped: Result<bool, string>,
                tmpdir: Result<string, string>, dump: string -> Result<(), string>)
      returns (response: Response)
      requires Valid()
      modifies this, raw
      ensures Valid() && startedIds == old(startedIds)
      ensures !detected ==> response == JemallocNotDetected && currentRun == old(currentRun) && raw.id == old(raw.id)
      ensures detected && old(currentRun).None? && active ==>
        response == BadRequest(NotStartedByLibprocess) && currentRun == None && raw.id == old(raw.id)
      ensures detected && old(currentRun).None? && !active ==>
        currentRun == None && raw.id == old(raw.id) &&
        response == if old(raw.id).Ok? then Stopped(old(raw.id).value) else BadRequest(old(raw.id).error)
      ensures detected && old(currentRun).Some? && stopped.Err? ==>
        response == BadRequest(stopped.error) && raw.id == old(raw.id) &&
        currentRun == Some(old(currentRun).value.(remaining := old(currentRun).value.remaining + StopRetryDelay))
      ensures detected && old(currentRun).Some? && stopped == Ok(false) ==>
        response == BadRequest(UnexpectedlyInactive) && currentRun == None && raw.id == old(raw.id)
      ensures detected && old(currentRun).Some? && stopped == Ok(true) ==>
        var generated := Generation(old(raw.id), old(currentRun).value.id, tmpdir, RawProfileFilename, dump);
        currentRun == None && raw.id == generated.0 &&
        response == (if generated.1.Err? then BadRequest("Could not dump profile: " + generated.1.error)
                     else Stopped(old(currentRun).value.id))
      ensures response.Stopped? ==> response.id in startedIds && raw.id == Ok(response.id)
    {
      if !detected {
        return JemallocNotDetected;
      }
      if currentRun.None? && active {
        return BadRequest(NotStartedByLibprocess);
      }
      var generated := StopAndGenerateRawProfile(stopped, tmpdir, dump);
      if generated.Err? {
        return BadRequest(generated.error);
      }
      response := Stopped(generated.value);
    }

    /**
     * `downloadRaw`: the raw profile, unless the id parameter is bad, there
     * is no raw profile, or an id is asked for that is not the raw profile's.
     */
    method DownloadRaw(idParameter: Option<string>) returns (response: Response)
      requires Valid()
      ensures var requested := ExtractId(idParameter);
        response == Serve(RawProfileFilename) <==> !requested.BadId? && raw.id.Ok? && (requested.Id? ==> requested.value == raw.id.value)
      ensures ExtractId(idParameter).BadId? ==> response == BadRequest("Invalid parameter 'id': " + ExtractId(idParameter).error)
      ensures !ExtractId(idParameter).BadId? && raw.id.Err? ==> response == BadRequest("No heap profile exists: " + raw.id.error)
    {
      var requested := ExtractId(idParameter);
      if requested.BadId? {
        return BadRequest("Invalid parameter 'id': " + requested.error);
      }
      if raw.id.Err? {
        return BadRequest("No heap profile exists: " + raw.id.error);
      }
      if requested.Id? && requested.value != raw.id.value {
        return BadRequest("Cannot serve requested id #" + Decimal(requested.value));
      }
      response := Serve(raw.filename);
    }

    /**
     * `downloadGraph`: the graph of the raw profile, generated unless it is
     * already there for the raw profile's id; an explicit outdated id fails
     * only when the graph has to be generated.
     */
    method DownloadGraph(idParameter: Option<string>, tmpdir: Result<string, string>, jeprof: (string, string, string) -> Result<(), string>)
      returns (response: Response)
      requires Valid()
      modifies graph
      ensures Valid()
      ensures ExtractId(idParameter).BadId? || raw.id.Err? ==> graph.id == old(graph.id) && response.BadRequest?
      ensures !ExtractId(idParameter).BadId? && raw.id.Ok? ==>
        var requested := if ExtractId(idParameter).Id? then ExtractId(idParameter).value else raw.id.value;
        var generated := Generation(old(graph.id), raw.id.value, tmpdir, GraphFilename,
          JeprofGenerator(jeprof, requested, raw.id.value, Path(tmpdir, RawProfileFilename), "--svg"));
        graph.id == generated.0 &&
        response == (if generated.1.Err? then BadRequest("Could not generate file: " + generated.1.error) else Serve(GraphFilename))
    {
      var requested := ExtractId(idParameter);
      if requested.BadId? {
        return BadRequest("Invalid parameter 'id': " + requested.error);
      }
      if raw.id.Err? {
        return BadRequest("No source profile exists: " + raw.id.error);
      }
      var rawId := raw.id.value;
      var requestedId := if requested.Id? then requested.value else rawId;
      var result := graph.Generate(rawId, tmpdir, JeprofGenerator(jeprof, requestedId, rawId, Path(tmpdir, raw.filename), "--svg"));
      if result.Err? {
        return BadRequest("Could not generate file: " + result.error);
      }
      response := Serve(graph.filename);
    }

    /**
     * `downloadTextProfile` as written: the symbolized profile is generated
     * for the requested id from its own file instead of the raw profile,
     * and the graph is what gets served.
     */
    method DownloadTextProfile(idParameter: Option<string>, tmpdir: Result<string, string>, jeprof: (string, string, string) -> Result<(), string>)
      returns (response: Response)
      requires Valid()
      modifies symbolized
      ensures Valid()
      ensures ExtractId(idParameter).BadId? || raw.id.Err? ==> symbolized.id == old(symbolized.id) && response.BadRequest?
      ensures !ExtractId(idParameter).BadId? && raw.id.Ok? ==>
        var requested := if ExtractId(idParameter).Id? then ExtractId(idParameter).value else raw.id.value;
        var generated := Generation(old(symbolized.id), requested, tmpdir, SymbolizedProfileFilename,
          JeprofGenerator(jeprof, requested, raw.id.value, Path(tmpdir, SymbolizedProfileFilename), "--text"));
        symbolized.id == generated.0 &&
        response == (if generated.1.Err? then BadRequest("Could not generate file: " + generated.1.error) else Serve(GraphFilename))
    {
      var requested := ExtractId(idParameter);
      if requested.BadId? {
        return BadRequest("Invalid parameter 'id': " + requested.error);
      }
      if raw.id.Err? {
        return BadRequest("No source profile exists: " + raw.id.error);
      }
      var rawId := raw.id.value;
      var requestedId := if requested.Id? then requested.value else rawId;
      var result := symbolized.Generate(requestedId, tmpdir,
        JeprofGenerator(jeprof, requestedId, rawId, Path(tmpdir, symbolized.filename), "--text"));
      if result.Err? {
        return BadRequest("Could not generate file: " + result.error);
      }
      response := Serve(graph.filename);
    }

    /**
     * `downloadTextProfile` as intended: the symbolized profile, generated
     * from the raw profile, is what gets served.
     */
    method DownloadTextProfileIntended(idParameter: Option<string>, tmpdir: Result<string, string>, jeprof: (string, string, string) -> Result<(), string>)
      returns (response: Response)
      requires Valid()
      modifies symbolized
      ensures Valid()
      ensures ExtractId(idParameter).BadId? || raw.id.Err? ==> symbolized.id == old(symbolized.id) && response.BadRequest?
      ensures !ExtractId(idParameter).BadId? && raw.id.Ok? ==>
        var requested := if ExtractId(idParameter).Id? then ExtractId(idParameter).value else raw.id.value;
        var generated := Generation(old(symbolized.id), requested, tmpdir, SymbolizedProfileFilename,
          JeprofGenerator(jeprof, requested, raw.id.value, Path(tmpdir, RawProfileFilename), "--text"));
        symbolized.id == generated.0 &&
        response == (if generated.1.Err? then BadRequest("Could not generate file: " + generated.1.error) else Serve(SymbolizedProfileFilename))
      ensures response.Serve? ==> response.filename == SymbolizedProfileFilename && symbolized.id.Ok?
    {
      var requested := ExtractId(idParameter);
      if requested.BadId? {
        return BadRequest("Invalid parameter 'id': " + requested.error);
      }
      if raw.id.Err? {
        return BadRequest("No source profile exists: " + raw.id.error);
      }
      var rawId := raw.id.value;
      var requestedId := if requested.Id? then requested.value else rawId;
      var result := symbolized.Generate(requestedId, tmpdir,
        JeprofGenerator(jeprof, requestedId, rawId, Path(tmpdir, raw.filename), "--text"));
      if result.Err? {
        return BadRequest("Could not generate file: " + result.error);
      }
      response := Serve(symbolized.filename);
    }
  }

  /**
   * As written, the text endpoint's generator hands jeprof the symbolized
   * artifact's own output path as its input: generating the profile for the
   * raw profile's id is jeprof reading the very file it is asked to write.
   */
  lemma TextProfileReadsItsOutput(
    jeprof: (string, string, string) -> Result<(), string>, id: Result<int, string>, rawId: int, directory: string)
    requires id != Ok(rawId)
    ensures var output := JoinPath(directory, SymbolizedProfileFilename);
      var generator := JeprofGenerator(jeprof, rawId, rawId, Path(Ok(directory), SymbolizedProfileFilename), "--text");
      Generation(id, rawId, Ok(directory), SymbolizedProfileFilename, generator).1 ==
        if jeprof(output, "--text", output).Err? then jeprof(output, "--text", output) else Ok(())
  {
  }
}
