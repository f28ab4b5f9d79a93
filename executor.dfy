/**
 * The executor driver (`src/exec/exec.cpp`): the status machine of
 * `MesosExecutorDriver` and the state the `ExecutorProcess` message handlers
 * keep, above all the unacknowledged status updates and tasks it re-sends
 * when the agent asks it to reconnect.
 *
 * Each handler runs as one atomic step. The driver and its process are one
 * object here: the process exists (`started`) once `start` has run. Fresh
 * UUIDs come from a counter; the executor's callbacks and the messages sent
 * to the agent are logs.
 */
module Executor {
  import opened Wrappers

  // ---------------------------------------------------------------------
  // The driver status machine

  datatype DriverStatus = DRIVER_NOT_STARTED | DRIVER_RUNNING | DRIVER_ABORTED | DRIVER_STOPPED

  /** The driver calls that look at the status. */
  datatype DriverCall = Start | Stop | Abort | SendStatusUpdate | SendFrameworkMessage

  /**
   * The status after `call` and the status the call returns. Start acts only
   * on a driver not started yet, stop only on a running or aborted one, abort
   * only on a running one; sending never changes the status.
   */
  function Step(status: DriverStatus, call: DriverCall): (r: (DriverStatus, DriverStatus))
    ensures status == DRIVER_STOPPED ==> r == (status, status)
    ensures r.0 == DRIVER_NOT_STARTED ==> status == DRIVER_NOT_STARTED
    ensures r.0 == DRIVER_RUNNING ==> status == DRIVER_RUNNING || (status == DRIVER_NOT_STARTED && call == Start)
    ensures r.0 == DRIVER_ABORTED ==> status == DRIVER_ABORTED || (status == DRIVER_RUNNING && call == Abort)
    ensures r.0 == DRIVER_STOPPED ==> status == DRIVER_STOPPED || call == Stop
    ensures r.1 == r.0 || (call == Stop && status == DRIVER_ABORTED && r == (DRIVER_STOPPED, DRIVER_ABORTED))
    ensures (call == SendStatusUpdate || call == SendFrameworkMessage) ==> r.0 == status
    ensures call == Start && status == DRIVER_NOT_STARTED ==> r.0 == DRIVER_RUNNING
    ensures call == Stop && (status == DRIVER_RUNNING || status == DRIVER_ABORTED) ==> r.0 == DRIVER_STOPPED
  {
    match call
    case Start =>
      if status != DRIVER_NOT_STARTED then (status, status) else (DRIVER_RUNNING, DRIVER_RUNNING)
    case Stop =>
      if status != DRIVER_RUNNING && status != DRIVER_ABORTED then (status, status)
      else (DRIVER_STOPPED, if status == DRIVER_ABORTED then DRIVER_ABORTED else DRIVER_STOPPED)
    case Abort =>
      if status != DRIVER_RUNNING then (status, status) else (DRIVER_ABORTED, DRIVER_ABORTED)
    case SendStatusUpdate => (status, status)
    case SendFrameworkMessage => (status, status)
  }

  /** The status after a sequence of driver calls. */
  function Run(status: DriverStatus, calls: seq<DriverCall>): DriverStatus
    decreases |calls|
  {
    if calls == [] then status else Run(Step(status, calls[0]).0, calls[1..])
  }

  /** A stopped driver stays stopped, whatever is called on it. */
  lemma {:induction false} StoppedIsFinal(calls: seq<DriverCall>)
    ensures Run(DRIVER_STOPPED, calls) == DRIVER_STOPPED
    decreases |calls|
  {
    if calls != [] {
      StoppedIsFinal(calls[1..]);
    }
  }

  /** An aborted driver can only be stopped: it never runs again. */
  lemma {:induction false} AbortedOnlyStops(calls: seq<DriverCall>)
    ensures Run(DRIVER_ABORTED, calls) in {DRIVER_ABORTED, DRIVER_STOPPED}
    decreases |calls|
  {
    if calls != [] {
      if Step(DRIVER_ABORTED, calls[0]).0 == DRIVER_STOPPED {
        StoppedIsFinal(calls[1..]);
      } else {
        AbortedOnlyStops(calls[1..]);
      }
    }
  }

  /** Once started, a driver never goes back to not started. */
  lemma {:induction false} NeverRestarts(status: DriverStatus, calls: seq<DriverCall>)
    requires status != DRIVER_NOT_STARTED
    ensures Run(status, calls) != DRIVER_NOT_STARTED
    decreases |calls|
  {
    if calls != [] {
      NeverRestarts(Step(status, calls[0]).0, calls[1..]);
    }
  }

  /**
   * `stop` as written, given whether the process exists: `None` when
   * `CHECK(process != NULL)` fails and the program aborts. A driver whose
   * logging flags fail to load is aborted by its constructor before any
   * process exists, so stopping it aborts the program.
   */
  function StopAsWritten(status: DriverStatus, started: bool): (r: Option<(DriverStatus, DriverStatus)>)
    ensures r.None? <==> (status == DRIVER_RUNNING || status == DRIVER_ABORTED) && !started
    ensures r.Some? ==> r.value == Step(status, DriverCall.Stop)
  {
    if status != DRIVER_RUNNING && status != DRIVER_ABORTED then Some((status, status))
    else if !started then None
    else Some(Step(status, DriverCall.Stop))
  }

  /**
   * The driver the constructor aborts after a flag-load failure has no
   * process: as written `stop` aborts the program on it, while the status
   * machine says it becomes stopped and reports the abort.
   */
  lemma StopAfterLoadFailure()
    ensures StopAsWritten(DRIVER_ABORTED, false).None?
    ensures Step(DRIVER_ABORTED, DriverCall.Stop) == (DRIVER_STOPPED, DRIVER_ABORTED)
  {
  }


  // ---------------------------------------------------------------------
  // Insertion-ordered maps (`LinkedHashMap`) as sequences of entries

  datatype Entry<K, V> = Entry(key: K, value: V)

  predicate HasKey<K(==), V>(m: seq<Entry<K, V>>, k: K)
  {
    exists i :: 0 <= i < |m| && m[i].key == k
  }

  /** No key appears twice. */
  predicate DistinctKeys<K(==), V>(m: seq<Entry<K, V>>)
  {
    forall i, j :: 0 <= i < j < |m| ==> m[i].key != m[j].key
  }

  /** `m[k] = v`: a known key keeps its place and takes the new value; a new key goes last. */
  function Put<K(==), V>(m: seq<Entry<K, V>>, k: K, v: V): seq<Entry<K, V>>
    decreases |m|
  {
    if m == [] then [Entry(k, v)]
    else if m[0].key == k then [Entry(k, v)] + m[1..]
    else [m[0]] + Put(m[1..], k, v)
  }

  /** `erase(k)`: the entries under other keys, in their order. */
  function Erase<K(==), V>(m: seq<Entry<K, V>>, k: K): seq<Entry<K, V>>
    decreases |m|
  {
    if m == [] then []
    else (if m[0].key == k then [] else [m[0]]) + Erase(m[1..], k)
  }

  /** The values in insertion order (`values()`). */
  function Values<K, V>(m: seq<Entry<K, V>>): (vs: seq<V>)
    ensures |vs| == |m|
    ensures forall i :: 0 <= i < |m| ==> vs[i] == m[i].value
  {
    seq(|m|, i requires 0 <= i < |m| => m[i].value)
  }

  /** Putting a new key appends its entry. */
  lemma {:induction false} PutFresh<K, V>(m: seq<Entry<K, V>>, k: K, v: V)
    requires !HasKey(m, k)
    ensures Put(m, k, v) == m + [Entry(k, v)]
    decreases |m|
  {
    if m != [] {
      assert !HasKey(m[1..], k) by {
        forall i | 0 <= i < |m| - 1 ensures m[1..][i].key != k {
          assert m[1..][i] == m[i + 1];
        }
      }
      PutFresh(m[1..], k, v);
      assert m == [m[0]] + m[1..];
    }
  }

  /** Appending an entry under a new key keeps the keys distinct. */
  lemma AppendFreshDistinct<K, V>(m: seq<Entry<K, V>>, k: K, v: V)
    requires DistinctKeys(m) && !HasKey(m, k)
    ensures DistinctKeys(m + [Entry(k, v)])
  {
    var r := m + [Entry(k, v)];
    forall i, j | 0 <= i < j < |r| ensures r[i].key != r[j].key {
      if j == |m| {
        assert r[i] == m[i] && m[i] in m;
      }
    }
  }

  /** `erase(k)` removes exactly the entries under `k`. */
  lemma {:induction false} EraseMembers<K, V>(m: seq<Entry<K, V>>, k: K)
    ensures forall e :: e in Erase(m, k) <==> e in m && e.key != k
    decreases |m|
  {
    if m != [] {
      EraseMembers(m[1..], k);
      assert forall e :: e in m <==> e == m[0] || e in m[1..];
    }
  }

  /** A key no entry has is not the key of any entry left by `erase`. */
  lemma {:induction false} EraseAvoids<K, V>(m: seq<Entry<K, V>>, k: K, x: K)
    requires forall i :: 0 <= i < |m| ==> m[i].key != x
    ensures forall i :: 0 <= i < |Erase(m, k)| ==> Erase(m, k)[i].key != x
    decreases |m|
  {
    if m != [] {
      EraseAvoids(m[1..], k, x);
    }
  }

  /** `erase` keeps the keys distinct. */
  lemma {:induction false} EraseDistinct<K, V>(m: seq<Entry<K, V>>, k: K)
    requires DistinctKeys(m)
    ensures DistinctKeys(Erase(m, k))
    decreases |m|
  {
    if m != [] {
      var tail := m[1..];
      assert DistinctKeys(tail) by {
        forall i, j | 0 <= i < j < |tail| ensures tail[i].key != tail[j].key {
          assert tail[i] == m[i + 1] && tail[j] == m[j + 1];
        }
      }
      EraseDistinct(tail, k);
      if m[0].key != k {
        assert forall i :: 0 <= i < |tail| ==> tail[i].key != m[0].key by {
          forall i | 0 <= i < |tail| ensures tail[i].key != m[0].key {
            assert tail[i] == m[i + 1];
          }
        }
        EraseAvoids(tail, k, m[0].key);
        var rest := Erase(tail, k);
        var r := [m[0]] + rest;
        forall i, j | 0 <= i < j < |r| ensures r[i].key != r[j].key {
          assert r[j] == rest[j - 1];
          if i > 0 {
            assert r[i] == rest[i - 1];
          }
        }
      }
    }
  }

  /** Erasing a key that was just put under a new key gives the map back. */
  lemma {:induction false} EraseAfterPut<K, V>(m: seq<Entry<K, V>>, k: K, v: V)
    requires !HasKey(m, k)
    ensures Erase(Put(m, k, v), k) == m
    decreases |m|
  {
    if m == [] {
      assert Erase([Entry(k, v)], k) == [] + Erase([Entry(k, v)][1..], k);
    } else {
      assert !HasKey(m[1..], k) by {
        forall i | 0 <= i < |m| - 1 ensures m[1..][i].key != k {
          assert m[1..][i] == m[i + 1];
        }
      }
      EraseAfterPut(m[1..], k, v);
      assert m == [m[0]] + m[1..];
    }
  }

  /** Erasing an absent key changes nothing. */
  lemma {:induction false} EraseAbsent<K, V>(m: seq<Entry<K, V>>, k: K)
    requires !HasKey(m, k)
    ensures Erase(m, k) == m
    decreases |m|
  {
    if m != [] {
      assert !HasKey(m[1..], k) by {
        forall i | 0 <= i < |m| - 1 ensures m[1..][i].key != k {
          assert m[1..][i] == m[i + 1];
        }
      }
      EraseAbsent(m[1..], k);
      assert m == [m[0]] + m[1..];
    }
  }

  // ---------------------------------------------------------------------
  // Messages, updates and callbacks

  datatype TaskState =
    | TASK_STAGING | TASK_STARTING | TASK_RUNNING | TASK_KILLING | TASK_FINISHED
    | TASK_FAILED | TASK_KILLED | TASK_ERROR | TASK_LOST

  datatype TaskStatus = TaskStatus(taskId: string, state: TaskState)

  datatype TaskInfo = TaskInfo(taskId: string, name: string)

  /** A status update as sent to the agent, under its UUID. */
  datatype StatusUpdate = StatusUpdate(status: TaskStatus, uuid: nat)

  /** Messages to the agent. */
  datatype Message =
    | RegisterExecutor
    | ReregisterExecutor(updates: seq<StatusUpdate>, tasks: seq<TaskInfo>)
    | StatusUpdateMessage(update: StatusUpdate)
    | ExecutorToFramework(data: string)

  /** Calls into the framework's `Executor`. */
  datatype Callback =
    | Registered
    | Reregistered
    | LaunchTask(task: TaskInfo)
    | KillTask(taskId: string)
    | FrameworkMessage(data: string)
    | Shutdown
    | Error(message: string)

  const StagingError: string := "Attempted to send TASK_STAGING status update"

  /** Every timer below a bound is below any larger bound. */
  lemma TimersBelow(timers: seq<nat>, bound: nat, larger: nat)
    requires forall c :: c in timers ==> c < bound
    requires bound <= larger
    ensures forall c :: c in timers ==> c < larger
  {
  }

  /** A timer below the bound keeps every timer below it. */
  lemma TimerAdded(timers: seq<nat>, timer: nat, bound: nat)
    requires forall c :: c in timers ==> c < bound
    requires timer < bound
    ensures forall c :: c in timers + [timer] ==> c < bound
  {
  }

  /** `MesosExecutorDriver` together with its `ExecutorProcess`. */
  class ExecutorDriver {
    var status: DriverStatus
    /** The process has been created (`process != NULL`). */
    var started: bool
    var local: bool
    var checkpoint: bool
    var aborted: bool
    /** Registered with the agent. */
    var connected: bool
    /** The UUID of the current connection. */
    var connection: nat
    /** Unacknowledged status updates, by UUID. */
    var updates: seq<Entry<nat, StatusUpdate>>
    /** Unacknowledged tasks, by task id. */
    var tasks: seq<Entry<string, TaskInfo>>
    var sent: seq<Message>
    var callbacks: seq<Callback>
    /** The connection UUID of every scheduled `_recoveryTimeout`. */
    var recoveryTimers: seq<nat>
    /** A `ShutdownProcess` was spawned. */
    var shutdownSpawned: bool
    /** The process was terminated. */
    var terminated: bool
    /** The next fresh UUID. */
    var nextUuid: nat

    ghost predicate Valid()
      reads this
    {
      (status == DRIVER_NOT_STARTED ==> !started) &&
      (status == DRIVER_RUNNING ==> started) &&
      (status == DRIVER_ABORTED && started ==> aborted) &&
      (!started ==> !aborted && !connected && updates == [] && tasks == [] && !shutdownSpawned) &&
      DistinctKeys(updates) && DistinctKeys(tasks) &&
      (forall e :: e in updates ==> e.key < nextUuid && e.value.uuid == e.key && e.value.status.state != TASK_STAGING) &&
      (forall e :: e in tasks ==> e.value.taskId == e.key) &&
      connection < nextUuid &&
      (forall c :: c in recoveryTimers ==> c < nextUuid) &&
      (shutdownSpawned ==> aborted && !local)
    }

    /**
     * The constructor: a driver whose logging flags fail to load is aborted
     * at once and tells the executor why.
     */
    constructor (loadError: Option<string>)
      ensures Valid()
      ensures status == (if loadError.None? then DRIVER_NOT_STARTED else DRIVER_ABORTED)
      ensures callbacks == (if loadError.None? then [] else [Error(loadError.value)])
      ensures !started && !aborted && !connected && updates == [] && tasks == [] && sent == []
      ensures recoveryTimers == [] && !shutdownSpawned && !terminated
    {
      status := if loadError.None? then DRIVER_NOT_STARTED else DRIVER_ABORTED;
      callbacks := if loadError.None? then [] else [Error(loadError.value)];
      started := false;
      local := false;
      checkpoint := false;
      aborted := false;
      connected := false;
      connection := 0;
      updates := [];
      tasks := [];
      sent := [];
      recoveryTimers := [];
      shutdownSpawned := false;
      terminated := false;
      nextUuid := 1;
    }

    /**
     * `start`: only a driver not started yet creates its process, which is
     * unregistered, not aborted, under a fresh connection UUID, and asks the
     * agent to register it. `local` and `checkpoint` are what the
     * environment says.
     */
    method Start(local: bool, checkpoint: bool) returns (r: DriverStatus)
      requires Valid()
      modifies this
      ensures Valid()
      ensures (status, r) == Step(old(status), DriverCall.Start)
      ensures old(status) != DRIVER_NOT_STARTED ==>
        started == old(started) && aborted == old(aborted) && connected == old(connected) &&
        connection == old(connection) && sent == old(sent) &&
        this.local == old(this.local) && this.checkpoint == old(this.checkpoint)
      ensures old(status) == DRIVER_NOT_STARTED ==>
        started && !aborted && !connected && connection !in old(recoveryTimers) &&
        this.local == local && this.checkpoint == checkpoint &&
        sent == old(sent) + [RegisterExecutor]
      ensures updates == old(updates) && tasks == old(tasks) && callbacks == old(callbacks)
      ensures recoveryTimers == old(recoveryTimers) && shutdownSpawned == old(shutdownSpawned)
      ensures terminated == old(terminated)
    {
      if status != DRIVER_NOT_STARTED {
        return status;
      }
      Spawn(local, checkpoint);
      status := DRIVER_RUNNING;
      r := status;
    }

    /**
     * `new ExecutorProcess(...)` followed by `spawn`: the process starts
     * unregistered and not aborted under a fresh connection UUID, and its
     * `initialize` asks the agent to register it.
     */
    method Spawn(local: bool, checkpoint: bool)
      requires Valid() && status == DRIVER_NOT_STARTED
      modifies this
      ensures started && !aborted && !connected && connection !in old(recoveryTimers)
      ensures this.local == local && this.checkpoint == checkpoint
      ensures sent == old(sent) + [RegisterExecutor]
      ensures updates == [] && tasks == [] && !shutdownSpawned
      ensures status == old(status) && callbacks == old(callbacks) && recoveryTimers == old(recoveryTimers)
      ensures terminated == old(terminated)
      ensures connection < nextUuid && forall c :: c in recoveryTimers ==> c < nextUuid
    {
      this.local := local;
      this.checkpoint := checkpoint;
      started := true;
      connected := false;
      aborted := false;
      connection := nextUuid;
      nextUuid := nextUuid + 1;
      sent := sent + [RegisterExecutor];
      TimersBelow(recoveryTimers, old(nextUuid), nextUuid);
    }

    /**
     * `stop`: a running or aborted driver becomes stopped and terminates its
     * process, if it has one; the call reports an earlier abort. Any other
     * status is returned unchanged.
     */
    method Stop() returns (r: DriverStatus)
      requires Valid()
      modifies this
      ensures Valid()
      ensures (status, r) == Step(old(status), DriverCall.Stop)
      ensures terminated == (old(terminated) || (old(started) && (old(status) == DRIVER_RUNNING || old(status) == DRIVER_ABORTED)))
      ensures started == old(started) && aborted == old(aborted) && connected == old(connected)
      ensures connection == old(connection) && updates == old(updates) && tasks == old(tasks)
      ensures sent == old(sent) && callbacks == old(callbacks) && recoveryTimers == old(recoveryTimers)
      ensures shutdownSpawned == old(shutdownSpawned) && local == old(local) && checkpoint == old(checkpoint)
    {
      if status != DRIVER_RUNNING && status != DRIVER_ABORTED {
        return status;
      }
      if started {
        terminated := true;
      }
      var wasAborted := status == DRIVER_ABORTED;
      status := DRIVER_STOPPED;
      r := if wasAborted then DRIVER_ABORTED else status;
    }

    /** `abort`: only a running driver aborts, and its process stops taking messages. */
    method Abort() returns (r: DriverStatus)
      requires Valid()
      modifies this
      ensures Valid()
      ensures (status, r) == Step(old(status), DriverCall.Abort)
      ensures aborted == (old(aborted) || old(status) == DRIVER_RUNNING)
      ensures started == old(started) && connected == old(connected) && connection == old(connection)
      ensures nextUuid == old(nextUuid)
      ensures updates == old(updates) && tasks == old(tasks) && sent == old(sent)
      ensures callbacks == old(callbacks) && recoveryTimers == old(recoveryTimers)
      ensures shutdownSpawned == old(shutdownSpawned) && terminated == old(terminated)
      ensures local == old(local) && checkpoint == old(checkpoint)
    {
      if status != DRIVER_RUNNING {
        return status;
      }
      aborted := true;
      status := DRIVER_ABORTED;
      r := status;
    }

    /**
     * The process's `sendStatusUpdate`: a TASK_STAGING update aborts the
     * driver and reports an error to the executor; any other is kept under a
     * fresh UUID until the agent acknowledges it, and sent.
     */
    method SendUpdate(taskStatus: TaskStatus)
      requires Valid() && started
      modifies this
      ensures Valid()
      ensures taskStatus.state == TASK_STAGING ==>
        (status, aborted) == (Step(old(status), DriverCall.Abort).0, old(aborted) || old(status) == DRIVER_RUNNING) &&
        updates == old(updates) && sent == old(sent) &&
        callbacks == old(callbacks) + [Error(StagingError)]
      ensures taskStatus.state != TASK_STAGING ==>
        status == old(status) && aborted == old(aborted) && callbacks == old(callbacks) &&
        !HasKey(old(updates), old(nextUuid)) &&
        updates == old(updates) + [Entry(old(nextUuid), StatusUpdate(taskStatus, old(nextUuid)))] &&
        sent == old(sent) + [StatusUpdateMessage(StatusUpdate(taskStatus, old(nextUuid)))]
      ensures nextUuid == if taskStatus.state == TASK_STAGING then old(nextUuid) else old(nextUuid) + 1
      ensures started == old(started) && connected == old(connected) && connection == old(connection)
      ensures tasks == old(tasks) && recoveryTimers == old(recoveryTimers)
      ensures shutdownSpawned == old(shutdownSpawned) && terminated == old(terminated)
      ensures local == old(local) && checkpoint == old(checkpoint)
    {
      if taskStatus.state == TASK_STAGING {
        var _ := Abort();
        callbacks := callbacks + [Error(StagingError)];
        return;
      }
      var uuid := nextUuid;
      nextUuid := nextUuid + 1;
      var update := StatusUpdate(taskStatus, uuid);
      assert !HasKey(updates, uuid);
      PutFresh(updates, uuid, update);
      AppendFreshDistinct(updates, uuid, update);
      updates := Put(updates, uuid, update);
      sent := sent + [StatusUpdateMessage(update)];
      TimersBelow(recoveryTimers, uuid, nextUuid);
    }

    /** The driver's `sendStatusUpdate`: the update is handed to the process only while running. */
    method DriverSendStatusUpdate(taskStatus: TaskStatus) returns (r: DriverStatus)
      requires Valid()
      modifies this
      ensures Valid()
      ensures r == old(status) && r == Step(old(status), DriverCall.SendStatusUpdate).1
      ensures old(status) != DRIVER_RUNNING ==>
        status == old(status) && aborted == old(aborted) && nextUuid == old(nextUuid) &&
        updates == old(updates) && sent == old(sent) && callbacks == old(callbacks)
      ensures old(status) == DRIVER_RUNNING && taskStatus.state != TASK_STAGING ==>
        status == old(status) && aborted == old(aborted) && callbacks == old(callbacks) &&
        nextUuid == old(nextUuid) + 1 &&
        updates == old(updates) + [Entry(old(nextUuid), StatusUpdate(taskStatus, old(nextUuid)))] &&
        sent == old(sent) + [StatusUpdateMessage(StatusUpdate(taskStatus, old(nextUuid)))]
      ensures old(status) == DRIVER_RUNNING && taskStatus.state == TASK_STAGING ==>
        status == DRIVER_ABORTED && aborted && nextUuid == old(nextUuid) &&
        updates == old(updates) && sent == old(sent) && callbacks == old(callbacks) + [Error(StagingError)]
      ensures started == old(started) && tasks == old(tasks) && connected == old(connected) && connection == old(connection)
      ensures recoveryTimers == old(recoveryTimers) && shutdownSpawned == old(shutdownSpawned)
      ensures terminated == old(terminated) && local == old(local) && checkpoint == old(checkpoint)
    {
      r := status;
      if status != DRIVER_RUNNING {
        return;
      }
      SendUpdate(taskStatus);
    }

    /** The driver's `sendFrameworkMessage`: the data goes to the framework only while running. */
    method DriverSendFrameworkMessage(data: string) returns (r: DriverStatus)
      requires Valid()
      modifies this
      ensures Valid()
      ensures r == old(status) && r == Step(old(status), DriverCall.SendFrameworkMessage).1
      ensures sent == old(sent) + (if old(status) == DRIVER_RUNNING then [ExecutorToFramework(data)] else [])
      ensures status == old(status) && started == old(started) && aborted == old(aborted)
      ensures connected == old(connected) && connection == old(connection) && nextUuid == old(nextUuid)
      ensures updates == old(updates) && tasks == old(tasks) && callbacks == old(callbacks)
      ensures recoveryTimers == old(recoveryTimers) && shutdownSpawned == old(shutdownSpawned)
      ensures terminated == old(terminated) && local == old(local) && checkpoint == old(checkpoint)
    {
      r := status;
      if status == DRIVER_RUNNING {
        sent := sent + [ExecutorToFramework(data)];
      }
    }

    /**
     * `registered` (and, with `Reregistered`, `reregistered`): unless
     * aborted, the executor is connected under a fresh connection UUID, so
     * no recovery timeout scheduled before can match it.
     */
    method Register(callback: Callback)
      requires Valid() && started
      requires callback == Registered || callback == Reregistered
      modifies this
      ensures Valid()
      ensures old(aborted) ==> connected == old(connected) && connection == old(connection) && callbacks == old(callbacks)
      ensures !old(aborted) ==>
        connected && connection !in recoveryTimers && callbacks == old(callbacks) + [callback]
      ensures status == old(status) && aborted == old(aborted) && updates == old(updates) && tasks == old(tasks)
      ensures sent == old(sent) && recoveryTimers == old(recoveryTimers)
      ensures shutdownSpawned == old(shutdownSpawned) && terminated == old(terminated)
      ensures local == old(local) && checkpoint == old(checkpoint)
    {
      if aborted {
        return;
      }
      connected := true;
      connection := nextUuid;
      nextUuid := nextUuid + 1;
      callbacks := callbacks + [callback];
      TimersBelow(recoveryTimers, connection, nextUuid);
    }

    /**
     * `reconnect`: unless aborted, re-register with the agent, sending every
     * unacknowledged update and task in the order they were recorded.
     */
    method Reconnect()
      requires Valid() && started
      modifies this
      ensures Valid()
      ensures sent == old(sent) + (if old(aborted) then [] else [ReregisterExecutor(Values(updates), Values(tasks))])
      ensures status == old(status) && aborted == old(aborted) && connected == old(connected)
      ensures connection == old(connection) && nextUuid == old(nextUuid)
      ensures updates == old(updates) && tasks == old(tasks) && callbacks == old(callbacks)
      ensures recoveryTimers == old(recoveryTimers) && shutdownSpawned == old(shutdownSpawned)
      ensures terminated == old(terminated) && local == old(local) && checkpoint == old(checkpoint)
    {
      if aborted {
        return;
      }
      var pendingUpdates: seq<StatusUpdate> := [];
      for i := 0 to |updates|
        invariant pendingUpdates == Values(updates[..i])
      {
        pendingUpdates := pendingUpdates + [updates[i].value];
      }
      var pendingTasks: seq<TaskInfo> := [];
      for i := 0 to |tasks|
        invariant pendingTasks == Values(tasks[..i])
      {
        pendingTasks := pendingTasks + [tasks[i].value];
      }
      assert updates[..|updates|] == updates && tasks[..|tasks|] == tasks;
      sent := sent + [ReregisterExecutor(pendingUpdates, pendingTasks)];
    }

    /**
     * `runTask`: unless aborted, the task is recorded as unacknowledged and
     * launched. A task id the executor already holds is a fatal `CHECK`.
     */
    method RunTask(task: TaskInfo)
      requires Valid() && started
      requires !aborted ==> !HasKey(tasks, task.taskId)
      modifies this
      ensures Valid()
      ensures old(aborted) ==> tasks == old(tasks) && callbacks == old(callbacks)
      ensures !old(aborted) ==>
        tasks == old(tasks) + [Entry(task.taskId, task)] && callbacks == old(callbacks) + [LaunchTask(task)]
      ensures status == old(status) && aborted == old(aborted) && connected == old(connected)
      ensures connection == old(connection) && nextUuid == old(nextUuid) && updates == old(updates)
      ensures sent == old(sent) && recoveryTimers == old(recoveryTimers)
      ensures shutdownSpawned == old(shutdownSpawned) && terminated == old(terminated)
      ensures local == old(local) && checkpoint == old(checkpoint)
    {
      if aborted {
        return;
      }
      PutFresh(tasks, task.taskId, task);
      AppendFreshDistinct(tasks, task.taskId, task);
      tasks := Put(tasks, task.taskId, task);
      callbacks := callbacks + [LaunchTask(task)];
    }

    /** `killTask` and `frameworkMessage`: unless aborted, pass the request to the executor. */
    method Deliver(callback: Callback)
      requires Valid() && started
      requires callback.KillTask? || callback.FrameworkMessage?
      modifies this
      ensures Valid()
      ensures callbacks == old(callbacks) + (if old(aborted) then [] else [callback])
      ensures status == old(status) && aborted == old(aborted) && connected == old(connected)
      ensures connection == old(connection) && nextUuid == old(nextUuid)
      ensures updates == old(updates) && tasks == old(tasks) && sent == old(sent)
      ensures recoveryTimers == old(recoveryTimers) && shutdownSpawned == old(shutdownSpawned)
      ensures terminated == old(terminated) && local == old(local) && checkpoint == old(checkpoint)
    {
      if !aborted {
        callbacks := callbacks + [callback];
      }
    }

    /**
     * `statusUpdateAcknowledgement`: unless aborted, forget the update with
     * that UUID and the task with that id; everything else stays, in order.
     */
    method Acknowledge(taskId: string, uuid: nat)
      requires Valid() && started
      modifies this
      ensures Valid()
      ensures old(aborted) ==> updates == old(updates) && tasks == old(tasks)
      ensures !old(aborted) ==> updates == Erase(old(updates), uuid) && tasks == Erase(old(tasks), taskId)
      ensures !HasKey(updates, uuid) || old(aborted)
      ensures status == old(status) && aborted == old(aborted) && connected == old(connected)
      ensures connection == old(connection) && nextUuid == old(nextUuid)
      ensures sent == old(sent) && callbacks == old(callbacks) && recoveryTimers == old(recoveryTimers)
      ensures shutdownSpawned == old(shutdownSpawned) && terminated == old(terminated)
      ensures local == old(local) && checkpoint == old(checkpoint)
    {
      if aborted {
        return;
      }
      EraseMembers(updates, uuid);
      EraseDistinct(updates, uuid);
      EraseMembers(tasks, taskId);
      EraseDistinct(tasks, taskId);
      updates := Erase(updates, uuid);
      tasks := Erase(tasks, taskId);
    }

    /**
     * `shutdown`: unless aborted, spawn a `ShutdownProcess` (when not
     * local), tell the executor to shut down, stop taking messages, and
     * terminate the process when local.
     */
    method ShutdownExecutor()
      requires Valid() && started
      modifies this
      ensures Valid()
      ensures old(aborted) ==>
        callbacks == old(callbacks) && shutdownSpawned == old(shutdownSpawned) && terminated == old(terminated)
      ensures !old(aborted) ==>
        aborted && callbacks == old(callbacks) + [Shutdown] && shutdownSpawned == !local &&
        terminated == (old(terminated) || local)
      ensures aborted
      ensures status == old(status) && connected == old(connected) && connection == old(connection)
      ensures nextUuid == old(nextUuid) && updates == old(updates) && tasks == old(tasks)
      ensures sent == old(sent) && recoveryTimers == old(recoveryTimers)
      ensures local == old(local) && checkpoint == old(checkpoint)
    {
      if aborted {
        return;
      }
      if !local {
        shutdownSpawned := true;
      }
      callbacks := callbacks + [Shutdown];
      aborted := true;
      if local {
        terminated := true;
      }
    }

    /**
     * `_recoveryTimeout`: shut down only if still disconnected and no
     * registration has happened since the timer was set.
     */
    method RecoveryTimeout(timerConnection: nat)
      requires Valid() && started
      modifies this
      ensures Valid()
      ensures !(!old(connected) && old(connection) == timerConnection) ==>
        aborted == old(aborted) && callbacks == old(callbacks) &&
        shutdownSpawned == old(shutdownSpawned) && terminated == old(terminated)
      ensures !old(connected) && old(connection) == timerConnection ==> aborted
      ensures !old(connected) && old(connection) == timerConnection && !old(aborted) ==>
        callbacks == old(callbacks) + [Shutdown]
      ensures status == old(status) && connected == old(connected) && connection == old(connection)
      ensures updates == old(updates) && tasks == old(tasks) && sent == old(sent)
      ensures recoveryTimers == old(recoveryTimers)
    {
      if connected {
        return;
      }
      if connection == timerConnection {
        ShutdownExecutor();
      }
    }

    /**
     * `exited` (the agent went away): unless aborted, a checkpointing and
     * registered executor disconnects and waits for the recovery timeout;
     * any other disconnects and shuts down as `shutdown` does.
     */
    method Exited()
      requires Valid() && started
      modifies this
      ensures Valid()
      ensures old(aborted) ==>
        connected == old(connected) && recoveryTimers == old(recoveryTimers) && callbacks == old(callbacks)
      ensures !old(aborted) ==> !connected
      ensures !old(aborted) && old(checkpoint) && old(connected) ==>
        !aborted && recoveryTimers == old(recoveryTimers) + [connection] && callbacks == old(callbacks)
      ensures !old(aborted) && !(old(checkpoint) && old(connected)) ==>
        aborted && recoveryTimers == old(recoveryTimers) && callbacks == old(callbacks) + [Shutdown] &&
        shutdownSpawned == !local && terminated == (old(terminated) || local)
      ensures old(aborted) ==> aborted
      ensures status == old(status) && connection == old(connection) && nextUuid == old(nextUuid)
      ensures updates == old(updates) && tasks == old(tasks) && sent == old(sent)
      ensures local == old(local) && checkpoint == old(checkpoint)
    {
      if aborted {
        return;
      }
      if checkpoint && connected {
        TimerAdded(recoveryTimers, connection, nextUuid);
        connected := false;
        recoveryTimers := recoveryTimers + [connection];
        return;
      }
      connected := false;
      if !local {
        shutdownSpawned := true;
      }
      callbacks := callbacks + [Shutdown];
      aborted := true;
      if local {
        terminated := true;
      }
    }
  }
}
