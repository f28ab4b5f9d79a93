/**
 * The hook manager (`src/hook/manager.cpp`): a table of loaded hook
 * modules, filled from a comma-separated list and emptied one name at a
 * time, and the decorators that pass a task's labels, an executor's
 * environment or a status's labels through every loaded hook in turn.
 *
 * The module manager is a parameter: a map from the names of the hook
 * modules it knows to the outcome of instantiating each. The order in which
 * the loaded hooks are visited is that of a hash map; it is a parameter,
 * `order`, listing every loaded name once.
 */
module HookManager {
  import opened Wrappers
  import Text

  datatype Label = Label(key: string, value: Option<string>)

  datatype Variable = Variable(name: string, value: string)

  /** What a decorator returns: new contents, `None` (leave them as they are), or an error. */
  datatype Decorated<T> = Decorated(value: T) | Unchanged | Failure(message: string)

  /**
   * A hook module. Each decorator sees the labels or environment left by
   * the hooks before it; everything else it is given (framework, agent,
   * executor and task fields) is the same for every hook and is bound in
   * the function.
   */
  datatype Hook = Hook(
    masterLaunchTaskLabelDecorator: seq<Label> -> Decorated<seq<Label>>,
    slaveRunTaskLabelDecorator: seq<Label> -> Decorated<seq<Label>>,
    slaveExecutorEnvironmentDecorator: seq<Variable> -> Decorated<seq<Variable>>,
    slaveRemoveExecutorHook: Option<string>,
    slaveTaskStatusLabelDecorator: seq<Label> -> Decorated<seq<Label>>)

  datatype HookError =
    | AlreadyLoaded(name: string)
    | NoSuchModule(name: string)
    | InstantiationFailed(name: string, message: string)
    | NotLoaded(name: string)

  /** The name an initialization error is about. */
  function ErrorName(e: HookError): string
  {
    e.name
  }

  /**
   * `initialize` over the names still to load: each name must not be loaded
   * yet and must be a module that instantiates; the first name that fails
   * stops the loading, and what was loaded before it stays loaded.
   */
  function Load(available: map<string, Hook>, names: seq<string>, modules: map<string, Result<Hook, string>>)
    : (r: (map<string, Hook>, Option<HookError>))
    ensures forall k :: k in available ==> k in r.0 && r.0[k] == available[k]
    ensures forall k :: k in r.0 && k !in available ==> k in names && k in modules && modules[k] == Ok(r.0[k])
    ensures r.1 == None ==> forall n :: n in names ==> n in r.0
    ensures r.1.Some? ==> ErrorName(r.1.value) in names && !r.1.value.NotLoaded?
    decreases |names|
  {
    if names == [] then (available, None)
    else
      var name := names[0];
      if name in available then (available, Some(AlreadyLoaded(name)))
      else if name !in modules then (available, Some(NoSuchModule(name)))
      else if modules[name].Err? then (available, Some(InstantiationFailed(name, modules[name].error)))
      else Load(available[name := modules[name].value], names[1..], modules)
  }

  /**
   * There is no rollback: when loading stops at the name `names[i]`, every
   * name before it is loaded.
   */
  lemma {:induction false} LoadedBeforeError(available: map<string, Hook>, names: seq<string>, modules: map<string, Result<Hook, string>>)
    requires Load(available, names, modules).1.Some?
    ensures exists i :: (0 <= i < |names| && names[i] == ErrorName(Load(available, names, modules).1.value) &&
      forall j :: 0 <= j < i ==> names[j] in Load(available, names, modules).0)
    decreases |names|
  {
    var name := names[0];
    if name in available || name !in modules || modules[name].Err? {
      assert names[0] == ErrorName(Load(available, names, modules).1.value);
    } else {
      var rest := available[name := modules[name].value];
      LoadedBeforeError(rest, names[1..], modules);
      var i :| 0 <= i < |names[1..]| && names[1..][i] == ErrorName(Load(rest, names[1..], modules).1.value) &&
        forall j :: 0 <= j < i ==> names[1..][j] in Load(rest, names[1..], modules).0;
      assert names[i + 1] == ErrorName(Load(available, names, modules).1.value);
      forall j | 0 <= j < i + 1
        ensures names[j] in Load(available, names, modules).0
      {
        if j > 0 {
          assert names[j] == names[1..][j - 1];
        }
      }
    }
  }

  /** A name listed twice cannot load: the second occurrence finds it loaded, if nothing failed before. */
  lemma {:induction false} RepeatedNameFails(available: map<string, Hook>, names: seq<string>, modules: map<string, Result<Hook, string>>, i: nat, j: nat)
    requires i < j < |names| && names[i] == names[j]
    ensures Load(available, names, modules).1.Some?
    decreases |names|
  {
    var name := names[0];
    if name in available || name !in modules || modules[name].Err? {
    } else if i == 0 {
      var rest := available[name := modules[name].value];
      assert names[1..][j - 1] == name;
      AlreadyLoadedFails(rest, names[1..], modules, j - 1);
    } else {
      RepeatedNameFails(available[name := modules[name].value], names[1..], modules, i - 1, j - 1);
    }
  }

  /** A name that is loaded before the loading reaches it stops the loading. */
  lemma {:induction false} AlreadyLoadedFails(available: map<string, Hook>, names: seq<string>, modules: map<string, Result<Hook, string>>, j: nat)
    requires j < |names| && names[j] in available
    ensures Load(available, names, modules).1.Some?
    decreases |names|
  {
    var name := names[0];
    if name in available || name !in modules || modules[name].Err? {
    } else {
      AlreadyLoadedFails(available[name := modules[name].value], names[1..], modules, j - 1);
    }
  }

  /** `order` visits every loaded hook exactly once. */
  predicate IsOrder(order: seq<string>, hooks: map<string, Hook>)
  {
    (forall n :: n in order ==> n in hooks) &&
    (forall n :: n in hooks ==> n in order) &&
    (forall i, j :: 0 <= i < j < |order| ==> order[i] != order[j])
  }

  /** The loaded hooks in the order visited. */
  function InOrder(order: seq<string>, hooks: map<string, Hook>): (r: seq<Hook>)
    requires forall n :: n in order ==> n in hooks
    ensures |r| == |order| && forall i :: 0 <= i < |order| ==> r[i] == hooks[order[i]]
  {
    seq(|order|, i requires 0 <= i < |order| => hooks[order[i]])
  }

  /** One decorator step: new contents replace the old ones; `None` and an error keep them. */
  function Apply<T>(value: T, d: Decorated<T>): (r: T)
    ensures d.Decorated? ==> r == d.value
    ensures !d.Decorated? ==> r == value
  {
    if d.Decorated? then d.value else value
  }

  /** The decorator chain: each hook's decorator sees what the hooks before it left. */
  function Chain<T>(value: T, hooks: seq<Hook>, select: Hook -> (T -> Decorated<T>)): T
    decreases |hooks|
  {
    if hooks == [] then value
    else Chain(Apply(value, select(hooks[0])(value)), hooks[1..], select)
  }

  /** Chaining over two runs of hooks is chaining over the first, then over the second. */
  lemma {:induction false} ChainAppend<T>(value: T, first: seq<Hook>, second: seq<Hook>, select: Hook -> (T -> Decorated<T>))
    ensures Chain(value, first + second, select) == Chain(Chain(value, first, select), second, select)
    decreases |first|
  {
    if first != [] {
      assert (first + second)[1..] == first[1..] + second;
      ChainAppend(Apply(value, select(first[0])(value)), first[1..], second, select);
    } else {
      assert first + second == second;
    }
  }

  /** With a single hook, the result is its decorated value, or the input when it declines or fails. */
  lemma ChainOne<T>(value: T, hook: Hook, select: Hook -> (T -> Decorated<T>))
    ensures Chain(value, [hook], select) == Apply(value, select(hook)(value))
  {
    assert [hook][1..] == [];
  }

  /** Chaining with no hooks returns the input. */
  lemma ChainNone<T>(value: T, select: Hook -> (T -> Decorated<T>))
    ensures Chain(value, [], select) == value
  {
  }

  /** The loop of every decorator: visit the hooks in order, keeping what each returns. */
  method Decorate<T>(value: T, hooks: seq<Hook>, select: Hook -> (T -> Decorated<T>)) returns (r: T)
    ensures r == Chain(value, hooks, select)
  {
    r := value;
    var i := 0;
    while i < |hooks|
      invariant 0 <= i <= |hooks|
      invariant Chain(value, hooks, select) == Chain(r, hooks[i..], select)
    {
      var result := select(hooks[i])(r);
      if result.Decorated? {
        r := result.value;
      }
      assert hooks[i..][1..] == hooks[i + 1..];
      i := i + 1;
    }
  }

  /** The failures of `slaveRemoveExecutorHook`, as (name, message) pairs in the order visited. */
  function RemoveExecutorFailures(order: seq<string>, hooks: map<string, Hook>): seq<(string, string)>
    requires forall n :: n in order ==> n in hooks
  {
    if order == [] then []
    else
      var head := hooks[order[0]].slaveRemoveExecutorHook;
      (if head.Some? then [(order[0], head.value)] else []) + RemoveExecutorFailures(order[1..], hooks)
  }

  /** The failures from position `i` on: the failure of hook `i`, if any, then those after it. */
  lemma RemoveExecutorFailuresFrom(order: seq<string>, i: nat, hooks: map<string, Hook>)
    requires i < |order| && forall n :: n in order ==> n in hooks
    ensures forall n :: n in order[i..] ==> n in hooks
    ensures forall n :: n in order[i + 1..] ==> n in hooks
    ensures var head := hooks[order[i]].slaveRemoveExecutorHook;
      RemoveExecutorFailures(order[i..], hooks) ==
        (if head.Some? then [(order[i], head.value)] else []) + RemoveExecutorFailures(order[i + 1..], hooks)
  {
    assert order[i..][0] == order[i];
    assert order[i..][1..] == order[i + 1..];
  }

  /**
   * A failing hook does not stop the others: the failures over two runs of
   * hooks are those of the first run followed by those of the second.
   */
  lemma {:induction false} RemoveExecutorFailuresAppend(first: seq<string>, second: seq<string>, hooks: map<string, Hook>)
    requires forall n :: n in first + second ==> n in hooks
    ensures RemoveExecutorFailures(first + second, hooks) ==
      RemoveExecutorFailures(first, hooks) + RemoveExecutorFailures(second, hooks)
    decreases |first|
  {
    if first == [] {
      assert first + second == second;
    } else {
      var both := first + second;
      var head := hooks[first[0]].slaveRemoveExecutorHook;
      var failed := if head.Some? then [(first[0], head.value)] else [];
      assert both[0] == first[0];
      assert both[1..] == first[1..] + second;
      assert forall n :: n in first[1..] + second ==> n in both;
      assert RemoveExecutorFailures(both, hooks) == failed + RemoveExecutorFailures(first[1..] + second, hooks);
      RemoveExecutorFailuresAppend(first[1..], second, hooks);
      assert RemoveExecutorFailures(first, hooks) == failed + RemoveExecutorFailures(first[1..], hooks);
    }
  }

  /** Every hook that fails is reported, and only those. */
  lemma {:induction false} RemoveExecutorFailuresExact(order: seq<string>, hooks: map<string, Hook>, name: string)
    requires forall n :: n in order ==> n in hooks
    ensures (exists m :: (name, m) in RemoveExecutorFailures(order, hooks)) <==>
      name in order && hooks[name].slaveRemoveExecutorHook.Some?
    decreases |order|
  {
    if order != [] {
      RemoveExecutorFailuresExact(order[1..], hooks, name);
      var head := hooks[order[0]].slaveRemoveExecutorHook;
      if name == order[0] && head.Some? {
        assert (name, head.value) in RemoveExecutorFailures(order, hooks);
      }
      if name in order && name != order[0] {
        assert name in order[1..];
      }
    }
  }

  /** The hook manager: the table of loaded hooks. */
  class HookManager {
    var availableHooks: map<string, Hook>

    constructor ()
      ensures availableHooks == map[]
    {
      availableHooks := map[];
    }

    /**
     * `initialize`: load the comma-separated hook names in order, stopping
     * at the first that is already loaded, unknown, or fails to instantiate.
     */
    method Initialize(hookList: string, modules: map<string, Result<Hook, string>>) returns (error: Option<HookError>)
      modifies this
      ensures (availableHooks, error) == Load(old(availableHooks), Text.Split(hookList, ','), modules)
    {
      var names := Text.Split(hookList, ',');
      var i := 0;
      error := None;
      while i < |names|
        invariant 0 <= i <= |names|
        invariant Load(old(availableHooks), names, modules) == Load(availableHooks, names[i..], modules)
      {
        var name := names[i];
        assert names[i..][0] == name && names[i..][1..] == names[i + 1..];
        if name in availableHooks {
          error := Some(AlreadyLoaded(name));
          return;
        }
        if name !in modules {
          error := Some(NoSuchModule(name));
          return;
        }
        if modules[name].Err? {
          error := Some(InstantiationFailed(name, modules[name].error));
          return;
        }
        availableHooks := availableHooks[name := modules[name].value];
        i := i + 1;
      }
    }

    /** `unload`: an error for a name that is not loaded; otherwise exactly that name is removed. */
    method Unload(name: string) returns (error: Option<HookError>)
      modifies this
      ensures name in old(availableHooks) ==> error == None && availableHooks == old(availableHooks) - {name}
      ensures name !in old(availableHooks) ==> error == Some(NotLoaded(name)) && availableHooks == old(availableHooks)
    {
      if name !in availableHooks {
        return Some(NotLoaded(name));
      }
      availableHooks := availableHooks - {name};
      error := None;
    }

    /** `hooksAvailable`: some hook is loaded. */
    function HooksAvailable(): (available: bool)
      reads this
      ensures available <==> exists name :: name in availableHooks
    {
      assert |availableHooks| > 0 ==> exists name :: name in availableHooks by {
        if |availableHooks| > 0 {
          var k :| k in availableHooks.Keys;
        }
      }
      |availableHooks| > 0
    }

    /** `masterLaunchTaskLabelDecorator`: the task's labels after every hook's master decorator. */
    method MasterLaunchTaskLabelDecorator(labels: seq<Label>, order: seq<string>) returns (r: seq<Label>)
      requires IsOrder(order, availableHooks)
      ensures r == Chain(labels, InOrder(order, availableHooks), (h: Hook) => h.masterLaunchTaskLabelDecorator)
    {
      r := Decorate(labels, InOrder(order, availableHooks), (h: Hook) => h.masterLaunchTaskLabelDecorator);
    }

    /** `slaveRunTaskLabelDecorator`: the task's labels after every hook's agent decorator. */
    method SlaveRunTaskLabelDecorator(labels: seq<Label>, order: seq<string>) returns (r: seq<Label>)
      requires IsOrder(order, availableHooks)
      ensures r == Chain(labels, InOrder(order, availableHooks), (h: Hook) => h.slaveRunTaskLabelDecorator)
    {
      r := Decorate(labels, InOrder(order, availableHooks), (h: Hook) => h.slaveRunTaskLabelDecorator);
    }

    /** `slaveExecutorEnvironmentDecorator`: the executor's environment after every hook's decorator. */
    method SlaveExecutorEnvironmentDecorator(environment: seq<Variable>, order: seq<string>) returns (r: seq<Variable>)
      requires IsOrder(order, availableHooks)
      ensures r == Chain(environment, InOrder(order, availableHooks), (h: Hook) => h.slaveExecutorEnvironmentDecorator)
    {
      r := Decorate(environment, InOrder(order, availableHooks), (h: Hook) => h.slaveExecutorEnvironmentDecorator);
    }

    /** `slaveTaskStatusLabelDecorator`: the status's labels after every hook's status decorator. */
    method SlaveTaskStatusLabelDecorator(labels: seq<Label>, order: seq<string>) returns (r: seq<Label>)
      requires IsOrder(order, availableHooks)
      ensures r == Chain(labels, InOrder(order, availableHooks), (h: Hook) => h.slaveTaskStatusLabelDecorator)
    {
      r := Decorate(labels, InOrder(order, availableHooks), (h: Hook) => h.slaveTaskStatusLabelDecorator);
    }

    /** `slaveRemoveExecutorHook`: every hook is invoked; the failures are logged and do not stop the others. */
    method SlaveRemoveExecutorHook(order: seq<string>) returns (failures: seq<(string, string)>)
      requires IsOrder(order, availableHooks)
      ensures failures == RemoveExecutorFailures(order, availableHooks)
    {
      failures := [];
      var i := 0;
      while i < |order|
        invariant 0 <= i <= |order|
        invariant failures + RemoveExecutorFailures(order[i..], availableHooks) == RemoveExecutorFailures(order, availableHooks)
      {
        var result := availableHooks[order[i]].slaveRemoveExecutorHook;
        RemoveExecutorFailuresFrom(order, i, availableHooks);
        var rest := RemoveExecutorFailures(order[i + 1..], availableHooks);
        if result.Some? {
          assert failures + [(order[i], result.value)] + rest == failures + ([(order[i], result.value)] + rest);
          failures := failures + [(order[i], result.value)];
        } else {
          assert [] + rest == rest;
        }
        i := i + 1;
      }
      assert order[i..] == [];
    }
  }
}
