/**
 * The example hook module `org_apache_mesos_TestHook`
 * (`src/examples/test_hook_module.cpp`): its label decorators put one known
 * label first and copy the given labels minus those under one key; its
 * environment decorator appends `FOO=bar`.
 */
module TestHook {
  import opened Wrappers
  import HookManager

  type Label = HookManager.Label

  const TestLabelKey: string := "MESOS_Test_Label"
  const TestLabelValue: string := "ApacheMesos"
  const TestRemoveLabelKey: string := "MESOS_Test_Remove_Label"

  /** The labels whose key is not `key`, in their order. */
  function Without(labels: seq<Label>, key: string): (r: seq<Label>)
    ensures |r| <= |labels|
  {
    if labels == [] then []
    else (if labels[0].key != key then [labels[0]] else []) + Without(labels[1..], key)
  }

  /** `Without` keeps exactly the labels under another key. */
  lemma {:induction false} WithoutMembers(labels: seq<Label>, key: string)
    ensures forall l :: l in Without(labels, key) <==> l in labels && l.key != key
    decreases |labels|
  {
    if labels != [] {
      WithoutMembers(labels[1..], key);
      assert forall l :: l in labels <==> l == labels[0] || l in labels[1..];
    }
  }

  /** `Without` keeps the order: it distributes over concatenation. */
  lemma {:induction false} WithoutAppend(a: seq<Label>, b: seq<Label>, key: string)
    ensures Without(a + b, key) == Without(a, key) + Without(b, key)
    decreases |a|
  {
    if a == [] {
      assert a + b == b;
    } else {
      var head := if a[0].key != key then [a[0]] else [];
      assert (a + b)[0] == a[0];
      assert (a + b)[1..] == a[1..] + b;
      assert Without(a + b, key) == head + Without(a[1..] + b, key);
      WithoutAppend(a[1..], b, key);
      assert Without(a, key) == head + Without(a[1..], key);
    }
  }

  lemma WithoutSnoc(labels: seq<Label>, last: Label, key: string)
    ensures Without(labels + [last], key) == Without(labels, key) + (if last.key != key then [last] else [])
  {
    WithoutAppend(labels, [last], key);
    assert [last][1..] == [];
  }

  /** Removing a key twice removes nothing more. */
  lemma {:induction false} WithoutIdempotent(labels: seq<Label>, key: string)
    ensures Without(Without(labels, key), key) == Without(labels, key)
    decreases |labels|
  {
    if labels != [] {
      WithoutIdempotent(labels[1..], key);
      WithoutAppend(if labels[0].key != key then [labels[0]] else [], Without(labels[1..], key), key);
      assert Without([], key) == [];
    }
  }

  /** The labels with one label first and those under `removeKey` dropped. */
  function Relabel(labels: seq<Label>, first: Label, removeKey: string): seq<Label>
  {
    [first] + Without(labels, removeKey)
  }

  /**
   * The foreach loop shared by the label decorators: start from `first` and
   * copy every label whose key is not `removeKey`.
   */
  method RelabelLoop(labels: seq<Label>, first: Label, removeKey: string) returns (r: seq<Label>)
    ensures r == Relabel(labels, first, removeKey)
  {
    r := [first];
    for i := 0 to |labels|
      invariant r == [first] + Without(labels[..i], removeKey)
    {
      WithoutSnoc(labels[..i], labels[i], removeKey);
      assert labels[..i + 1] == labels[..i] + [labels[i]];
      if labels[i].key != removeKey {
        r := r + [labels[i]];
      }
    }
    assert labels[..|labels|] == labels;
  }

  /** `masterLaunchTaskLabelDecorator`: `MESOS_Test_Label=ApacheMesos` first, the task's labels minus `MESOS_Test_Remove_Label`. */
  function MasterLabels(labels: seq<Label>): HookManager.Decorated<seq<Label>>
  {
    HookManager.Decorated(Relabel(labels, HookManager.Label(TestLabelKey, Some(TestLabelValue)), TestRemoveLabelKey))
  }

  /** `slaveRunTaskLabelDecorator`: `baz=qux` first, the task's labels minus `foo`. */
  function SlaveLabels(labels: seq<Label>): HookManager.Decorated<seq<Label>>
  {
    HookManager.Decorated(Relabel(labels, HookManager.Label("baz", Some("qux")), "foo"))
  }

  /** `slaveTaskStatusLabelDecorator`: `bar=qux` first, the status's labels minus `foo`. */
  function StatusLabels(labels: seq<Label>): HookManager.Decorated<seq<Label>>
  {
    HookManager.Decorated(Relabel(labels, HookManager.Label("bar", Some("qux")), "foo"))
  }

  /** `slaveExecutorEnvironmentDecorator`: the executor's variables, then `FOO=bar`. */
  function Environment(variables: seq<HookManager.Variable>): HookManager.Decorated<seq<HookManager.Variable>>
  {
    HookManager.Decorated(variables + [HookManager.Variable("FOO", "bar")])
  }

  /** The hook module; its remove-executor hook always succeeds. */
  const Hook: HookManager.Hook := HookManager.Hook(MasterLabels, SlaveLabels, Environment, None, StatusLabels)

  /** The master decorator as the loop the module runs. */
  method MasterLaunchTaskLabelDecorator(labels: seq<Label>) returns (r: HookManager.Decorated<seq<Label>>)
    ensures r == MasterLabels(labels)
  {
    var relabelled := RelabelLoop(labels, HookManager.Label(TestLabelKey, Some(TestLabelValue)), TestRemoveLabelKey);
    r := HookManager.Decorated(relabelled);
  }

  /** The agent run-task decorator as the loop the module runs. */
  method SlaveRunTaskLabelDecorator(labels: seq<Label>) returns (r: HookManager.Decorated<seq<Label>>)
    ensures r == SlaveLabels(labels)
  {
    var relabelled := RelabelLoop(labels, HookManager.Label("baz", Some("qux")), "foo");
    r := HookManager.Decorated(relabelled);
  }

  /** The task-status decorator as the loop the module runs. */
  method SlaveTaskStatusLabelDecorator(labels: seq<Label>) returns (r: HookManager.Decorated<seq<Label>>)
    ensures r == StatusLabels(labels)
  {
    var relabelled := RelabelLoop(labels, HookManager.Label("bar", Some("qux")), "foo");
    r := HookManager.Decorated(relabelled);
  }

  /**
   * What a decorated task carries with this hook loaded alone: the test
   * label first, then the task's labels in their order, none of them under
   * `MESOS_Test_Remove_Label`.
   */
  lemma MasterDecoration(labels: seq<Label>)
    ensures HookManager.Chain(labels, [Hook], (h: HookManager.Hook) => h.masterLaunchTaskLabelDecorator) ==
      [HookManager.Label(TestLabelKey, Some(TestLabelValue))] + Without(labels, TestRemoveLabelKey)
    ensures forall l :: l in Without(labels, TestRemoveLabelKey) <==> l in labels && l.key != TestRemoveLabelKey
  {
    WithoutMembers(labels, TestRemoveLabelKey);
    HookManager.ChainOne(labels, Hook, (h: HookManager.Hook) => h.masterLaunchTaskLabelDecorator);
  }

  /** Every decorator of this hook changes what it is given; none declines or fails. */
  lemma AlwaysDecorates(labels: seq<Label>, variables: seq<HookManager.Variable>)
    ensures Hook.masterLaunchTaskLabelDecorator(labels).Decorated?
    ensures Hook.slaveRunTaskLabelDecorator(labels).Decorated?
    ensures Hook.slaveTaskStatusLabelDecorator(labels).Decorated?
    ensures Hook.slaveExecutorEnvironmentDecorator(variables).Decorated?
    ensures Hook.slaveRemoveExecutorHook.None?
  {
  }

  /**
   * Running the agent decorator on its own output adds the `baz=qux` label
   * once more at the front and removes nothing further.
   */
  lemma SlaveDecorationTwice(labels: seq<Label>)
    ensures SlaveLabels(SlaveLabels(labels).value).value ==
      [HookManager.Label("baz", Some("qux"))] + SlaveLabels(labels).value
  {
    var first := HookManager.Label("baz", Some("qux"));
    WithoutAppend([first], Without(labels, "foo"), "foo");
    WithoutIdempotent(labels, "foo");
    assert Without([first], "foo") == [first] by {
      assert first.key != "foo" by {
        assert first.key[0] == 'b';
      }
      assert [first][1..] == [];
    }
  }
}
