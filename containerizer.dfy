/**
 * The Mesos containerizer (`src/slave/containerizer/mesos/containerizer.cpp`):
 * how `create` turns the `--isolation` flag into the ordered list of
 * isolators, the life cycle of a container from provisioning to running and
 * its destruction, the merge of the isolators' launch infos, and the
 * termination reported when a container is gone.
 *
 * Creating an isolator is a parameter (`create` maps an isolator name to an
 * error message, or to `None` when the isolator could be created). The
 * provisioner, launcher, fetcher and isolator calls are the inputs of the
 * steps that use their outcome.
 */
module MesosContainerizer {
  import opened Wrappers
  import Text
  import Executor

  // ---------------------------------------------------------------------
  // Substrings

  /** A substring of `s` is a substring of any extension of `s`. */
  lemma ContainsAppend(s: string, t: string, sub: string)
    requires Text.Contains(s, sub)
    ensures Text.Contains(s + t, sub)
  {
    var i :| 0 <= i <= |s| - |sub| && Text.OccursAt(s, sub, i);
    assert (s + t)[i..i + |sub|] == s[i..i + |sub|];
    assert Text.OccursAt(s + t, sub, i);
  }

  /** `s + t` contains `t`. */
  lemma ContainsSuffix(s: string, t: string)
    ensures Text.Contains(s + t, t)
  {
    assert (s + t)[|s|..|s| + |t|] == t;
    assert Text.OccursAt(s + t, t, |s|);
  }

  /** A string without the first character of `sub` does not contain `sub`. */
  lemma NotContains(s: string, sub: string)
    requires sub != [] && sub[0] !in s
    ensures !Text.Contains(s, sub)
  {
    forall i | 0 <= i <= |s| - |sub| ensures !Text.OccursAt(s, sub, i) {
      assert s[i..i + |sub|][0] == s[i];
    }
  }

  // ---------------------------------------------------------------------
  // The `--isolation` flag

  /** Why `create` fails. */
  datatype CreateError =
    | DiskConflict
    | DuplicateEntries(tokens: seq<string>)
    | IsolatorFailed(isolation: string, message: string)

  /** The deprecated values `process` and `cgroups` stand for their isolators. */
  function Undeprecated(isolation: string): (flag: string)
    ensures isolation == "process" ==> flag == "posix/cpu,posix/mem"
    ensures isolation == "cgroups" ==> flag == "cgroups/cpu,cgroups/mem"
    ensures isolation != "process" && isolation != "cgroups" ==> flag == isolation
  {
    if isolation == "process" then "posix/cpu,posix/mem"
    else if isolation == "cgroups" then "cgroups/cpu,cgroups/mem"
    else isolation
  }

  /** `filesystem/posix` is added when no filesystem isolator is named. */
  function WithFilesystem(flag: string): (r: string)
    ensures Text.Contains(r, "filesystem/")
    ensures Text.StartsWith(r, flag)
    ensures Text.Contains(flag, "filesystem/") ==> r == flag
  {
    if Text.Contains(flag, "filesystem/") then flag
    else
      ContainsSuffix(flag + ",", "filesystem/posix");
      assert flag + ",filesystem/posix" == (flag + ",") + "filesystem/posix";
      assert Text.Contains("filesystem/posix", "filesystem/") by {
        assert Text.OccursAt("filesystem/posix", "filesystem/", 0);
      }
      ContainsAppend2(flag + ",", "filesystem/posix", "filesystem/");
      assert (flag + ",filesystem/posix")[..|flag|] == flag;
      flag + ",filesystem/posix"
  }

  /** A substring of `t` is a substring of `s + t`. */
  lemma ContainsAppend2(s: string, t: string, sub: string)
    requires Text.Contains(t, sub)
    ensures Text.Contains(s + t, sub)
  {
    var i :| 0 <= i <= |t| - |sub| && Text.OccursAt(t, sub, i);
    assert (s + t)[|s| + i..|s| + i + |sub|] == t[i..i + |sub|];
    assert Text.OccursAt(s + t, sub, |s| + i);
  }

  /**
   * The isolation flag as `create` rewrites it: deprecated values expanded,
   * a filesystem isolator added when none is named, and on Linux a network
   * isolator added when none is named and `volume/image` added with
   * `filesystem/linux`. Naming both `posix/disk` and `disk/du` is an error.
   */
  function NormalizeIsolation(isolation: string, linux: bool): (r: Result<string, CreateError>)
    ensures r.Err? <==>
      Text.Contains(WithFilesystem(Undeprecated(isolation)), "posix/disk") &&
      Text.Contains(WithFilesystem(Undeprecated(isolation)), "disk/du")
    ensures r.Err? ==> r.error == DiskConflict
    ensures r.Ok? ==> Text.StartsWith(r.value, Undeprecated(isolation))
    ensures r.Ok? ==> Text.Contains(r.value, "filesystem/")
    ensures r.Ok? && linux ==> Text.Contains(r.value, "network/")
    ensures r.Ok? && !linux ==> r.value == WithFilesystem(Undeprecated(isolation))
  {
    var flag := WithFilesystem(Undeprecated(isolation));
    if Text.Contains(flag, "posix/disk") && Text.Contains(flag, "disk/du") then Err(DiskConflict)
    else if !linux then Ok(flag)
    else
      var withNetwork := if Text.Contains(flag, "network/") then flag else flag + ",network/cni";
      var withVolume :=
        if Text.Contains(withNetwork, "filesystem/linux") && !Text.Contains(withNetwork, "volume/image")
        then withNetwork + ",volume/image" else withNetwork;
      NormalizeLinux(flag, withNetwork, withVolume);
      Text.PrefixTransitive(withVolume, flag, Undeprecated(isolation));
      Ok(withVolume)
  }

  /** The Linux additions only append, keeping both the filesystem and the network isolator. */
  lemma NormalizeLinux(flag: string, withNetwork: string, withVolume: string)
    requires Text.Contains(flag, "filesystem/")
    requires withNetwork == if Text.Contains(flag, "network/") then flag else flag + ",network/cni"
    requires withVolume ==
      if Text.Contains(withNetwork, "filesystem/linux") && !Text.Contains(withNetwork, "volume/image")
      then withNetwork + ",volume/image" else withNetwork
    ensures Text.StartsWith(withVolume, flag)
    ensures Text.Contains(withVolume, "filesystem/") && Text.Contains(withVolume, "network/")
  {
    if !Text.Contains(flag, "network/") {
      ContainsAppend(flag, ",network/cni", "filesystem/");
      assert Text.Contains("network/cni", "network/") by {
        assert Text.OccursAt("network/cni", "network/", 0);
      }
      assert flag + ",network/cni" == (flag + ",") + "network/cni";
      ContainsAppend2(flag + ",", "network/cni", "network/");
      assert withNetwork[..|flag|] == flag;
    }
    if withVolume != withNetwork {
      ContainsAppend(withNetwork, ",volume/image", "filesystem/");
      ContainsAppend(withNetwork, ",volume/image", "network/");
      assert withVolume[..|withNetwork|] == withNetwork;
      assert withVolume[..|flag|] == withNetwork[..|flag|];
    }
  }

  /** Off Linux a flag without `disk/du` only gains its filesystem isolator. */
  lemma NonLinuxValue(isolation: string, flag: string)
    requires Undeprecated(isolation) == flag
    requires !Text.Contains(flag, "filesystem/")
    requires !Text.Contains(flag + ",filesystem/posix", "disk/du")
    ensures NormalizeIsolation(isolation, false) == Ok(flag + ",filesystem/posix")
  {
  }

  /** A flag without a `d` gains none with its filesystem isolator, and so names no `disk/du`. */
  lemma NoDiskDu(flag: string)
    requires 'd' !in flag
    ensures !Text.Contains(flag + ",filesystem/posix", "disk/du")
  {
    var full := flag + ",filesystem/posix";
    assert 'd' !in ",filesystem/posix";
    assert forall i :: 0 <= i < |full| ==> full[i] != 'd' by {
      forall i | 0 <= i < |full| ensures full[i] != 'd' {
        if i < |flag| { assert full[i] == flag[i]; } else { assert full[i] == ",filesystem/posix"[i - |flag|]; }
      }
    }
    NotContains(full, "disk/du");
  }

  lemma ProcessLiteral()
    ensures "posix/cpu,posix/mem" + ",filesystem/posix" == "posix/cpu,posix/mem,filesystem/posix"
  {
  }

  lemma CgroupsLiteral()
    ensures "cgroups/cpu,cgroups/mem" + ",filesystem/posix" == "cgroups/cpu,cgroups/mem,filesystem/posix"
  {
  }

  /** `process`, as `create` rewrites it off Linux. */
  lemma ProcessValue()
    ensures NormalizeIsolation("process", false) == Ok("posix/cpu,posix/mem,filesystem/posix")
  {
    var flag := "posix/cpu,posix/mem";
    NotContains(flag, "filesystem/");
    NoDiskDu(flag);
    NonLinuxValue("process", flag);
    ProcessLiteral();
  }

  /** `cgroups`, as `create` rewrites it off Linux. */
  lemma CgroupsValue()
    ensures NormalizeIsolation("cgroups", false) == Ok("cgroups/cpu,cgroups/mem,filesystem/posix")
  {
    var flag := "cgroups/cpu,cgroups/mem";
    assert Undeprecated("cgroups") == flag by {
      assert "cgroups" != "process" by {
        assert "cgroups"[0] != "process"[0];
      }
    }
    NotContains(flag, "filesystem/");
    NoDiskDu(flag);
    NonLinuxValue("cgroups", flag);
    CgroupsLiteral();
  }

  // ---------------------------------------------------------------------
  // Tokens: duplicates and the order of a `std::set`

  predicate Distinct(s: seq<string>)
  {
    forall i, j :: 0 <= i < j < |s| ==> s[i] != s[j]
  }

  function ToSet(s: seq<string>): set<string>
  {
    set x | x in s
  }

  /** A sequence has as many distinct elements as entries iff it has no duplicate. */
  lemma {:induction false} DistinctCardinality(s: seq<string>)
    ensures |ToSet(s)| <= |s|
    ensures |ToSet(s)| == |s| <==> Distinct(s)
    decreases |s|
  {
    if s == [] {
      assert ToSet(s) == {};
    } else {
      var tail := s[1..];
      DistinctCardinality(tail);
      assert ToSet(s) == {s[0]} + ToSet(tail);
      if s[0] in tail {
        assert ToSet(s) == ToSet(tail);
        var j :| 0 <= j < |tail| && tail[j] == s[0];
        assert s[0] == s[j + 1];
      } else {
        assert |ToSet(s)| == |ToSet(tail)| + 1;
        if Distinct(tail) {
          forall i, j | 0 <= i < j < |s| ensures s[i] != s[j] {
            if i == 0 {
              assert s[j] == tail[j - 1];
            } else {
              assert s[i] == tail[i - 1] && s[j] == tail[j - 1];
            }
          }
        } else {
          var i, j :| 0 <= i < j < |tail| && tail[i] == tail[j];
          assert s[i + 1] == s[j + 1];
        }
      }
    }
  }

  predicate Sorted(s: seq<string>)
  {
    forall i, j :: 0 <= i < j < |s| ==> Text.Less(s[i], s[j])
  }

  /** Insert a name into a sorted sequence at its place. */
  function Insert(x: string, s: seq<string>): seq<string>
    decreases |s|
  {
    if s == [] then [x]
    else if Text.Less(x, s[0]) then [x] + s
    else [s[0]] + Insert(x, s[1..])
  }

  /** The names in `std::set` order. */
  function SortNames(s: seq<string>): seq<string>
    decreases |s|
  {
    if s == [] then [] else Insert(s[0], SortNames(s[1..]))
  }

  lemma {:induction false} InsertMembers(x: string, s: seq<string>)
    ensures forall y :: y in Insert(x, s) <==> y == x || y in s
    ensures |Insert(x, s)| == |s| + 1
    decreases |s|
  {
    if s != [] && !Text.Less(x, s[0]) {
      InsertMembers(x, s[1..]);
      assert forall y :: y in s <==> y == s[0] || y in s[1..];
    }
  }

  lemma {:induction false} InsertSorted(x: string, s: seq<string>)
    requires Sorted(s) && x !in s
    ensures Sorted(Insert(x, s))
    decreases |s|
  {
    if s == [] {
    } else if Text.Less(x, s[0]) {
      var r := [x] + s;
      forall i, j | 0 <= i < j < |r| ensures Text.Less(r[i], r[j]) {
        if i == 0 && j > 1 {
          Text.LessTransitive(x, s[0], s[j - 1]);
        } else if i > 0 {
          assert r[i] == s[i - 1] && r[j] == s[j - 1];
        }
      }
    } else {
      assert x != s[0];
      Text.LessTotal(x, s[0]);
      var tail := s[1..];
      assert Sorted(tail) by {
        forall i, j | 0 <= i < j < |tail| ensures Text.Less(tail[i], tail[j]) {
          assert tail[i] == s[i + 1] && tail[j] == s[j + 1];
        }
      }
      InsertSorted(x, tail);
      InsertMembers(x, tail);
      var rest := Insert(x, tail);
      var r := [s[0]] + rest;
      forall i, j | 0 <= i < j < |r| ensures Text.Less(r[i], r[j]) {
        if i == 0 {
          var y := rest[j - 1];
          assert r[j] == y && y in rest;
          if y != x {
            assert y in tail;
            var n :| 0 <= n < |tail| && tail[n] == y;
            assert s[n + 1] == y;
          }
        } else {
          assert r[i] == rest[i - 1] && r[j] == rest[j - 1];
        }
      }
    }
  }

  /** Distinct names come out sorted, each exactly once. */
  lemma {:induction false} SortNamesSorted(s: seq<string>)
    requires Distinct(s)
    ensures Sorted(SortNames(s))
    ensures forall y :: y in SortNames(s) <==> y in s
    ensures |SortNames(s)| == |s|
    decreases |s|
  {
    if s != [] {
      var tail := s[1..];
      assert Distinct(tail) by {
        forall i, j | 0 <= i < j < |tail| ensures tail[i] != tail[j] {
          assert tail[i] == s[i + 1] && tail[j] == s[j + 1];
        }
      }
      SortNamesSorted(tail);
      assert s[0] !in tail by {
        forall j | 0 <= j < |tail| ensures tail[j] != s[0] {
          assert tail[j] == s[j + 1];
        }
      }
      InsertSorted(s[0], SortNames(tail));
      InsertMembers(s[0], SortNames(tail));
      assert forall y :: y in s <==> y == s[0] || y in tail;
    }
  }

  // ---------------------------------------------------------------------
  // The isolators

  predicate IsCgroups(name: string)
  {
    Text.StartsWith(name, "cgroups/")
  }

  predicate IsFilesystem(name: string)
  {
    Text.Contains(name, "filesystem/")
  }

  predicate AnyCgroups(names: seq<string>)
  {
    exists i :: 0 <= i < |names| && IsCgroups(names[i])
  }

  /**
   * The isolators created for `names`, taken in order: a cgroups isolator
   * after the first is skipped (one isolator serves them all), a filesystem
   * isolator goes to the front, any other to the back; the first isolator
   * that cannot be created fails the whole.
   */
  function Build(names: seq<string>, create: string -> Option<string>): Result<seq<string>, CreateError>
    decreases |names|
  {
    if names == [] then Ok([])
    else
      var prefix := names[..|names| - 1];
      var x := names[|names| - 1];
      var previous := Build(prefix, create);
      if previous.Err? then previous
      else if IsCgroups(x) && AnyCgroups(prefix) then previous
      else if create(x).Some? then Err(IsolatorFailed(x, create(x).value))
      else if IsFilesystem(x) then Ok([x] + previous.value)
      else Ok(previous.value + [x])
  }

  /** One more name: `Build` of a sequence in terms of `Build` of its prefix. */
  lemma BuildNext(prefix: seq<string>, x: string, create: string -> Option<string>)
    ensures var previous := Build(prefix, create);
      Build(prefix + [x], create) ==
        if previous.Err? then previous
        else if IsCgroups(x) && AnyCgroups(prefix) then previous
        else if create(x).Some? then Err(IsolatorFailed(x, create(x).value))
        else if IsFilesystem(x) then Ok([x] + previous.value)
        else Ok(previous.value + [x])
  {
    assert (prefix + [x])[..|prefix|] == prefix;
  }

  /** Every isolator built is named, and every name other than a cgroups one has its isolator. */
  lemma {:induction false} BuildMembers(names: seq<string>, create: string -> Option<string>)
    requires Build(names, create).Ok?
    ensures forall y :: y in Build(names, create).value ==> y in names
    ensures forall y :: y in names && !IsCgroups(y) ==> y in Build(names, create).value
    decreases |names|
  {
    if names != [] {
      var prefix := names[..|names| - 1];
      var x := names[|names| - 1];
      assert names == prefix + [x];
      BuildNext(prefix, x, create);
      BuildMembers(prefix, create);
      assert forall y :: y in names <==> y in prefix || y == x;
    }
  }

  /**
   * There is at most one cgroups isolator, and there is one whenever a
   * cgroups name is given.
   */
  lemma {:induction false} BuildOneCgroups(names: seq<string>, create: string -> Option<string>)
    requires Build(names, create).Ok?
    ensures AnyCgroups(names) <==> AnyCgroups(Build(names, create).value)
    ensures var r := Build(names, create).value;
      forall i, j :: 0 <= i < |r| && 0 <= j < |r| && IsCgroups(r[i]) && IsCgroups(r[j]) ==> i == j
    decreases |names|
  {
    if names != [] {
      var prefix := names[..|names| - 1];
      var x := names[|names| - 1];
      assert names == prefix + [x];
      BuildNext(prefix, x, create);
      BuildOneCgroups(prefix, create);
      CgroupsOfSnoc(prefix, x);
      var p := Build(prefix, create).value;
      var r := Build(names, create).value;
      if IsCgroups(x) && AnyCgroups(prefix) {
      } else if IsFilesystem(x) {
        CgroupsOfCons(x, p);
        forall i, j | 0 <= i < |r| && 0 <= j < |r| && IsCgroups(r[i]) && IsCgroups(r[j]) ensures i == j {
          OneCgroupsCons(x, p, i, j);
        }
      } else {
        CgroupsOfSnoc(p, x);
        forall i, j | 0 <= i < |r| && 0 <= j < |r| && IsCgroups(r[i]) && IsCgroups(r[j]) ensures i == j {
          OneCgroupsSnoc(p, x, i, j);
        }
      }
    }
  }

  lemma OneCgroupsCons(x: string, p: seq<string>, i: int, j: int)
    requires forall i, j :: 0 <= i < |p| && 0 <= j < |p| && IsCgroups(p[i]) && IsCgroups(p[j]) ==> i == j
    requires IsCgroups(x) ==> !AnyCgroups(p)
    requires 0 <= i < |p| + 1 && 0 <= j < |p| + 1
    requires IsCgroups(([x] + p)[i]) && IsCgroups(([x] + p)[j])
    ensures i == j
  {
    var r := [x] + p;
    if i > 0 && j > 0 {
      assert r[i] == p[i - 1] && r[j] == p[j - 1];
    }
  }

  lemma OneCgroupsSnoc(p: seq<string>, x: string, i: int, j: int)
    requires forall i, j :: 0 <= i < |p| && 0 <= j < |p| && IsCgroups(p[i]) && IsCgroups(p[j]) ==> i == j
    requires IsCgroups(x) ==> !AnyCgroups(p)
    requires 0 <= i < |p| + 1 && 0 <= j < |p| + 1
    requires IsCgroups((p + [x])[i]) && IsCgroups((p + [x])[j])
    ensures i == j
  {
    var r := p + [x];
    if i < |p| && j < |p| {
      assert r[i] == p[i] && r[j] == p[j];
    }
  }

  /** Filesystem isolators come before all others. */
  lemma {:induction false} BuildFilesystemFirst(names: seq<string>, create: string -> Option<string>)
    requires Build(names, create).Ok?
    ensures var r := Build(names, create).value;
      forall i, j :: 0 <= i < j < |r| && IsFilesystem(r[j]) ==> IsFilesystem(r[i])
    decreases |names|
  {
    if names != [] {
      var prefix := names[..|names| - 1];
      var x := names[|names| - 1];
      assert names == prefix + [x];
      BuildNext(prefix, x, create);
      BuildFilesystemFirst(prefix, create);
      var p := Build(prefix, create).value;
      var r := Build(names, create).value;
      if IsCgroups(x) && AnyCgroups(prefix) {
      } else if IsFilesystem(x) {
        forall i, j | 0 <= i < j < |r| && IsFilesystem(r[j]) ensures IsFilesystem(r[i]) {
          if i > 0 {
            assert r[i] == p[i - 1] && r[j] == p[j - 1];
          }
        }
      } else {
        forall i, j | 0 <= i < j < |r| && IsFilesystem(r[j]) ensures IsFilesystem(r[i]) {
          assert r[i] == p[i] && r[j] == p[j];
        }
      }
    }
  }

  lemma CgroupsOfCons(x: string, p: seq<string>)
    ensures AnyCgroups([x] + p) <==> IsCgroups(x) || AnyCgroups(p)
  {
    var r := [x] + p;
    if AnyCgroups(r) {
      var i :| 0 <= i < |r| && IsCgroups(r[i]);
      if i > 0 {
        assert r[i] == p[i - 1];
      }
    }
    if AnyCgroups(p) {
      var i :| 0 <= i < |p| && IsCgroups(p[i]);
      assert r[i + 1] == p[i];
    }
    assert r[0] == x;
  }

  lemma CgroupsOfSnoc(p: seq<string>, x: string)
    ensures AnyCgroups(p + [x]) <==> IsCgroups(x) || AnyCgroups(p)
  {
    var r := p + [x];
    if AnyCgroups(r) {
      var i :| 0 <= i < |r| && IsCgroups(r[i]);
      if i < |p| {
        assert r[i] == p[i];
      }
    }
    if AnyCgroups(p) {
      var i :| 0 <= i < |p| && IsCgroups(p[i]);
      assert r[i] == p[i];
    }
    assert r[|p|] == x;
  }

  /**
   * `create`'s isolators: the normalised flag split at commas, rejected
   * when a token repeats, then built in the sorted order of the names.
   */
  function CreateIsolators(isolation: string, linux: bool, create: string -> Option<string>)
    : (r: Result<seq<string>, CreateError>)
    ensures NormalizeIsolation(isolation, linux).Err? ==> r == Err(DiskConflict)
    ensures r.Ok? ==>
      (NormalizeIsolation(isolation, linux).Ok? &&
       Distinct(Text.Tokenize(NormalizeIsolation(isolation, linux).value, ',')))
    ensures (NormalizeIsolation(isolation, linux).Ok? &&
             !Distinct(Text.Tokenize(NormalizeIsolation(isolation, linux).value, ','))) ==>
      r == Err(DuplicateEntries(Text.Tokenize(NormalizeIsolation(isolation, linux).value, ',')))
  {
    var flag := NormalizeIsolation(isolation, linux);
    if flag.Err? then Err(flag.error)
    else
      var tokens := Text.Tokenize(flag.value, ',');
      DistinctCardinality(tokens);
      if |ToSet(tokens)| != |tokens| then Err(DuplicateEntries(tokens))
      else Build(SortNames(tokens), create)
  }

  /** The loop of `create` over the sorted names, with its `cgroupsIsolatorCreated` flag. */
  method BuildIsolators(names: seq<string>, create: string -> Option<string>)
    returns (r: Result<seq<string>, CreateError>)
    ensures r == Build(names, create)
  {
    var isolators: seq<string> := [];
    var cgroupsIsolatorCreated := false;
    for i := 0 to |names|
      invariant Build(names[..i], create) == Ok(isolators)
      invariant cgroupsIsolatorCreated == AnyCgroups(names[..i])
    {
      var isolation := names[i];
      CgroupsOfSnoc(names[..i], isolation);
      BuildNext(names[..i], isolation, create);
      assert names[..i + 1] == names[..i] + [isolation];
      if IsCgroups(isolation) {
        if cgroupsIsolatorCreated {
          continue;
        } else {
          cgroupsIsolatorCreated := true;
        }
      }
      var failure := create(isolation);
      if failure.Some? {
        BuildFailed(names, i + 1, create);
        return Err(IsolatorFailed(isolation, failure.value));
      }
      if IsFilesystem(isolation) {
        isolators := [isolation] + isolators;
      } else {
        isolators := isolators + [isolation];
      }
    }
    assert names[..|names|] == names;
    return Ok(isolators);
  }

  /** Once a prefix fails, the whole fails the same way. */
  lemma {:induction false} BuildFailed(names: seq<string>, n: nat, create: string -> Option<string>)
    requires n <= |names| && Build(names[..n], create).Err?
    ensures Build(names, create) == Build(names[..n], create)
    decreases |names| - n
  {
    if n < |names| {
      BuildNext(names[..n], names[n], create);
      assert names[..n + 1] == names[..n] + [names[n]];
      BuildFailed(names, n + 1, create);
    } else {
      assert names[..n] == names;
    }
  }

  /** `MesosContainerizer::create`, the isolator part. */
  method Create(isolation: string, linux: bool, create: string -> Option<string>)
    returns (r: Result<seq<string>, CreateError>)
    ensures r == CreateIsolators(isolation, linux, create)
  {
    var flag := NormalizeIsolation(isolation, linux);
    if flag.Err? {
      return Err(flag.error);
    }
    var tokens := Text.Tokenize(flag.value, ',');
    var isolations := ToSet(tokens);
    if |tokens| != |isolations| {
      return Err(DuplicateEntries(tokens));
    }
    r := BuildIsolators(SortNames(tokens), create);
  }

  // ---------------------------------------------------------------------
  // Merging the isolators' launch infos

  datatype Variable = Variable(name: string, value: string)

  datatype CommandInfo = CommandInfo(value: string, arguments: seq<string>, environment: seq<Variable>)

  /** What one isolator's `prepare` asks of the launch. */
  datatype LaunchInfo = LaunchInfo(
    environment: seq<Variable>,
    command: Option<CommandInfo>,
    workingDirectory: Option<string>,
    preExecCommands: seq<CommandInfo>,
    namespaces: Option<set<nat>>)

  /** The launch infos merged. */
  datatype Merged = Merged(
    environment: map<string, string>,
    command: Option<CommandInfo>,
    workingDirectory: Option<string>,
    preExecCommands: seq<CommandInfo>,
    namespaces: set<nat>)

  type MergeError = string

  const MultipleCommands := "At most one command can be returned from isolators"
  const MultipleWorkingDirectories := "At most one working directory can be returned from isolators"

  /** `environment[name] = value` for each variable in turn. */
  function Overlay(env: map<string, string>, vars: seq<Variable>): map<string, string>
    decreases |vars|
  {
    if vars == [] then env
    else
      var last := vars[|vars| - 1];
      Overlay(env, vars[..|vars| - 1])[last.name := last.value]
  }

  /**
   * Overlaying keeps the names already set and adds the variables' names; a
   * variable's value survives unless a later variable has the same name, and
   * a name no variable sets keeps its value.
   */
  lemma OverlayLastWins(env: map<string, string>, vars: seq<Variable>)
    ensures forall n :: n in Overlay(env, vars) <==> n in env || exists i :: 0 <= i < |vars| && vars[i].name == n
    ensures forall i :: 0 <= i < |vars| && (forall j :: i < j < |vars| ==> vars[j].name != vars[i].name) ==>
      Overlay(env, vars)[vars[i].name] == vars[i].value
    ensures forall n :: n in env && (forall i :: 0 <= i < |vars| ==> vars[i].name != n) ==>
      Overlay(env, vars)[n] == env[n]
  {
    OverlayNames(env, vars);
    OverlayLast(env, vars);
    OverlayUntouched(env, vars);
  }

  lemma {:induction false} OverlayNames(env: map<string, string>, vars: seq<Variable>)
    ensures forall n :: n in Overlay(env, vars) <==> n in env || exists i :: 0 <= i < |vars| && vars[i].name == n
    decreases |vars|
  {
    if vars != [] {
      var prefix := vars[..|vars| - 1];
      OverlayNames(env, prefix);
      forall n ensures n in Overlay(env, vars) <==> n in env || exists i :: 0 <= i < |vars| && vars[i].name == n {
        if exists i :: 0 <= i < |vars| && vars[i].name == n {
          var i :| 0 <= i < |vars| && vars[i].name == n;
          if i < |prefix| {
            assert prefix[i] == vars[i];
          }
        }
        if exists i :: 0 <= i < |prefix| && prefix[i].name == n {
          var i :| 0 <= i < |prefix| && prefix[i].name == n;
          assert vars[i] == prefix[i];
        }
      }
    }
  }

  lemma {:induction false} OverlayLast(env: map<string, string>, vars: seq<Variable>)
    ensures forall i :: 0 <= i < |vars| && (forall j :: i < j < |vars| ==> vars[j].name != vars[i].name) ==>
      vars[i].name in Overlay(env, vars) && Overlay(env, vars)[vars[i].name] == vars[i].value
    decreases |vars|
  {
    if vars != [] {
      var prefix := vars[..|vars| - 1];
      OverlayLast(env, prefix);
      forall i | 0 <= i < |vars| && (forall j :: i < j < |vars| ==> vars[j].name != vars[i].name)
        ensures vars[i].name in Overlay(env, vars) && Overlay(env, vars)[vars[i].name] == vars[i].value
      {
        if i < |prefix| {
          assert prefix[i] == vars[i];
          assert forall j :: i < j < |prefix| ==> prefix[j] == vars[j];
        }
      }
    }
  }

  lemma {:induction false} OverlayUntouched(env: map<string, string>, vars: seq<Variable>)
    ensures forall n :: n in env && (forall i :: 0 <= i < |vars| ==> vars[i].name != n) ==>
      n in Overlay(env, vars) && Overlay(env, vars)[n] == env[n]
    decreases |vars|
  {
    if vars != [] {
      var prefix := vars[..|vars| - 1];
      OverlayUntouched(env, prefix);
      forall n | n in env && (forall i :: 0 <= i < |vars| ==> vars[i].name != n)
        ensures n in Overlay(env, vars) && Overlay(env, vars)[n] == env[n]
      {
        assert forall i :: 0 <= i < |prefix| ==> prefix[i] == vars[i];
      }
    }
  }

  /** How many of the infos carry a command. */
  function Commands(infos: seq<Option<LaunchInfo>>): nat
    decreases |infos|
  {
    if infos == [] then 0
    else
      var last := infos[|infos| - 1];
      Commands(infos[..|infos| - 1]) + (if last.Some? && last.value.command.Some? then 1 else 0)
  }

  /** How many of the infos carry a working directory. */
  function WorkingDirectories(infos: seq<Option<LaunchInfo>>): nat
    decreases |infos|
  {
    if infos == [] then 0
    else
      var last := infos[|infos| - 1];
      WorkingDirectories(infos[..|infos| - 1]) + (if last.Some? && last.value.workingDirectory.Some? then 1 else 0)
  }

  /** One launch info merged into what the earlier ones gave. */
  function MergeOne(previous: Merged, info: LaunchInfo): Result<Merged, MergeError>
  {
    if info.command.Some? && previous.command.Some? then Err(MultipleCommands)
    else if info.workingDirectory.Some? && previous.workingDirectory.Some? then Err(MultipleWorkingDirectories)
    else Ok(Merged(
      Overlay(previous.environment, info.environment),
      if info.command.Some? then info.command else previous.command,
      if info.workingDirectory.Some? then info.workingDirectory else previous.workingDirectory,
      previous.preExecCommands + info.preExecCommands,
      if info.namespaces.Some? then previous.namespaces + info.namespaces.value else previous.namespaces))
  }

  /** The loop of `_launch` over the isolators' launch infos, starting from `env`. */
  function MergeInfos(env: map<string, string>, infos: seq<Option<LaunchInfo>>): Result<Merged, MergeError>
    decreases |infos|
  {
    if infos == [] then Ok(Merged(env, None, None, [], {}))
    else
      var previous := MergeInfos(env, infos[..|infos| - 1]);
      var last := infos[|infos| - 1];
      if previous.Err? || last.None? then previous
      else MergeOne(previous.value, last.value)
  }

  /**
   * The merge fails iff more than one isolator returns a command or more
   * than one returns a working directory; when it succeeds, a command
   * (working directory) is chosen iff exactly one isolator returned one.
   */
  lemma {:induction false} MergeFailsOnSecond(env: map<string, string>, infos: seq<Option<LaunchInfo>>)
    ensures MergeInfos(env, infos).Err? <==> Commands(infos) > 1 || WorkingDirectories(infos) > 1
    ensures MergeInfos(env, infos).Ok? ==>
      (MergeInfos(env, infos).value.command.Some? <==> Commands(infos) == 1) &&
      (MergeInfos(env, infos).value.workingDirectory.Some? <==> WorkingDirectories(infos) == 1)
    decreases |infos|
  {
    if infos != [] {
      var prefix := infos[..|infos| - 1];
      MergeFailsOnSecond(env, prefix);
      var last := infos[|infos| - 1];
      if MergeInfos(env, prefix).Err? {
        CountsGrow(prefix, last);
      }
    }
  }

  lemma CountsGrow(prefix: seq<Option<LaunchInfo>>, last: Option<LaunchInfo>)
    ensures Commands(prefix + [last]) >= Commands(prefix)
    ensures WorkingDirectories(prefix + [last]) >= WorkingDirectories(prefix)
  {
    assert (prefix + [last])[..|prefix|] == prefix;
  }

  /** Merging only adds variables: every name already set stays set. */
  lemma {:induction false} MergeKeepsNames(env: map<string, string>, infos: seq<Option<LaunchInfo>>)
    requires MergeInfos(env, infos).Ok?
    ensures forall n :: n in env ==> n in MergeInfos(env, infos).value.environment
    decreases |infos|
  {
    if infos != [] {
      var prefix := infos[..|infos| - 1];
      var last := infos[|infos| - 1];
      assert MergeInfos(env, prefix).Ok?;
      MergeKeepsNames(env, prefix);
      if last.Some? {
        OverlayLastWins(MergeInfos(env, prefix).value.environment, last.value.environment);
      }
    }
  }

  /** The namespaces of the launch (the clone flags, as a set of bits) are the union of those the isolators ask for. */
  lemma {:induction false} MergeNamespaces(env: map<string, string>, infos: seq<Option<LaunchInfo>>)
    requires MergeInfos(env, infos).Ok?
    ensures forall i :: 0 <= i < |infos| && infos[i].Some? && infos[i].value.namespaces.Some? ==>
      infos[i].value.namespaces.value <= MergeInfos(env, infos).value.namespaces
    ensures forall ns :: ns in MergeInfos(env, infos).value.namespaces ==>
      exists i :: 0 <= i < |infos| && infos[i].Some? && infos[i].value.namespaces.Some? && ns in infos[i].value.namespaces.value
    decreases |infos|
  {
    if infos != [] {
      var prefix := infos[..|infos| - 1];
      var last := infos[|infos| - 1];
      var previous := MergeInfos(env, prefix);
      assert previous.Ok?;
      MergeNamespaces(env, prefix);
      assert forall i :: 0 <= i < |prefix| ==> prefix[i] == infos[i];
      assert infos[|infos| - 1] == last;
    }
  }

  /** `environment[name] = value` for each of an isolator's variables. */
  method OverlayVariables(env: map<string, string>, vars: seq<Variable>) returns (environment: map<string, string>)
    ensures environment == Overlay(env, vars)
  {
    environment := env;
    for k := 0 to |vars|
      invariant environment == Overlay(env, vars[..k])
    {
      assert vars[..k + 1][..k] == vars[..k];
      environment := environment[vars[k].name := vars[k].value];
    }
    assert vars[..|vars|] == vars;
  }

  /** One pass of the merge loop of `_launch`: the variables one by one, then the checks. */
  method MergeStep(previous: Merged, info: LaunchInfo) returns (r: Result<Merged, MergeError>)
    ensures r == MergeOne(previous, info)
  {
    var environment := OverlayVariables(previous.environment, info.environment);
    var launchCommand := previous.command;
    if info.command.Some? {
      if launchCommand.Some? {
        return Err(MultipleCommands);
      }
      launchCommand := info.command;
    }
    var workingDirectory := previous.workingDirectory;
    if info.workingDirectory.Some? {
      if workingDirectory.Some? {
        return Err(MultipleWorkingDirectories);
      }
      workingDirectory := info.workingDirectory;
    }
    var namespaces := previous.namespaces;
    if info.namespaces.Some? {
      namespaces := namespaces + info.namespaces.value;
    }
    r := Ok(Merged(environment, launchCommand, workingDirectory, previous.preExecCommands + info.preExecCommands, namespaces));
  }

  /** The merge loop of `_launch`: it stops at the first conflict. */
  method MergeLaunchInfos(env: map<string, string>, infos: seq<Option<LaunchInfo>>)
    returns (r: Result<Merged, MergeError>)
    ensures r == MergeInfos(env, infos)
  {
    var merged := Merged(env, None, None, [], {});
    for i := 0 to |infos|
      invariant MergeInfos(env, infos[..i]) == Ok(merged)
    {
      assert infos[..i + 1][..i] == infos[..i] && infos[..i + 1][i] == infos[i];
      if infos[i].Some? {
        var next := MergeStep(merged, infos[i].value);
        if next.Err? {
          MergeFailedStays(env, infos, i + 1);
          return next;
        }
        merged := next.value;
      }
    }
    assert infos[..|infos|] == infos;
    r := Ok(merged);
  }

  /** Once a prefix of the infos fails to merge, all of them do, the same way. */
  lemma {:induction false} MergeFailedStays(env: map<string, string>, infos: seq<Option<LaunchInfo>>, n: nat)
    requires n <= |infos| && MergeInfos(env, infos[..n]).Err?
    ensures MergeInfos(env, infos) == MergeInfos(env, infos[..n])
    decreases |infos| - n
  {
    if n < |infos| {
      assert infos[..n + 1][..n] == infos[..n];
      MergeFailedStays(env, infos, n + 1);
    } else {
      assert infos[..n] == infos;
    }
  }

  // ---------------------------------------------------------------------
  // Containers

  datatype State = PROVISIONING | PREPARING | ISOLATING | FETCHING | RUNNING | DESTROYING

  /** The position of a state in a launch. */
  function Rank(s: State): nat
  {
    match s
    case PROVISIONING => 0
    case PREPARING => 1
    case ISOLATING => 2
    case FETCHING => 3
    case RUNNING => 4
    case DESTROYING => 5
  }

  /** The state the next launch step moves to: none after running, none once destroying. */
  function Next(s: State): (r: Option<State>)
    ensures r.Some? <==> s != RUNNING && s != DESTROYING
    ensures r.Some? ==> Rank(r.value) == Rank(s) + 1 && r.value != DESTROYING
  {
    match s
    case PROVISIONING => Some(PREPARING)
    case PREPARING => Some(ISOLATING)
    case ISOLATING => Some(FETCHING)
    case FETCHING => Some(RUNNING)
    case RUNNING => None
    case DESTROYING => None
  }

  /** What the container was launched with. */
  datatype Config = Config(directory: string, rootfs: Option<string>, hasTaskInfo: bool, command: CommandInfo)

  datatype Limitation = Limitation(message: string, reason: Option<string>)

  /**
   * A container: its launch state, its configuration, the limitations the
   * isolators reported, and, once `destroy` has started on it, the state it
   * was destroyed from (which decides where the destruction chain starts).
   */
  datatype Container = Container(state: State, config: Config, limitations: seq<Limitation>, destroyedFrom: Option<State>)

  /** The destruction record is present exactly while the container is being destroyed. */
  predicate Tracked(c: Container)
  {
    (c.state == DESTROYING <==> c.destroyedFrom.Some?) &&
    (c.destroyedFrom.Some? ==> c.destroyedFrom.value != DESTROYING)
  }

  /** What is passed to the launcher for the executor. */
  datatype LaunchFlags = LaunchFlags(
    environment: map<string, string>,
    command: CommandInfo,
    workingDirectory: string,
    rootfs: Option<string>,
    preExecCommands: seq<CommandInfo>,
    namespaces: set<nat>)

  /**
   * The launch `_launch` composes for a prepared container: `MESOS_SANDBOX`
   * set first, the launch infos merged, the configured command when no
   * isolator gave one (with `--rootfs=` added for a command task with a root
   * filesystem), the command's own variables last; the executor gets its
   * root filesystem only when it is not a command task, and a working
   * directory of an isolator only inside a root filesystem.
   */
  function ComposeLaunch(config: Config, sandboxDirectory: string, env: map<string, string>, infos: seq<Option<LaunchInfo>>)
    : (r: Result<LaunchFlags, MergeError>)
    ensures r.Err? <==> Commands(infos) > 1 || WorkingDirectories(infos) > 1
    ensures r.Ok? ==> "MESOS_SANDBOX" in r.value.environment
    ensures r.Ok? ==> forall n :: n in env ==> n in r.value.environment
    ensures r.Ok? ==> var vars := config.command.environment;
      forall i :: 0 <= i < |vars| && (forall j :: i < j < |vars| ==> vars[j].name != vars[i].name) ==>
        vars[i].name in r.value.environment && r.value.environment[vars[i].name] == vars[i].value
    ensures r.Ok? && Commands(infos) == 0 && !(config.hasTaskInfo && config.rootfs.Some?) ==>
      r.value.command == config.command
    ensures r.Ok? && Commands(infos) == 0 && config.hasTaskInfo && config.rootfs.Some? ==>
      r.value.command == config.command.(arguments := config.command.arguments + ["--rootfs=" + config.rootfs.value])
    ensures r.Ok? && (config.hasTaskInfo || config.rootfs.None?) ==>
      r.value.rootfs == None && r.value.workingDirectory == config.directory
  {
    var sandbox := if config.rootfs.Some? then sandboxDirectory else config.directory;
    var merged := MergeInfos(env["MESOS_SANDBOX" := sandbox], infos);
    MergeFailsOnSecond(env["MESOS_SANDBOX" := sandbox], infos);
    if merged.Err? then Err(merged.error)
    else
      var m := merged.value;
      MergeKeepsNames(env["MESOS_SANDBOX" := sandbox], infos);
      OverlayLastWins(m.environment, config.command.environment);
      var rootfs := if !config.hasTaskInfo && config.rootfs.Some? then config.rootfs else None;
      var command := if m.command.Some? then m.command.value else config.command;
      var command' :=
        if config.hasTaskInfo && config.rootfs.Some?
        then command.(arguments := command.arguments + ["--rootfs=" + config.rootfs.value])
        else command;
      Ok(LaunchFlags(
        Overlay(m.environment, config.command.environment),
        command',
        if rootfs.None? then config.directory
        else if m.workingDirectory.Some? then m.workingDirectory.value else sandboxDirectory,
        rootfs,
        m.preExecCommands,
        m.namespaces))
  }

  // ---------------------------------------------------------------------
  // Termination

  /** What the agent learns when a container is gone. */
  datatype Termination = Termination(
    status: Option<int>,
    state: Option<Executor.TaskState>,
    reasons: seq<string>,
    message: Option<string>)

  /** The limitations' messages, in order. */
  function Messages(limitations: seq<Limitation>): (r: seq<string>)
    ensures |r| == |limitations|
    ensures forall i :: 0 <= i < |limitations| ==> r[i] == limitations[i].message
  {
    seq(|limitations|, i requires 0 <= i < |limitations| => limitations[i].message)
  }

  /** The reasons of the limitations that have one, in order. */
  function Reasons(limitations: seq<Limitation>): seq<string>
    decreases |limitations|
  {
    if limitations == [] then []
    else
      var last := limitations[|limitations| - 1];
      Reasons(limitations[..|limitations| - 1]) + (if last.reason.Some? then [last.reason.value] else [])
  }

  /** Exactly the reasons the limitations carry, and no more of them than limitations. */
  lemma {:induction false} ReasonsMembers(limitations: seq<Limitation>)
    ensures |Reasons(limitations)| <= |limitations|
    ensures forall r :: r in Reasons(limitations) <==>
      exists i :: 0 <= i < |limitations| && limitations[i].reason == Some(r)
    decreases |limitations|
  {
    if limitations != [] {
      var prefix := limitations[..|limitations| - 1];
      ReasonsMembers(prefix);
      forall r ensures r in Reasons(limitations) <==> exists i :: 0 <= i < |limitations| && limitations[i].reason == Some(r) {
        if exists i :: 0 <= i < |limitations| && limitations[i].reason == Some(r) {
          var i :| 0 <= i < |limitations| && limitations[i].reason == Some(r);
          if i < |prefix| {
            assert prefix[i] == limitations[i];
          }
        }
        if exists i :: 0 <= i < |prefix| && prefix[i].reason == Some(r) {
          var i :| 0 <= i < |prefix| && prefix[i].reason == Some(r);
          assert limitations[i] == prefix[i];
        }
      }
    }
  }

  /**
   * The termination `_____destroy` reports: the executor's exit status when
   * known; with any limitation, the task failed, the reasons given and the
   * messages joined by "; "; without one, no state and no message.
   */
  function TerminationOf(limitations: seq<Limitation>, status: Option<int>): (t: Termination)
    ensures t.status == status
    ensures t.state.Some? <==> limitations != []
    ensures t.state.Some? ==> t.state.value == Executor.TASK_FAILED
    ensures t.message.Some? <==> limitations != []
    ensures t.message.Some? ==> t.message.value == Text.Join(Messages(limitations), "; ")
    ensures |limitations| == 1 ==> t.message == Some(limitations[0].message)
    ensures |t.reasons| <= |limitations|
    ensures forall r :: r in t.reasons <==> exists i :: 0 <= i < |limitations| && limitations[i].reason == Some(r)
  {
    ReasonsMembers(limitations);
    if limitations == [] then Termination(status, None, [], None)
    else Termination(status, Some(Executor.TASK_FAILED), Reasons(limitations), Some(Text.Join(Messages(limitations), "; ")))
  }

  /** The loop of `_____destroy` over the limitations. */
  method ComposeTermination(limitations: seq<Limitation>, status: Option<int>) returns (t: Termination)
    ensures t == TerminationOf(limitations, status)
  {
    t := Termination(status, None, [], None);
    if limitations != [] {
      var messages: seq<string> := [];
      var reasons: seq<string> := [];
      for i := 0 to |limitations|
        invariant messages == Messages(limitations[..i])
        invariant reasons == Reasons(limitations[..i])
      {
        assert limitations[..i + 1][..i] == limitations[..i];
        messages := messages + [limitations[i].message];
        if limitations[i].reason.Some? {
          reasons := reasons + [limitations[i].reason.value];
        }
      }
      assert limitations[..|limitations|] == limitations;
      t := Termination(status, Some(Executor.TASK_FAILED), reasons, Some(Text.Join(messages, "; ")));
    }
  }

  const KillFailed := "Failed to kill all processes in the container: "
  const CleanupFailed := "Failed to clean up an isolator when destroying container: "
  const RootfsFailed := "Failed to destroy the provisioned rootfs when destroying container: "

  /**
   * How the destruction chain after the launcher's kill ends: the first
   * failing stage (launcher, isolator clean-ups, provisioner) fails the
   * container's promise with its message; otherwise the termination.
   */
  function DestroyOutcome(
    limitations: seq<Limitation>, killError: Option<string>, cleanupErrors: seq<string>,
    rootfsError: Option<string>, status: Option<int>): (r: Result<Termination, string>)
    ensures killError.Some? ==> r == Err(KillFailed + killError.value)
    ensures killError.None? && cleanupErrors != [] ==> r == Err(CleanupFailed + Text.Join(cleanupErrors, "; "))
    ensures r.Ok? <==> killError.None? && cleanupErrors == [] && rootfsError.None?
    ensures r.Ok? ==> r.value == TerminationOf(limitations, status)
  {
    if killError.Some? then Err(KillFailed + killError.value)
    else if cleanupErrors != [] then Err(CleanupFailed + Text.Join(cleanupErrors, "; "))
    else if rootfsError.Some? then Err(RootfsFailed + rootfsError.value)
    else Ok(TerminationOf(limitations, status))
  }

  // ---------------------------------------------------------------------
  // The containerizer process

  /** The container's provisioned image, when it has one. */
  datatype ProvisionInfo = ProvisionInfo(rootfs: string, dockerManifest: bool, appcManifest: bool)

  /** A settled container promise. */
  datatype Outcome = Outcome(id: string, result: Result<Termination, string>)

  /** How many of the outcomes are failures: the `container_destroy_errors` metric. */
  function Failures(outcomes: seq<Outcome>): (n: nat)
    ensures n <= |outcomes|
    decreases |outcomes|
  {
    if outcomes == [] then 0
    else Failures(outcomes[..|outcomes| - 1]) + (if outcomes[|outcomes| - 1].result.Err? then 1 else 0)
  }

  /**
   * The check every step of a launch makes before it moves the container on:
   * the container must still exist and not be being destroyed; `phase` names
   * the step before it in the messages.
   */
  function Advance(containers: map<string, Container>, id: string, from: State, phase: string)
    : (r: Result<map<string, Container>, string>)
    requires from != RUNNING && from != DESTROYING
    ensures r.Err? <==> id !in containers || containers[id].state == DESTROYING
    ensures id !in containers ==> r == Err("Container destroyed during " + phase)
    ensures r.Ok? ==> r.value.Keys == containers.Keys && r.value[id].state == Next(from).value
    ensures r.Ok? ==> r.value[id].config == containers[id].config && r.value[id].limitations == containers[id].limitations
    ensures r.Ok? ==> r.value[id].destroyedFrom == containers[id].destroyedFrom
    ensures r.Ok? ==> forall other :: other in containers && other != id ==> r.value[other] == containers[other]
  {
    if id !in containers then Err("Container destroyed during " + phase)
    else if containers[id].state == DESTROYING then Err("Container is being destroyed during " + phase)
    else Ok(containers[id := containers[id].(state := Next(from).value)])
  }

  /**
   * `destroy` as a change of the map: a known container not yet destroying
   * starts to be destroyed, and remembers the state it was in.
   */
  function Destroyed(containers: map<string, Container>, id: string): (r: map<string, Container>)
    ensures r.Keys == containers.Keys
    ensures id in containers ==> r[id].state == DESTROYING && r[id].limitations == containers[id].limitations
    ensures id in containers && containers[id].state != DESTROYING ==> r[id].destroyedFrom == Some(containers[id].state)
    ensures id in containers && containers[id].state == DESTROYING ==> r[id] == containers[id]
    ensures forall other :: other in containers && other != id ==> r[other] == containers[other]
  {
    if id in containers && containers[id].state != DESTROYING
    then containers[id := containers[id].(state := DESTROYING, destroyedFrom := Some(containers[id].state))]
    else containers
  }

  /** Once destroy has run, no step of the launch gets past its check. */
  lemma NoStepAfterDestroy(containers: map<string, Container>, id: string, from: State, phase: string)
    requires from != RUNNING && from != DESTROYING
    requires id in containers
    ensures Advance(Destroyed(containers, id), id, from, phase) == Err("Container is being destroyed during " + phase)
  {
  }

  /** Each step advances a launching container by exactly one state, never to destroying. */
  lemma AdvanceIsForward(containers: map<string, Container>, id: string, from: State, phase: string)
    requires from != RUNNING && from != DESTROYING
    requires id in containers && containers[id].state == from
    ensures Advance(containers, id, from, phase).Ok?
    ensures Rank(Advance(containers, id, from, phase).value[id].state) == Rank(from) + 1
    ensures Advance(containers, id, from, phase).value[id].state != DESTROYING
  {
  }

  /** `MesosContainerizerProcess`: the containers and what became of those that are gone. */
  class Containerizer {
    /** The `sandbox_directory` flag: where the sandbox is inside a root filesystem. */
    const sandboxDirectory: string
    var containers: map<string, Container>
    /** Launch infos the isolators' `prepare` gave, per container. */
    var launchInfos: map<string, seq<Option<LaunchInfo>>>
    /** Every container promise settled, in order. */
    var outcomes: seq<Outcome>
    /** The containers whose fetch was killed. */
    var killedFetches: seq<string>
    var destroyErrors: nat

    ghost predicate Valid()
      reads this
    {
      destroyErrors == Failures(outcomes) &&
      launchInfos.Keys <= containers.Keys &&
      forall i :: i in containers ==> Tracked(containers[i])
    }

    constructor (sandboxDirectory: string)
      ensures Valid()
      ensures this.sandboxDirectory == sandboxDirectory
      ensures containers == map[] && launchInfos == map[] && outcomes == [] && killedFetches == []
    {
      this.sandboxDirectory := sandboxDirectory;
      containers := map[];
      launchInfos := map[];
      outcomes := [];
      killedFetches := [];
      destroyErrors := 0;
    }

    /**
     * `launch`: a known container fails the launch; a container that is not
     * of the MESOS type is declined; otherwise it is recorded as provisioning.
     */
    method Launch(id: string, config: Config, mesos: bool) returns (r: Result<bool, string>)
      requires Valid()
      modifies this
      ensures Valid()
      ensures old(id in containers) ==> r == Err("Container already started") && containers == old(containers)
      ensures old(id !in containers) && !mesos ==> r == Ok(false) && containers == old(containers)
      ensures old(id !in containers) && mesos ==> r == Ok(true) && containers == old(containers)[id := Container(PROVISIONING, config, [], None)]
      ensures launchInfos == old(launchInfos) && outcomes == old(outcomes) && killedFetches == old(killedFetches)
      ensures destroyErrors == old(destroyErrors)
    {
      if id in containers {
        return Err("Container already started");
      }
      if !mesos {
        return Ok(false);
      }
      containers := containers[id := Container(PROVISIONING, config, [], None)];
      r := Ok(true);
    }

    /**
     * `prepare`: after the check, the container is preparing and takes the
     * provisioned root filesystem; both image manifests fail it; otherwise
     * the isolators' launch infos are recorded.
     */
    method Prepare(id: string, provision: Option<ProvisionInfo>, infos: seq<Option<LaunchInfo>>)
      returns (failure: Option<string>)
      requires Valid()
      requires id in containers && containers[id].state != DESTROYING ==> containers[id].state == PROVISIONING
      modifies this
      ensures Valid()
      ensures var step := Advance(old(containers), id, PROVISIONING, "provisioning");
        if step.Err? then failure == Some(step.error) && containers == old(containers) && launchInfos == old(launchInfos)
        else
          var prepared := step.value[id].(config := if provision.Some? then step.value[id].config.(rootfs := Some(provision.value.rootfs)) else step.value[id].config);
          containers == step.value[id := prepared] &&
          if provision.Some? && provision.value.dockerManifest && provision.value.appcManifest
          then failure == Some("Container cannot have both Docker and Appc manifests") && launchInfos == old(launchInfos)
          else failure == None && launchInfos == old(launchInfos)[id := infos]
      ensures outcomes == old(outcomes) && killedFetches == old(killedFetches) && destroyErrors == old(destroyErrors)
    {
      var step := Advance(containers, id, PROVISIONING, "provisioning");
      if step.Err? {
        return Some(step.error);
      }
      var container := step.value[id];
      if provision.Some? {
        container := container.(config := container.config.(rootfs := Some(provision.value.rootfs)));
      }
      containers := step.value[id := container];
      if provision.Some? && provision.value.dockerManifest && provision.value.appcManifest {
        return Some("Container cannot have both Docker and Appc manifests");
      }
      launchInfos := launchInfos[id := infos];
      failure := None;
    }

    /**
     * The first part of `_launch`: after the check, the launch composed from
     * the recorded launch infos, or the merge's failure.
     */
    method ComposeLaunchFor(id: string, env: map<string, string>) returns (r: Result<LaunchFlags, string>)
      requires id in containers && containers[id].state != DESTROYING ==> containers[id].state == PREPARING && id in launchInfos
      ensures id !in containers ==> r == Err("Container destroyed during preparing")
      ensures id in containers && containers[id].state == DESTROYING ==> r == Err("Container is being destroyed during preparing")
      ensures id in containers && containers[id].state != DESTROYING ==>
        r == ComposeLaunch(containers[id].config, sandboxDirectory, env, launchInfos[id])
    {
      if id !in containers {
        return Err("Container destroyed during preparing");
      }
      var config := containers[id].config;
      if containers[id].state == DESTROYING {
        return Err("Container is being destroyed during preparing");
      }
      var sandbox := if config.rootfs.Some? then sandboxDirectory else config.directory;
      var infos := launchInfos[id];
      MergeFailsOnSecond(env["MESOS_SANDBOX" := sandbox], infos);
      var merged := MergeLaunchInfos(env["MESOS_SANDBOX" := sandbox], infos);
      if merged.Err? {
        return Err(merged.error);
      }
      var m := merged.value;
      var rootfs: Option<string> := None;
      if !config.hasTaskInfo && config.rootfs.Some? {
        rootfs := config.rootfs;
      }
      var command := if m.command.Some? then m.command.value else config.command;
      if config.hasTaskInfo && config.rootfs.Some? {
        command := command.(arguments := command.arguments + ["--rootfs=" + config.rootfs.value]);
      }
      var environment := OverlayVariables(m.environment, config.command.environment);
      var workingDirectory := config.directory;
      if rootfs.Some? {
        workingDirectory := if m.workingDirectory.Some? then m.workingDirectory.value else sandboxDirectory;
      }
      r := Ok(LaunchFlags(environment, command, workingDirectory, rootfs, m.preExecCommands, m.namespaces));
    }

    /** `isolate`: a preparing container starts isolating. */
    method Isolate(id: string) returns (failure: Option<string>)
      requires Valid()
      requires id in containers && containers[id].state != DESTROYING ==> containers[id].state == PREPARING
      modifies this
      ensures Valid()
      ensures var step := Advance(old(containers), id, PREPARING, "preparing");
        if step.Err? then failure == Some(step.error) && containers == old(containers)
        else failure == None && containers == step.value
      ensures launchInfos == old(launchInfos) && outcomes == old(outcomes)
      ensures killedFetches == old(killedFetches) && destroyErrors == old(destroyErrors)
    {
      var step := Advance(containers, id, PREPARING, "preparing");
      if step.Err? {
        return Some(step.error);
      }
      containers := step.value;
      failure := None;
    }

    /** `fetch`: an isolated container starts fetching. */
    method Fetch(id: string) returns (failure: Option<string>)
      requires Valid()
      requires id in containers && containers[id].state != DESTROYING ==> containers[id].state == ISOLATING
      modifies this
      ensures Valid()
      ensures var step := Advance(old(containers), id, ISOLATING, "isolating");
        if step.Err? then failure == Some(step.error) && containers == old(containers)
        else failure == None && containers == step.value
      ensures launchInfos == old(launchInfos) && outcomes == old(outcomes)
      ensures killedFetches == old(killedFetches) && destroyErrors == old(destroyErrors)
    {
      var step := Advance(containers, id, ISOLATING, "isolating");
      if step.Err? {
        return Some(step.error);
      }
      containers := step.value;
      failure := None;
    }

    /**
     * `exec`: signal the forked child through the pipe; a failed write fails
     * the launch and leaves the container fetching, a good one makes it run.
     */
    method Exec(id: string, writeError: Option<string>) returns (failure: Option<string>)
      requires Valid()
      requires id in containers && containers[id].state != DESTROYING ==> containers[id].state == FETCHING
      modifies this
      ensures Valid()
      ensures var step := Advance(old(containers), id, FETCHING, "fetching");
        if step.Err? then failure == Some(step.error) && containers == old(containers)
        else if writeError.Some? then
          failure == Some("Failed to synchronize child process: " + writeError.value) && containers == old(containers)
        else failure == None && containers == step.value && containers[id].state == RUNNING
      ensures launchInfos == old(launchInfos) && outcomes == old(outcomes)
      ensures killedFetches == old(killedFetches) && destroyErrors == old(destroyErrors)
    {
      var step := Advance(containers, id, FETCHING, "fetching");
      if step.Err? {
        return Some(step.error);
      }
      if writeError.Some? {
        return Some("Failed to synchronize child process: " + writeError.value);
      }
      containers := step.value;
      failure := None;
    }

    /**
     * `destroy`: an unknown container or one already being destroyed is left
     * alone; a fetching one has its fetch killed; any other starts to be
     * destroyed.
     */
    method Destroy(id: string)
      requires Valid()
      modifies this
      ensures Valid()
      ensures containers == Destroyed(old(containers), id)
      ensures killedFetches == old(killedFetches) + (if id in old(containers) && old(containers)[id].state == FETCHING then [id] else [])
      ensures launchInfos == old(launchInfos) && outcomes == old(outcomes) && destroyErrors == old(destroyErrors)
    {
      if id !in containers || containers[id].state == DESTROYING {
        return;
      }
      if containers[id].state == FETCHING {
        killedFetches := killedFetches + [id];
      }
      containers := containers[id := containers[id].(state := DESTROYING, destroyedFrom := Some(containers[id].state))];
    }

    /** `reaped`: the executor exited, so its container is destroyed. */
    method Reaped(id: string)
      requires Valid()
      modifies this
      ensures Valid()
      ensures containers == Destroyed(old(containers), id)
      ensures killedFetches == old(killedFetches) + (if id in old(containers) && old(containers)[id].state == FETCHING then [id] else [])
      ensures launchInfos == old(launchInfos) && outcomes == old(outcomes) && destroyErrors == old(destroyErrors)
    {
      if id !in containers {
        return;
      }
      Destroy(id);
    }

    /**
     * `limited`: an isolator's limitation (None when its future failed) is
     * recorded and the container destroyed, unless the container is gone or
     * already being destroyed.
     */
    method Limited(id: string, limitation: Option<Limitation>)
      requires Valid()
      modifies this
      ensures Valid()
      ensures id !in old(containers) || old(containers)[id].state == DESTROYING ==>
        containers == old(containers) && killedFetches == old(killedFetches)
      ensures id in old(containers) && old(containers)[id].state != DESTROYING ==>
        containers == old(containers)[id := Container(DESTROYING, old(containers)[id].config,
          old(containers)[id].limitations + (if limitation.Some? then [limitation.value] else []),
          Some(old(containers)[id].state))] &&
        killedFetches == old(killedFetches) + (if old(containers)[id].state == FETCHING then [id] else [])
      ensures launchInfos == old(launchInfos) && outcomes == old(outcomes) && destroyErrors == old(destroyErrors)
    {
      if id !in containers || containers[id].state == DESTROYING {
        return;
      }
      var container := containers[id];
      var limitations := container.limitations + (if limitation.Some? then [limitation.value] else []);
      containers := containers[id := container.(limitations := limitations)];
      Destroy(id);
      assert containers[id] == Container(DESTROYING, container.config, limitations, Some(container.state));
    }

    /**
     * The destruction chain from `__destroy` to `_____destroy` for a
     * container being destroyed: the container is forgotten and its promise
     * settles with `DestroyOutcome`; each failure counts as a destroy error.
     * Where the chain starts depends on the state `destroy` found: a
     * provisioning container skips the launcher's kill and the isolators'
     * clean-up (it has no executor, hence no exit status), a preparing one
     * skips the kill, and the others go through the whole chain. The inputs
     * are the results of the stages that run.
     */
    method FinishDestroy(
      id: string, killError: Option<string>, cleanupErrors: seq<string>,
      rootfsError: Option<string>, status: Option<int>)
      requires Valid()
      requires id in containers && containers[id].state == DESTROYING
      requires containers[id].destroyedFrom == Some(PROVISIONING) ==> killError.None? && cleanupErrors == [] && status.None?
      requires containers[id].destroyedFrom == Some(PREPARING) ==> killError.None?
      modifies this
      ensures Valid()
      ensures containers == old(containers) - {id}
      ensures launchInfos == old(launchInfos) - {id}
      ensures outcomes == old(outcomes) + [Outcome(id, DestroyOutcome(old(containers)[id].limitations, killError, cleanupErrors, rootfsError, status))]
      ensures destroyErrors == old(destroyErrors) + (if outcomes[|outcomes| - 1].result.Err? then 1 else 0)
      ensures killedFetches == old(killedFetches)
    {
      var result: Result<Termination, string>;
      if killError.Some? {
        result := Err(KillFailed + killError.value);
      } else if cleanupErrors != [] {
        result := Err(CleanupFailed + Text.Join(cleanupErrors, "; "));
      } else if rootfsError.Some? {
        result := Err(RootfsFailed + rootfsError.value);
      } else {
        var termination := ComposeTermination(containers[id].limitations, status);
        result := Ok(termination);
      }
      assert (outcomes + [Outcome(id, result)])[..|outcomes|] == outcomes;
      outcomes := outcomes + [Outcome(id, result)];
      if result.Err? {
        destroyErrors := destroyErrors + 1;
      }
      containers := containers - {id};
      launchInfos := launchInfos - {id};
    }
  }
}
