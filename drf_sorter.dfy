/**
 * The Dominant Resource Fairness sorter of the allocator: clients with their
 * allocations and weights, the pool of total resources, and the ordering of
 * the active clients by share. Shares are recomputed lazily: a change to the
 * total marks the sorter dirty, and the next `sort` recomputes every share.
 */
module DrfSorter {
  import opened Wrappers
  import opened Quantities
  import Qty = Quantities
  import opened DrfClients

  /** What a client holds: per agent, and summed as stripped scalar quantities. */
  datatype Allocation = Allocation(resources: map<string, Quantities>, scalarQuantities: Quantities)

  /** What a client holds on agent `slave`; no entry counts as nothing. */
  function On(a: Allocation, slave: string): Quantities
  {
    if slave in a.resources then a.resources[slave] else map[]
  }

  /** `allocated`: add `r` to the agent's entry and to the scalar sum. */
  function Grant(a: Allocation, slave: string, r: Quantities): Allocation
  {
    Allocation(a.resources[slave := Add(On(a, slave), r)], Add(a.scalarQuantities, r))
  }

  /** `unallocated`: take `r` from the agent's entry and the scalar sum; an agent left with nothing loses its entry. */
  function Release(a: Allocation, slave: string, r: Quantities): Allocation
  {
    var left := Sub(On(a, slave), r);
    Allocation(if IsEmpty(left) then a.resources - {slave} else a.resources[slave := left],
               Sub(a.scalarQuantities, r))
  }

  /** `update(name, slave, old, new)`: swap `old` for `new` in the agent's entry and the scalar sum; the entry stays even when left empty. */
  function Exchange(a: Allocation, slave: string, oldAllocation: Quantities, newAllocation: Quantities): Allocation
  {
    Allocation(a.resources[slave := Add(Sub(On(a, slave), oldAllocation), newAllocation)],
               Add(Sub(a.scalarQuantities, oldAllocation), newAllocation))
  }

  /** Releasing what was just granted restores the allocation, unless the agent had an empty entry before. */
  lemma ReleaseGrant(a: Allocation, slave: string, r: Quantities)
    requires slave in a.resources ==> !IsEmpty(a.resources[slave])
    ensures Release(Grant(a, slave, r), slave, r) == a
  {
    var g := Grant(a, slave, r);
    var on := On(a, slave);
    assert On(g, slave) == Add(on, r);
    assert Sub(On(g, slave), r) == on by { SubAdd(on, r); }
    assert Release(g, slave, r).scalarQuantities == a.scalarQuantities by { SubAdd(a.scalarQuantities, r); }
    assert Release(g, slave, r).resources == a.resources by {
      if IsEmpty(on) {
        UpdateThenRemove(a.resources, slave, Add(on, r));
      } else {
        UpdateThenRestore(a.resources, slave, Add(on, r));
      }
    }
  }

  lemma UpdateThenRemove<K, V>(m: map<K, V>, k: K, v: V)
    requires k !in m
    ensures m[k := v] - {k} == m
  {
  }

  lemma UpdateThenRestore<K, V>(m: map<K, V>, k: K, v: V)
    requires k in m
    ensures m[k := v][k := m[k]] == m
  {
  }

  /** Granting back what was released restores the scalar sum, and the agent's entry when it was not emptied. */
  lemma GrantRelease(a: Allocation, slave: string, r: Quantities)
    requires Contains(On(a, slave), r) && Contains(a.scalarQuantities, r)
    ensures Grant(Release(a, slave, r), slave, r).scalarQuantities == a.scalarQuantities
    ensures On(Grant(Release(a, slave, r), slave, r), slave) == On(a, slave)
  {
    AddSub(On(a, slave), r);
    AddSub(a.scalarQuantities, r);
  }

  /** `fairnessExcludeResourceNames` names resource `n`. */
  predicate Excluded(exclude: Option<set<string>>, n: string)
  {
    exclude.Some? && n in exclude.value
  }

  /** The fraction of the total of `n` that `alloc` holds. */
  function Ratio(alloc: Quantities, total: Quantities, n: string): (f: real)
    requires n in total
    ensures f >= 0.0
  {
    Get(alloc, n) / total[n]
  }

  /**
   * `d` is the largest `Ratio` over the non-excluded names in `names`, or 0 when
   * there is none (the maximum starts from 0).
   */
  ghost predicate IsDominantOver(d: real, alloc: Quantities, total: Quantities, exclude: Option<set<string>>, names: set<string>)
    requires names <= total.Keys
  {
    d >= 0.0 &&
    (forall n :: n in names && !Excluded(exclude, n) ==> Ratio(alloc, total, n) <= d) &&
    (d == 0.0 || exists n :: n in names && !Excluded(exclude, n) && Ratio(alloc, total, n) == d)
  }

  /** The dominant share of `alloc` over the whole total. */
  ghost predicate IsDominant(d: real, alloc: Quantities, total: Quantities, exclude: Option<set<string>>)
  {
    IsDominantOver(d, alloc, total, exclude, total.Keys)
  }

  /** At most one value is the dominant share. */
  lemma DominantUnique(d1: real, d2: real, alloc: Quantities, total: Quantities, exclude: Option<set<string>>, names: set<string>)
    requires names <= total.Keys
    requires IsDominantOver(d1, alloc, total, exclude, names) && IsDominantOver(d2, alloc, total, exclude, names)
    ensures d1 == d2
  {
  }

  /** Some value is the dominant share over any set of names of the total. */
  lemma {:induction false} DominantExists(alloc: Quantities, total: Quantities, exclude: Option<set<string>>, names: set<string>)
    requires names <= total.Keys
    ensures exists d :: IsDominantOver(d, alloc, total, exclude, names)
    decreases names
  {
    if names == {} {
      assert IsDominantOver(0.0, alloc, total, exclude, names);
    } else {
      var n :| n in names;
      DominantExists(alloc, total, exclude, names - {n});
      var d :| IsDominantOver(d, alloc, total, exclude, names - {n});
      if Excluded(exclude, n) || Ratio(alloc, total, n) <= d {
        assert IsDominantOver(d, alloc, total, exclude, names);
      } else {
        assert IsDominantOver(Ratio(alloc, total, n), alloc, total, exclude, names);
      }
    }
  }

  /** The dominant share of `alloc` within `total`. */
  ghost function Dominant(alloc: Quantities, total: Quantities, exclude: Option<set<string>>): (d: real)
    ensures IsDominant(d, alloc, total, exclude)
  {
    DominantExists(alloc, total, exclude, total.Keys);
    var d :| IsDominantOver(d, alloc, total, exclude, total.Keys);
    d
  }

  /** The share of a client holding `alloc` with weight `weight`: its dominant share divided by its weight. */
  ghost function Share(alloc: Quantities, total: Quantities, exclude: Option<set<string>>, weight: real): real
    requires weight > 0.0
  {
    Dominant(alloc, total, exclude) / weight
  }

  /** A client holding nothing has share 0. */
  lemma ShareOfNothing(total: Quantities, exclude: Option<set<string>>, weight: real)
    requires weight > 0.0
    ensures Share(map[], total, exclude, weight) == 0.0
  {
    forall n | n in total && !Excluded(exclude, n) ensures Ratio(map[], total, n) <= 0.0 {
      assert Get(map[], n) == 0.0;
    }
    DominantUnique(Dominant(map[], total, exclude), 0.0, map[], total, exclude, total.Keys);
  }

  /**
   * `DRFSorter::calculateShare`: the largest fraction of the total that the
   * client holds, over the scalar names of the total not excluded from
   * fairness and with a positive total, divided by the client's weight.
   */
  method CalculateShare(alloc: Quantities, total: Quantities, exclude: Option<set<string>>, weight: real)
    returns (share: real)
    requires weight > 0.0
    ensures share == Share(alloc, total, exclude, weight)
  {
    var dominant := 0.0;
    var names := total.Keys;
    ghost var seen: set<string> := {};
    while names != {}
      invariant names + seen == total.Keys && names !! seen
      invariant IsDominantOver(dominant, alloc, total, exclude, seen)
      decreases names
    {
      var n :| n in names;
      names := names - {n};
      seen := seen + {n};
      if exclude.Some? && n in exclude.value {
        continue;
      }
      var allocation := 0.0;
      if n in alloc {
        allocation := alloc[n];
      }
      if allocation / total[n] > dominant {
        dominant := allocation / total[n];
      }
    }
    share := dominant / weight;
    DominantUnique(dominant, Dominant(alloc, total, exclude), alloc, total, exclude, total.Keys);
  }

  /** The share recorded for `c` is what `calculateShare` gives in this state. */
  ghost predicate Current(c: Client, allocations: map<string, Allocation>, weights: map<string, real>,
                          total: Quantities, exclude: Option<set<string>>)
  {
    c.name in allocations && c.name in weights && weights[c.name] > 0.0 &&
    c.share == Share(allocations[c.name].scalarQuantities, total, exclude, weights[c.name])
  }

  /** The table `s` with every share recomputed in the given state: what `sort` rebuilds from. */
  ghost function Recomputed(s: seq<Client>, allocations: map<string, Allocation>, weights: map<string, real>,
                            total: Quantities, exclude: Option<set<string>>): (r: seq<Client>)
    requires forall c :: c in s ==> c.name in allocations && c.name in weights && weights[c.name] > 0.0
    ensures |r| == |s|
    ensures forall i :: 0 <= i < |s| ==>
      r[i] == s[i].(share := Share(allocations[s[i].name].scalarQuantities, total, exclude, weights[s[i].name]))
  {
    seq(|s|, i requires 0 <= i < |s| =>
      s[i].(share := Share(allocations[s[i].name].scalarQuantities, total, exclude, weights[s[i].name])))
  }

  /** Recomputing shares that are all current changes nothing. */
  lemma RecomputedCurrent(s: seq<Client>, allocations: map<string, Allocation>, weights: map<string, real>,
                          total: Quantities, exclude: Option<set<string>>)
    requires AllCurrent(s, allocations, weights, total, exclude)
    ensures Recomputed(s, allocations, weights, total, exclude) == s
  {
    var r := Recomputed(s, allocations, weights, total, exclude);
    forall i | 0 <= i < |s| ensures r[i] == s[i] {
      assert s[i] in s;
    }
  }

  /**
   * The shape every sorter state keeps, whether or not the shares are
   * current. Every weighted client has an allocation, but not the other way
   * round: `allocated` and `unallocated` on a name nobody added create an
   * allocation entry with no weight (`allocations[name]` inserts a default).
   */
  ghost predicate Shaped(clients: seq<Client>, allocations: map<string, Allocation>, weights: map<string, real>)
  {
    Sorted(clients) && DistinctNames(clients) &&
    (forall c :: c in clients ==> c.name in weights) &&
    weights.Keys <= allocations.Keys &&
    (forall n :: n in weights ==> weights[n] > 0.0)
  }

  /** Every client in the table has a current share. */
  ghost predicate AllCurrent(clients: seq<Client>, allocations: map<string, Allocation>, weights: map<string, real>,
                             total: Quantities, exclude: Option<set<string>>)
  {
    forall c :: c in clients ==> Current(c, allocations, weights, total, exclude)
  }

  /** Every client in the table other than `name` has a current share. */
  ghost predicate CurrentExcept(clients: seq<Client>, allocations: map<string, Allocation>, weights: map<string, real>,
                                total: Quantities, exclude: Option<set<string>>, name: string)
  {
    forall c :: c in clients && c.name != name ==> Current(c, allocations, weights, total, exclude)
  }

  /** A table made of `c`, current, and of entries of `s` under other names, current there, is all current. */
  lemma ReplaceCurrent(s: seq<Client>, t: seq<Client>, c: Client, allocations: map<string, Allocation>,
                       weights: map<string, real>, total: Quantities, exclude: Option<set<string>>)
    requires forall x :: x in t ==> x == c || (x in s && x.name != c.name)
    requires CurrentExcept(s, allocations, weights, total, exclude, c.name)
    requires Current(c, allocations, weights, total, exclude)
    ensures AllCurrent(t, allocations, weights, total, exclude)
  {
  }

  /** Entries other than `name` stay current when the maps change only at `name`. */
  lemma CurrentElsewhere(s: seq<Client>, allocations: map<string, Allocation>, weights: map<string, real>,
                         allocations': map<string, Allocation>, weights': map<string, real>,
                         total: Quantities, exclude: Option<set<string>>, name: string)
    requires CurrentExcept(s, allocations, weights, total, exclude, name)
    requires forall n :: n != name && n in allocations ==> n in allocations' && allocations'[n] == allocations[n]
    requires forall n :: n != name && n in weights ==> n in weights' && weights'[n] == weights[n]
    ensures CurrentExcept(s, allocations', weights', total, exclude, name)
  {
  }

  /** Adding a new client with share 0 and count 0 keeps the shape and the current shares. */
  lemma AddStep(s: seq<Client>, allocations: map<string, Allocation>, weights: map<string, real>,
                total: Quantities, exclude: Option<set<string>>, dirty: bool, name: string, weight: real)
    requires Shaped(s, allocations, weights) && name !in allocations && weight > 0.0
    requires !dirty ==> AllCurrent(s, allocations, weights, total, exclude)
    ensures var t := Insert(s, Client(name, 0.0, 0));
      var allocations', weights' := allocations[name := Allocation(map[], map[])], weights[name := weight];
      Shaped(t, allocations', weights') && (!dirty ==> AllCurrent(t, allocations', weights', total, exclude)) &&
      Lookup(t, name) == Some(Client(name, 0.0, 0)) && Others(t, name) == Others(s, name)
  {
    var c := Client(name, 0.0, 0);
    var allocations', weights' := allocations[name := Allocation(map[], map[])], weights[name := weight];
    assert !Active(s, name) by {
      forall i | 0 <= i < |s| ensures s[i].name != name { assert s[i] in s; }
    }
    InsertNew(s, c);
    ShareOfNothing(total, exclude, weight);
    if !dirty {
      CurrentElsewhere(s, allocations, weights, allocations', weights', total, exclude, name);
      ReplaceCurrent(s, Insert(s, c), c, allocations', weights', total, exclude);
    }
  }

  /** Moving the entry at `k` to its place under a recomputed share makes every share current. */
  lemma RefreshStep(s: seq<Client>, k: nat, allocations: map<string, Allocation>, weights: map<string, real>,
                    total: Quantities, exclude: Option<set<string>>)
    requires Shaped(s, allocations, weights) && k < |s|
    requires CurrentExcept(s, allocations, weights, total, exclude, s[k].name)
    ensures var c := s[k].(share := Share(allocations[s[k].name].scalarQuantities, total, exclude, weights[s[k].name]));
      var t := Reposition(s, k, c);
      Shaped(t, allocations, weights) && AllCurrent(t, allocations, weights, total, exclude) &&
      Lookup(s, s[k].name) == Some(s[k]) && Lookup(t, s[k].name) == Some(c) && Others(t, s[k].name) == Others(s, s[k].name)
  {
    assert s[k] in s;
    var c := s[k].(share := Share(allocations[s[k].name].scalarQuantities, total, exclude, weights[s[k].name]));
    LookupSpec(s, s[k].name, s[k]);
    RepositionSpec(s, k, c);
    ReplaceCurrent(s, Reposition(s, k, c), c, allocations, weights, total, exclude);
  }

  /** When no entry carries `name`, all entries other than `name` being current means all are. */
  lemma AbsentStep(s: seq<Client>, allocations: map<string, Allocation>, weights: map<string, real>,
                   total: Quantities, exclude: Option<set<string>>, name: string)
    requires FindIndex(s, name) == |s|
    requires CurrentExcept(s, allocations, weights, total, exclude, name)
    ensures AllCurrent(s, allocations, weights, total, exclude) && Lookup(s, name) == None
  {
    forall c | c in s ensures c.name != name { }
  }

  /** Taking `name` out of the table (if active) and out of the maps keeps the shape and the current shares. */
  lemma RemoveStep(s: seq<Client>, allocations: map<string, Allocation>, weights: map<string, real>,
                   total: Quantities, exclude: Option<set<string>>, dirty: bool, name: string)
    requires Shaped(s, allocations, weights)
    requires !dirty ==> AllCurrent(s, allocations, weights, total, exclude)
    ensures var t := Dropped(s, name);
      Shaped(t, allocations - {name}, weights - {name}) &&
      (!dirty ==> AllCurrent(t, allocations - {name}, weights - {name}, total, exclude)) &&
      Lookup(t, name) == None && Others(t, name) == Others(s, name)
  {
    DroppedSpec(s, name);
  }

  /** Taking `name` out of the table only keeps the shape and the current shares. */
  lemma DeactivateStep(s: seq<Client>, allocations: map<string, Allocation>, weights: map<string, real>,
                       total: Quantities, exclude: Option<set<string>>, dirty: bool, name: string)
    requires Shaped(s, allocations, weights)
    requires !dirty ==> AllCurrent(s, allocations, weights, total, exclude)
    ensures var t := Dropped(s, name);
      Shaped(t, allocations, weights) && (!dirty ==> AllCurrent(t, allocations, weights, total, exclude)) &&
      Lookup(t, name) == None && Others(t, name) == Others(s, name)
  {
    DroppedSpec(s, name);
  }

  /** Inserting an inactive known client with a current share and count 0 keeps the shape and the current shares. */
  lemma ActivateStep(s: seq<Client>, allocations: map<string, Allocation>, weights: map<string, real>,
                     total: Quantities, exclude: Option<set<string>>, dirty: bool, name: string)
    requires Shaped(s, allocations, weights) && name in weights && !Active(s, name)
    requires !dirty ==> AllCurrent(s, allocations, weights, total, exclude)
    ensures var t := Insert(s, Client(name, Share(allocations[name].scalarQuantities, total, exclude, weights[name]), 0));
      Shaped(t, allocations, weights) && (!dirty ==> AllCurrent(t, allocations, weights, total, exclude)) &&
      Active(t, name)
  {
    var c := Client(name, Share(allocations[name].scalarQuantities, total, exclude, weights[name]), 0);
    InsertNew(s, c);
    LookupSpec(Insert(s, c), name, c);
    if !dirty {
      ReplaceCurrent(s, Insert(s, c), c, allocations, weights, total, exclude);
    }
  }

  /** Raising the count of the entry at `k` keeps the shape and the current shares. */
  lemma BumpStep(s: seq<Client>, k: nat, c: Client, t: seq<Client>, allocations: map<string, Allocation>, weights: map<string, real>,
                 total: Quantities, exclude: Option<set<string>>, dirty: bool)
    requires Shaped(s, allocations, weights) && k < |s|
    requires !dirty ==> AllCurrent(s, allocations, weights, total, exclude)
    requires c == s[k].(allocations := s[k].allocations + 1) && t == Reposition(s, k, c)
    ensures Shaped(t, allocations, weights) && (!dirty ==> AllCurrent(t, allocations, weights, total, exclude))
    ensures Lookup(s, c.name) == Some(s[k]) && Lookup(t, c.name) == Some(c) && Others(t, c.name) == Others(s, c.name)
  {
    assert s[k] in s;
    LookupSpec(s, s[k].name, s[k]);
    RepositionSpec(s, k, c);
    if !dirty {
      ReplaceCurrent(s, t, c, allocations, weights, total, exclude);
    }
  }

  /**
   * The lookup and reposition of `allocated` on a table: the entry under
   * `name`, if any, counts one more allocation and moves to its place; the
   * shape and the current shares are kept.
   */
  method Bump(s: seq<Client>, name: string, allocations: map<string, Allocation>, weights: map<string, real>,
              total: Quantities, exclude: Option<set<string>>, dirty: bool) returns (t: seq<Client>)
    requires Shaped(s, allocations, weights)
    requires !dirty ==> AllCurrent(s, allocations, weights, total, exclude)
    ensures Shaped(t, allocations, weights) && (!dirty ==> AllCurrent(t, allocations, weights, total, exclude))
    ensures Others(t, name) == Others(s, name)
    ensures var before := Lookup(s, name);
      Lookup(t, name) == if before.None? then None else Some(before.value.(allocations := before.value.allocations + 1))
  {
    var k := Find(s, name);
    t := s;
    if k < |s| {
      var c := s[k].(allocations := s[k].allocations + 1);
      t := Reposition(s, k, c);
      BumpStep(s, k, c, t, allocations, weights, total, exclude, dirty);
    } else {
      ActiveFind(s, name);
      LookupSpec(s, name, Client(name, 0.0, 0));
    }
  }

  /** A new allocation under a name keeps the shape, and every other client's share stays current. */
  lemma AllocationStep(s: seq<Client>, allocations: map<string, Allocation>, weights: map<string, real>,
                       total: Quantities, exclude: Option<set<string>>, dirty: bool, name: string, a: Allocation)
    requires Shaped(s, allocations, weights)
    requires !dirty ==> AllCurrent(s, allocations, weights, total, exclude)
    ensures Shaped(s, allocations[name := a], weights)
    ensures !dirty ==> CurrentExcept(s, allocations[name := a], weights, total, exclude, name)
  {
    if !dirty {
      CurrentElsewhere(s, allocations, weights, allocations[name := a], weights, total, exclude, name);
    }
  }

  /** A new positive weight for a known client keeps the shape, and every other client's share stays current. */
  lemma WeightStep(s: seq<Client>, allocations: map<string, Allocation>, weights: map<string, real>,
                   total: Quantities, exclude: Option<set<string>>, dirty: bool, name: string, weight: real)
    requires Shaped(s, allocations, weights) && name in weights && weight > 0.0
    requires !dirty ==> AllCurrent(s, allocations, weights, total, exclude)
    ensures Shaped(s, allocations, weights[name := weight])
    ensures !dirty ==> CurrentExcept(s, allocations, weights[name := weight], total, exclude, name)
  {
    if !dirty {
      CurrentElsewhere(s, allocations, weights, allocations, weights[name := weight], total, exclude, name);
    }
  }

  /** The table without the entry named `name`: `find` followed by `erase` when found. */
  function Dropped(s: seq<Client>, name: string): seq<Client>
  {
    var k := FindIndex(s, name);
    if k < |s| then EraseAt(s, k) else s
  }

  /** The lookup and erase of `remove` and `deactivate`. */
  method Drop(s: seq<Client>, name: string) returns (t: seq<Client>)
    ensures t == Dropped(s, name)
  {
    var k := Find(s, name);
    t := s;
    if k < |s| {
      t := EraseAt(s, k);
    }
  }

  lemma DroppedSpec(s: seq<Client>, name: string)
    requires DistinctNames(s)
    ensures Sorted(s) ==> Sorted(Dropped(s, name))
    ensures DistinctNames(Dropped(s, name))
    ensures Lookup(Dropped(s, name), name) == None && Others(Dropped(s, name), name) == Others(s, name)
    ensures forall x :: x in Dropped(s, name) <==> x in s && x.name != name
  {
    var k := FindIndex(s, name);
    if k < |s| {
      EraseSpec(s, k);
    } else {
      ActiveFind(s, name);
      LookupSpec(s, name, Client(name, 0.0, 0));
      forall x | x in s ensures x.name != name { }
    }
  }

  class Sorter {
    /** The active clients, in comparator order (the `std::set`). */
    var clients: seq<Client>
    /** The allocation of every known client, active or not. */
    var allocations: map<string, Allocation>
    var weights: map<string, real>
    /** The total pool, as stripped scalar quantities. */
    var total: Quantities
    /** Set when the shares may be stale because the total or an allocation changed. */
    var dirty: bool
    /** Resource names left out of the share computation. */
    var exclude: Option<set<string>>

    /** What every operation keeps, whether or not the shares are current. */
    ghost predicate Shape()
      reads this
    {
      Shaped(clients, allocations, weights)
    }

    /** Unless the sorter is dirty, every active client's share is current. */
    ghost predicate Valid()
      reads this
    {
      Shape() && (!dirty ==> AllCurrent(clients, allocations, weights, total, exclude))
    }

    /** The share `calculateShare(name)` gives in this state. */
    ghost function ShareNow(name: string): real
      reads this
      requires Shape() && name in weights
    {
      Share(allocations[name].scalarQuantities, total, exclude, weights[name])
    }

    /** `contains`: the client is known, active or not. */
    predicate Contains(name: string)
      reads this
    {
      name in allocations
    }

    /** `count`: the number of known clients, active or not. */
    function Count(): nat
      reads this
    {
      |allocations|
    }

    /** `allocations[name]`: the client's allocation, or the empty one the lookup would insert. */
    function Entry(name: string): (a: Allocation)
      reads this
      ensures name !in allocations ==> a == Allocation(map[], map[])
    {
      if name in allocations then allocations[name] else Allocation(map[], map[])
    }

    /** A new sorter: the constructor followed by `initialize`. */
    constructor (exclude: Option<set<string>>)
      ensures Valid()
      ensures clients == [] && allocations == map[] && weights == map[] && total == map[] && !dirty
      ensures this.exclude == exclude
    {
      clients := [];
      allocations := map[];
      weights := map[];
      total := map[];
      dirty := false;
      this.exclude := exclude;
    }

    /** `add(name, weight)`: a new client, active, with share 0, count 0, no allocation and the given weight. */
    method Add(name: string, weight: real)
      requires Valid() && !Contains(name) && weight > 0.0
      modifies this
      ensures Valid()
      ensures clients == Insert(old(clients), Client(name, 0.0, 0))
      ensures Lookup(clients, name) == Some(Client(name, 0.0, 0))
      ensures Others(clients, name) == Others(old(clients), name)
      ensures allocations == old(allocations)[name := Allocation(map[], map[])]
      ensures weights == old(weights)[name := weight]
      ensures total == old(total) && dirty == old(dirty) && exclude == old(exclude)
      ensures Contains(name) && Count() == old(Count()) + 1
    {
      AddStep(clients, allocations, weights, total, exclude, dirty, name, weight);
      clients := Insert(clients, Client(name, 0.0, 0));
      allocations := allocations[name := Allocation(map[], map[])];
      weights := weights[name := weight];
    }

    /** `update(name)`: recompute an active client's share and move it to its new place. */
    method UpdateShare(name: string)
      requires Shape() && !dirty
      requires CurrentExcept(clients, allocations, weights, total, exclude, name)
      modifies this
      ensures Valid()
      ensures allocations == old(allocations) && weights == old(weights) && total == old(total)
      ensures dirty == old(dirty) && exclude == old(exclude)
      ensures Others(clients, name) == Others(old(clients), name)
      ensures Lookup(clients, name) ==
        (if Lookup(old(clients), name).Some? then Some(Lookup(old(clients), name).value.(share := ShareNow(name))) else None)
    {
      var k := Find(clients, name);
      if k < |clients| {
        RefreshStep(clients, k, allocations, weights, total, exclude);
        var share := CalculateShare(allocations[name].scalarQuantities, total, exclude, weights[name]);
        clients := Reposition(clients, k, clients[k].(share := share));
      } else {
        AbsentStep(clients, allocations, weights, total, exclude, name);
      }
    }

    /** `update(name, weight)`: a new weight for a known client; its share is recomputed unless the sorter is dirty. */
    method UpdateWeight(name: string, weight: real)
      requires Valid() && name in weights && weight > 0.0
      modifies this
      ensures Valid()
      ensures weights == old(weights)[name := weight]
      ensures allocations == old(allocations) && total == old(total) && dirty == old(dirty) && exclude == old(exclude)
      ensures old(dirty) ==> clients == old(clients)
      ensures Others(clients, name) == Others(old(clients), name)
      ensures !old(dirty) ==>
        Lookup(clients, name) == (if Lookup(old(clients), name).Some? then Some(Lookup(old(clients), name).value.(share := ShareNow(name))) else None)
    {
      WeightStep(clients, allocations, weights, total, exclude, dirty, name, weight);
      weights := weights[name := weight];
      if !dirty {
        UpdateShare(name);
      }
    }

    /** `remove(name)`: forget the client, active or not. */
    method Remove(name: string)
      requires Valid()
      modifies this
      ensures Valid()
      ensures clients == Dropped(old(clients), name)
      ensures Lookup(clients, name) == None
      ensures Others(clients, name) == Others(old(clients), name)
      ensures allocations == old(allocations) - {name} && weights == old(weights) - {name}
      ensures total == old(total) && dirty == old(dirty) && exclude == old(exclude)
      ensures !Contains(name)
    {
      RemoveStep(clients, allocations, weights, total, exclude, dirty, name);
      var dropped := Drop(clients, name);
      Install(dropped, allocations - {name}, weights - {name});
    }

    /** Make the given order, allocations and weights the sorter's own. */
    method Install(s: seq<Client>, a: map<string, Allocation>, w: map<string, real>)
      requires Shaped(s, a, w) && (!dirty ==> AllCurrent(s, a, w, total, exclude))
      modifies this
      ensures Valid()
      ensures clients == s && allocations == a && weights == w
      ensures total == old(total) && dirty == old(dirty) && exclude == old(exclude)
    {
      clients := s;
      allocations := a;
      weights := w;
    }

    /**
     * `activate(name)`: a known but inactive client rejoins with a fresh
     * share and count 0; an active one is left as it is. The client must
     * have a weight to divide its share by.
     */
    method Activate(name: string)
      requires Valid() && Contains(name) && name in weights
      modifies this
      ensures Valid()
      ensures allocations == old(allocations) && weights == old(weights) && total == old(total)
      ensures dirty == old(dirty) && exclude == old(exclude)
      ensures Active(old(clients), name) ==> clients == old(clients)
      ensures !Active(old(clients), name) ==> clients == Insert(old(clients), Client(name, ShareNow(name), 0))
      ensures Active(clients, name)
    {
      var k := Find(clients, name);
      ActiveFind(clients, name);
      if k == |clients| {
        ActivateStep(clients, allocations, weights, total, exclude, dirty, name);
        var share := CalculateShare(allocations[name].scalarQuantities, total, exclude, weights[name]);
        clients := Insert(clients, Client(name, share, 0));
      }
    }

    /** `deactivate(name)`: drop the client from the order; its allocation and weight stay. */
    method Deactivate(name: string)
      requires Valid()
      modifies this
      ensures Valid()
      ensures clients == Dropped(old(clients), name)
      ensures Lookup(clients, name) == None
      ensures Others(clients, name) == Others(old(clients), name)
      ensures allocations == old(allocations) && weights == old(weights) && total == old(total)
      ensures dirty == old(dirty) && exclude == old(exclude)
      ensures Contains(name) == old(Contains(name)) && Count() == old(Count())
    {
      DeactivateStep(clients, allocations, weights, total, exclude, dirty, name);
      var dropped := Drop(clients, name);
      Install(dropped, allocations, weights);
    }

    /** The first half of `allocated`: an active client's count rises by one and it moves to its new place. */
    method BumpCount(name: string)
      requires Valid()
      modifies this
      ensures Valid()
      ensures allocations == old(allocations) && weights == old(weights) && total == old(total)
      ensures dirty == old(dirty) && exclude == old(exclude)
      ensures Others(clients, name) == Others(old(clients), name)
      ensures var before := Lookup(old(clients), name);
        Lookup(clients, name) ==
          if before.None? then None else Some(before.value.(allocations := before.value.allocations + 1))
    {
      var t := Bump(clients, name, allocations, weights, total, exclude, dirty);
      Install(t, allocations, weights);
    }

    /**
     * `allocated(name, slave, r)`: an active client's count rises by one, the
     * resources join its allocation, and its share is recomputed unless the
     * sorter is dirty. An unknown name gets an allocation entry of its own.
     */
    method Allocated(name: string, slave: string, r: Quantities)
      requires Valid()
      modifies this
      ensures Valid()
      ensures allocations == old(allocations)[name := Grant(old(Entry(name)), slave, r)]
      ensures weights == old(weights) && total == old(total) && dirty == old(dirty) && exclude == old(exclude)
      ensures Others(clients, name) == Others(old(clients), name)
      ensures var before := Lookup(old(clients), name);
        Lookup(clients, name) ==
          if before.None? then None
          else Some(before.value.(allocations := before.value.allocations + 1,
                                  share := if dirty then before.value.share else ShareNow(name)))
    {
      BumpCount(name);
      Store(name, Grant(Entry(name), slave, r));
      if !dirty {
        UpdateShare(name);
      }
    }

    /** Replace or create the allocation under a name; every other client's share stays current. */
    method Store(name: string, a: Allocation)
      requires Valid()
      modifies this
      ensures allocations == old(allocations)[name := a]
      ensures clients == old(clients) && weights == old(weights) && total == old(total)
      ensures dirty == old(dirty) && exclude == old(exclude)
      ensures Shape()
      ensures !dirty ==> CurrentExcept(clients, allocations, weights, total, exclude, name)
    {
      AllocationStep(clients, allocations, weights, total, exclude, dirty, name, a);
      allocations := allocations[name := a];
    }

    /**
     * `update(name, slave, oldAllocation, newAllocation)`: replace part of an
     * allocation on one agent; the sorter becomes dirty.
     */
    method UpdateAllocation(name: string, slave: string, oldAllocation: Quantities, newAllocation: Quantities)
      requires Valid() && Contains(name)
      requires Qty.Contains(On(allocations[name], slave), oldAllocation)
      requires Qty.Contains(allocations[name].scalarQuantities, oldAllocation)
      modifies this
      ensures allocations == old(allocations)[name := Exchange(old(allocations)[name], slave, oldAllocation, newAllocation)]
      ensures clients == old(clients) && weights == old(weights) && total == old(total) && exclude == old(exclude)
      ensures Valid() && dirty
    {
      MarkDirty();
      Store(name, Exchange(allocations[name], slave, oldAllocation, newAllocation));
    }

    /** Set `dirty`: every share is then recomputed by the next `sort()`. */
    method MarkDirty()
      requires Valid()
      modifies this
      ensures Valid() && dirty
      ensures clients == old(clients) && allocations == old(allocations) && weights == old(weights)
      ensures total == old(total) && exclude == old(exclude)
    {
      dirty := true;
    }

    /**
     * `unallocated(name, slave, r)`: take back resources the client holds on
     * the agent; its share is recomputed unless the sorter is dirty, and its
     * count is left as it is. An unknown name holds nothing, so only empty
     * resources pass the checks, and it gets an empty allocation entry.
     */
    method Unallocated(name: string, slave: string, r: Quantities)
      requires Valid()
      requires Qty.Contains(On(Entry(name), slave), r)
      requires Qty.Contains(Entry(name).scalarQuantities, r)
      modifies this
      ensures Valid()
      ensures allocations == old(allocations)[name := Release(old(Entry(name)), slave, r)]
      ensures weights == old(weights) && total == old(total) && dirty == old(dirty) && exclude == old(exclude)
      ensures Others(clients, name) == Others(old(clients), name)
      ensures var before := Lookup(old(clients), name);
        Lookup(clients, name) ==
          if before.None? || dirty then before else Some(before.value.(share := ShareNow(name)))
    {
      Store(name, Release(Entry(name), slave, r));
      if !dirty {
        UpdateShare(name);
      }
    }

    /**
     * `add(slave, resources)`: grow the total by the resources' scalar
     * quantities `r`; only non-empty resources make the sorter dirty, even
     * when they hold no scalar (`nonEmpty` is `!resources.empty()`).
     */
    method AddTotal(slave: string, r: Quantities, nonEmpty: bool)
      requires Valid()
      requires !IsEmpty(r) ==> nonEmpty
      modifies this
      ensures Valid()
      ensures total == Qty.Add(old(total), r)
      ensures dirty == (old(dirty) || nonEmpty)
      ensures clients == old(clients) && allocations == old(allocations) && weights == old(weights) && exclude == old(exclude)
    {
      if nonEmpty {
        total := Qty.Add(total, r);
        dirty := true;
      } else {
        GetAdd(total, r);
        Extensional(Qty.Add(total, r), total);
      }
    }

    /**
     * `remove(slave, resources)`: shrink the total by the scalar quantities
     * `r` of resources it holds; only non-empty resources make the sorter
     * dirty (`nonEmpty` is `!resources.empty()`).
     */
    method RemoveTotal(slave: string, r: Quantities, nonEmpty: bool)
      requires Valid() && Qty.Contains(total, r)
      requires !IsEmpty(r) ==> nonEmpty
      modifies this
      ensures Valid()
      ensures total == Sub(old(total), r)
      ensures dirty == (old(dirty) || nonEmpty)
      ensures clients == old(clients) && allocations == old(allocations) && weights == old(weights) && exclude == old(exclude)
    {
      if nonEmpty {
        total := Sub(total, r);
        dirty := true;
      } else {
        GetSub(total, r);
        Extensional(Sub(total, r), total);
      }
    }

    /**
     * `sort()`: when dirty, rebuild the order with every share recomputed and
     * clear `dirty`; then list the active clients' names in comparator order.
     */
    method Sort() returns (names: seq<string>)
      requires Valid()
      modifies this
      ensures Valid() && !dirty
      ensures allocations == old(allocations) && weights == old(weights) && total == old(total) && exclude == old(exclude)
      ensures names == Names(clients)
      ensures !old(dirty) ==> clients == old(clients)
      ensures forall c :: c in clients <==> c in Recomputed(old(clients), allocations, weights, total, exclude)
    {
      if dirty {
        RecomputeShares();
      } else {
        RecomputedCurrent(clients, allocations, weights, total, exclude);
      }
      names := ListNames(clients);
    }

    /** The dirty half of `sort`: the table rebuilt with every share recomputed. */
    method RecomputeShares()
      requires Valid()
      modifies this
      ensures Valid() && !dirty
      ensures allocations == old(allocations) && weights == old(weights) && total == old(total) && exclude == old(exclude)
      ensures forall c :: c in clients <==> c in Recomputed(old(clients), allocations, weights, total, exclude)
    {
      clients := Rebuild(clients, allocations, weights, total, exclude);
      dirty := false;
    }
  }

  /** The output loop of `sort`: the names of the table, in order. */
  method ListNames(s: seq<Client>) returns (names: seq<string>)
    ensures names == Names(s)
  {
    names := [];
    var j := 0;
    while j < |s|
      invariant 0 <= j <= |s|
      invariant |names| == j && forall m :: 0 <= m < j ==> names[m] == s[m].name
    {
      names := names + [s[j].name];
      j := j + 1;
    }
  }

  /** The rebuild loop of `sort`: every client re-inserted into a fresh table with its share recomputed. */
  method Rebuild(current: seq<Client>, allocations: map<string, Allocation>, weights: map<string, real>,
                 total: Quantities, exclude: Option<set<string>>) returns (temp: seq<Client>)
    requires Shaped(current, allocations, weights)
    ensures Shaped(temp, allocations, weights) && AllCurrent(temp, allocations, weights, total, exclude)
    ensures forall c :: c in temp <==> c in Recomputed(current, allocations, weights, total, exclude)
  {
    ghost var goal := Recomputed(current, allocations, weights, total, exclude);
    temp := [];
    var i := 0;
    while i < |current|
      invariant 0 <= i <= |current|
      invariant Sorted(temp) && DistinctNames(temp)
      invariant forall c :: c in temp <==> c in goal[..i]
      invariant AllCurrent(temp, allocations, weights, total, exclude)
    {
      RebuildStep(current, i, temp, allocations, weights, total, exclude);
      var c := current[i];
      var share := CalculateShare(allocations[c.name].scalarQuantities, total, exclude, weights[c.name]);
      temp := Insert(temp, c.(share := share));
      i := i + 1;
    }
    assert goal[..i] == goal;
    forall c | c in temp ensures c.name in allocations {
    }
  }

  /** One step of `Rebuild`: the client at `i` with its share recomputed joins the partial table. */
  lemma RebuildStep(s: seq<Client>, i: nat, temp: seq<Client>, allocations: map<string, Allocation>,
                    weights: map<string, real>, total: Quantities, exclude: Option<set<string>>)
    requires Shaped(s, allocations, weights) && i < |s|
    requires Sorted(temp) && DistinctNames(temp)
    requires forall x :: x in temp <==> x in Recomputed(s, allocations, weights, total, exclude)[..i]
    requires AllCurrent(temp, allocations, weights, total, exclude)
    ensures s[i].name in allocations
    ensures var c := s[i].(share := Share(allocations[s[i].name].scalarQuantities, total, exclude, weights[s[i].name]));
      var t := Insert(temp, c);
      Sorted(t) && DistinctNames(t) && AllCurrent(t, allocations, weights, total, exclude) &&
      (forall x :: x in t <==> x in Recomputed(s, allocations, weights, total, exclude)[..i + 1])
  {
    assert s[i] in s;
    var goal := Recomputed(s, allocations, weights, total, exclude);
    var c := goal[i];
    assert !Active(temp, c.name) by {
      forall k | 0 <= k < |temp| ensures temp[k].name != c.name {
        assert temp[k] in temp;
        var m :| 0 <= m < i && goal[..i][m] == temp[k];
        assert goal[m].name == s[m].name;
      }
    }
    InsertNew(temp, c);
    PrefixSnoc(goal, i);
  }

  lemma PrefixSnoc<T>(a: seq<T>, i: nat)
    requires i < |a|
    ensures a[..i + 1] == a[..i] + [a[i]]
  {
  }
}
