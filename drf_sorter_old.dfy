/**
 * The earlier Dominant Resource Fairness sorter (`src/master/drf_sorter.cpp`).
 * It keeps the same kind of table as the later one, with three differences
 * in behaviour kept here as they are: nothing stops two entries under one
 * name (from `add` or `activate` of a client that is already active), a
 * change to the total always marks the sorter dirty, and `sort` never
 * clears `dirty` again, so once dirty it recomputes every share on every
 * call. No resource name is excluded from the share.
 *
 * The total keeps its role: `Resources` holds one scalar entry per resource
 * name and role, and the share divides the client's amount of a name, summed
 * over roles, by each entry of the total in turn. A client's allocation is
 * therefore kept as its amount per name.
 */
module DrfSorterOld {
  import opened Wrappers
  import opened Quantities
  import Qty = Quantities
  import opened DrfClients
  import DrfSorter

  /** A scalar entry of the total: a resource name in a role. */
  datatype Slot = Slot(name: string, role: string)

  /**
   * The scalar entries of the total and their amounts. `Resources` never
   * keeps an entry whose amount is not positive.
   */
  type Pool = p: map<Slot, real> | forall k :: k in p ==> p[k] > 0.0

  /** The amount of entry `k`; a missing entry holds 0. */
  function Amount(p: Pool, k: Slot): real
  {
    if k in p then p[k] else 0.0
  }

  /** `+=` on the total: amounts add up entry by entry, under the same name and role. */
  function Plus(a: Pool, b: Pool): (r: Pool)
    ensures forall k :: Amount(r, k) == Amount(a, k) + Amount(b, k)
  {
    map k | k in a.Keys + b.Keys :: Amount(a, k) + Amount(b, k)
  }

  /** `-=` on the total: each entry drops by the same name and role of `b`, and goes when not positive. */
  function Minus(a: Pool, b: Pool): (r: Pool)
    ensures forall k :: Amount(r, k) == if Amount(a, k) - Amount(b, k) > 0.0 then Amount(a, k) - Amount(b, k) else 0.0
  {
    map k | k in a.Keys && a[k] - Amount(b, k) > 0.0 :: a[k] - Amount(b, k)
  }

  /** What a client holding `alloc` has of entry `k`'s resource, over the entry's amount. */
  function Ratio(alloc: Quantities, total: Pool, k: Slot): (f: real)
    requires k in total
    ensures f >= 0.0
  {
    Get(alloc, k.name) / total[k]
  }

  /** `d` is the largest `Ratio` over the entries `slots`, or 0 when there is none. */
  ghost predicate IsPeakOver(d: real, alloc: Quantities, total: Pool, slots: set<Slot>)
    requires slots <= total.Keys
  {
    d >= 0.0 &&
    (forall k :: k in slots ==> Ratio(alloc, total, k) <= d) &&
    (d == 0.0 || exists k :: k in slots && Ratio(alloc, total, k) == d)
  }

  /** At most one value is the largest ratio. */
  lemma PeakUnique(d1: real, d2: real, alloc: Quantities, total: Pool, slots: set<Slot>)
    requires slots <= total.Keys
    requires IsPeakOver(d1, alloc, total, slots) && IsPeakOver(d2, alloc, total, slots)
    ensures d1 == d2
  {
  }

  /** Some value is the largest ratio over any set of entries of the total. */
  lemma {:induction false} PeakExists(alloc: Quantities, total: Pool, slots: set<Slot>)
    requires slots <= total.Keys
    ensures exists d :: IsPeakOver(d, alloc, total, slots)
    decreases slots
  {
    if slots == {} {
      assert IsPeakOver(0.0, alloc, total, slots);
    } else {
      var k :| k in slots;
      PeakExists(alloc, total, slots - {k});
      var d :| IsPeakOver(d, alloc, total, slots - {k});
      if Ratio(alloc, total, k) <= d {
        assert IsPeakOver(d, alloc, total, slots);
      } else {
        assert IsPeakOver(Ratio(alloc, total, k), alloc, total, slots);
      }
    }
  }

  /** The dominant share of `alloc`: its largest ratio over every scalar entry of the total. */
  ghost function Peak(alloc: Quantities, total: Pool): (d: real)
    ensures IsPeakOver(d, alloc, total, total.Keys)
  {
    PeakExists(alloc, total, total.Keys);
    var d :| IsPeakOver(d, alloc, total, total.Keys);
    d
  }

  /** The share of a client holding `alloc` with weight `weight`: its dominant share over its weight. */
  ghost function Share(alloc: Quantities, total: Pool, weight: real): real
    requires weight != 0.0
  {
    Peak(alloc, total) / weight
  }

  /**
   * The loop of `calculateShare`: over every scalar entry of the total with
   * a positive amount, the client's amount of that name over the entry's
   * amount, the largest of them divided by the weight.
   */
  method ComputeShare(alloc: Quantities, total: Pool, weight: real) returns (share: real)
    requires weight != 0.0
    ensures share == Share(alloc, total, weight)
  {
    var peak := 0.0;
    var slots := total.Keys;
    ghost var seen: set<Slot> := {};
    while slots != {}
      invariant slots + seen == total.Keys && slots !! seen
      invariant IsPeakOver(peak, alloc, total, seen)
      decreases slots
    {
      var k :| k in slots;
      slots := slots - {k};
      seen := seen + {k};
      var scalar := 0.0;
      if k.name in alloc {
        scalar := alloc[k.name];
      }
      if scalar / total[k] > peak {
        peak := scalar / total[k];
      }
    }
    share := peak / weight;
    PeakUnique(peak, Peak(alloc, total), alloc, total, total.Keys);
  }

  /**
   * Splitting a resource name over two roles in the total makes each entry
   * count on its own: a client holding `a` of the name, against two entries
   * of `b` and `c`, has the share `a / min(b, c)` and not `a / (b + c)`.
   */
  lemma SplitRoles(n: string, a: real, b: real, c: real)
    requires a > 0.0 && b > 0.0 && c > 0.0 && b <= c
    ensures Peak(map[n := a], map[Slot(n, "*") := b, Slot(n, "r") := c]) == a / b
  {
    var alloc: Quantities := map[n := a];
    var total: Pool := map[Slot(n, "*") := b, Slot(n, "r") := c];
    assert Ratio(alloc, total, Slot(n, "*")) == a / b;
    assert Ratio(alloc, total, Slot(n, "r")) == a / c;
    assert a / c <= a / b by { DivideMonotone(a, b, c); }
    assert IsPeakOver(a / b, alloc, total, total.Keys);
    PeakUnique(a / b, Peak(alloc, total), alloc, total, total.Keys);
  }

  lemma DivideMonotone(a: real, b: real, c: real)
    requires a >= 0.0 && 0.0 < b <= c
    ensures a / c <= a / b
  {
    assert a / c * c == a == a / b * b;
  }

  /** `update(name)` on a table: the first entry named `name`, if any, moves to its place under `share`. */
  function Refreshed(s: seq<Client>, name: string, share: real): seq<Client>
  {
    var k := FindIndex(s, name);
    if k < |s| then Reposition(s, k, s[k].(share := share)) else s
  }

  /** The first half of `allocated` on a table: the first entry named `name`, if any, counts one more allocation. */
  function Bumped(s: seq<Client>, name: string): seq<Client>
  {
    var k := FindIndex(s, name);
    if k < |s| then Reposition(s, k, s[k].(allocations := s[k].allocations + 1)) else s
  }

  /** The lookup and reposition of `allocated` on a sorted table. */
  method Bump(s: seq<Client>, name: string) returns (t: seq<Client>)
    requires Sorted(s)
    ensures t == Bumped(s, name) && Sorted(t)
    ensures Active(t, name) <==> Active(s, name)
  {
    ActiveFind(s, name);
    var k := Find(s, name);
    t := s;
    if k < |s| {
      var c := s[k].(allocations := s[k].allocations + 1);
      RepositionKeeps(s, k, c);
      t := Reposition(s, k, c);
      assert exists i :: 0 <= i < |t| && t[i] == c;
    }
  }

  /** The lookup and reposition of `update(name)` on a sorted table. */
  method Refresh(s: seq<Client>, name: string, share: real) returns (t: seq<Client>)
    requires Sorted(s)
    ensures t == Refreshed(s, name, share) && Sorted(t)
  {
    var k := Find(s, name);
    t := s;
    if k < |s| {
      RepositionKeeps(s, k, s[k].(share := share));
      t := Reposition(s, k, s[k].(share := share));
    }
  }

  /** Repositioning an entry of a sorted table keeps it sorted and brings in nothing but the new entry. */
  lemma RepositionKeeps(s: seq<Client>, k: nat, c: Client)
    requires Sorted(s) && k < |s|
    ensures Sorted(Reposition(s, k, c)) && c in Reposition(s, k, c)
    ensures forall x :: x in Reposition(s, k, c) ==> x in s || x == c
  {
    var e := EraseAt(s, k);
    forall x | x in e ensures x in s {
      assert x in multiset(e);
    }
    InsertMembers(e, c);
  }

  /**
   * `remove` and `deactivate` on a table: the first entry named `name`, if any,
   * is erased; the table stays sorted, loses exactly one entry when the name
   * is active, and gains nothing.
   */
  lemma DroppedKeeps(s: seq<Client>, name: string)
    requires Sorted(s)
    ensures Sorted(DrfSorter.Dropped(s, name))
    ensures |DrfSorter.Dropped(s, name)| == if Active(s, name) then |s| - 1 else |s|
    ensures forall x :: x in DrfSorter.Dropped(s, name) ==> x in s
  {
    ActiveFind(s, name);
    var k := FindIndex(s, name);
    if k < |s| {
      var e := EraseAt(s, k);
      forall x | x in e ensures x in s {
        assert x in multiset(e);
      }
    }
  }

  /**
   * Activating a client that is already active, under an entry that differs
   * from its current one, leaves the table with two entries under the name:
   * the earlier entry is not looked for.
   */
  lemma ActivateDuplicates(s: seq<Client>, c: Client)
    requires Sorted(s) && Active(s, c.name) && c !in s
    ensures |Insert(s, c)| == |s| + 1
    ensures exists i, j :: 0 <= i < j < |Insert(s, c)| && Insert(s, c)[i].name == c.name && Insert(s, c)[j].name == c.name
  {
    InsertSpec(s, c);
    InsertMembers(s, c);
    var t := Insert(s, c);
    assert |t| == |multiset(t)| == |multiset(s)| + 1 == |s| + 1;
    var a :| 0 <= a < |s| && s[a].name == c.name;
    assert s[a] in t && c in t;
    var i :| 0 <= i < |t| && t[i] == s[a];
    var j :| 0 <= j < |t| && t[j] == c;
    assert i != j;
    if i < j {
      assert 0 <= i < j < |t| && t[i].name == c.name && t[j].name == c.name;
    } else {
      assert 0 <= j < i < |t| && t[j].name == c.name && t[i].name == c.name;
    }
  }

  /**
   * `remove` and `deactivate` erase only the first entry under the name: a
   * client with two entries stays active after one of them.
   */
  lemma DropLeavesDuplicate(s: seq<Client>, name: string, i: nat, j: nat)
    requires Sorted(s) && i < j < |s| && s[i].name == name && s[j].name == name
    ensures Active(DrfSorter.Dropped(s, name), name)
  {
    var k := FindIndex(s, name);
    assert k <= i;
    var e := EraseAt(s, k);
    assert e == s[..k] + s[k + 1..];
    assert e[j - 1] == s[j];
  }

  /** The table with every share recomputed: what `sort` rebuilds from when dirty. */
  ghost function Recomputed(s: seq<Client>, allocations: map<string, Quantities>, weights: map<string, real>,
                            total: Pool): (r: seq<Client>)
    requires forall c :: c in s ==> c.name in allocations && c.name in weights && weights[c.name] != 0.0
    ensures |r| == |s|
    ensures forall i :: 0 <= i < |s| ==>
      r[i] == s[i].(share := Share(allocations[s[i].name], total, weights[s[i].name]))
  {
    seq(|s|, i requires 0 <= i < |s| =>
      s[i].(share := Share(allocations[s[i].name], total, weights[s[i].name])))
  }

  /**
   * The shape of every state: a sorted table, and an allocation for every
   * client with a weight. A lookup of an unknown name in `allocated` or
   * `unallocated` leaves an allocation without a weight.
   */
  ghost predicate Shaped(clients: seq<Client>, allocations: map<string, Quantities>, weights: map<string, real>)
  {
    Sorted(clients) && weights.Keys <= allocations.Keys
  }

  /** Every entry of the table has a weight to divide by. */
  ghost predicate Weighted(clients: seq<Client>, weights: map<string, real>)
  {
    forall c :: c in clients ==> c.name in weights && weights[c.name] != 0.0
  }

  class Sorter {
    /** The active entries, in comparator order (the `std::set`); one name may appear twice. */
    var clients: seq<Client>
    /** What every known client holds, active or not, as amounts per resource name. */
    var allocations: map<string, Quantities>
    var weights: map<string, real>
    /** The total pool, one entry per scalar resource name and role. */
    var resources: Pool
    /** Set by any change to the total; never cleared. */
    var dirty: bool

    ghost predicate Valid()
      reads this
    {
      Shaped(clients, allocations, weights)
    }

    /** The share `calculateShare(name)` gives in this state. */
    ghost function ShareNow(name: string): real
      reads this
      requires Valid() && name in weights && weights[name] != 0.0
    {
      Share(allocations[name], resources, weights[name])
    }

    /** `allocations[name]`: what the client holds, or the empty allocation the lookup would insert. */
    function Entry(name: string): (a: Quantities)
      reads this
      ensures name !in allocations ==> a == map[]
    {
      if name in allocations then allocations[name] else map[]
    }

    /** `contains`: the client is known, active or not. */
    predicate Contains(name: string)
      reads this
    {
      name in allocations
    }

    /** `count`: the number of known clients, active or not. */
    function Count(): nat
      reads this
    {
      |allocations|
    }

    constructor ()
      ensures Valid()
      ensures clients == [] && allocations == map[] && weights == map[] && resources == map[] && !dirty
    {
      clients := [];
      allocations := map[];
      weights := map[];
      resources := map[];
      dirty := false;
    }

    /**
     * `add(name, weight)`: an entry with share 0 and count 0 joins the table,
     * and the allocation is reset to nothing, whether or not the name was
     * known or active before. Any weight is taken.
     */
    method Add(name: string, weight: real)
      requires Valid()
      modifies this
      ensures Valid()
      ensures clients == Insert(old(clients), Client(name, 0.0, 0))
      ensures forall x :: x in clients <==> x in old(clients) || x == Client(name, 0.0, 0)
      ensures allocations == old(allocations)[name := map[]] && weights == old(weights)[name := weight]
      ensures resources == old(resources) && dirty == old(dirty)
      ensures Contains(name)
    {
      InsertMembers(clients, Client(name, 0.0, 0));
      clients := Insert(clients, Client(name, 0.0, 0));
      allocations := allocations[name := map[]];
      weights := weights[name := weight];
    }

    /** `remove(name)`: the first entry under the name leaves the table, and the client is forgotten. */
    method Remove(name: string)
      requires Valid()
      modifies this
      ensures Valid()
      ensures clients == DrfSorter.Dropped(old(clients), name)
      ensures allocations == old(allocations) - {name} && weights == old(weights) - {name}
      ensures resources == old(resources) && dirty == old(dirty)
      ensures !Contains(name)
    {
      DroppedKeeps(clients, name);
      var dropped := DrfSorter.Drop(clients, name);
      SetClients(dropped);
      allocations := allocations - {name};
      weights := weights - {name};
    }

    /**
     * `activate(name)`: a known client gets an entry with its share and count
     * 0, without a look for an entry it may already have.
     */
    method Activate(name: string)
      requires Valid() && Contains(name) && name in weights && weights[name] != 0.0
      modifies this
      ensures Valid()
      ensures allocations == old(allocations) && weights == old(weights) && resources == old(resources) && dirty == old(dirty)
      ensures clients == Insert(old(clients), Client(name, ShareNow(name), 0))
      ensures forall x :: x in clients <==> x in old(clients) || x == Client(name, ShareNow(name), 0)
    {
      var share := CalculateShare(name);
      InsertMembers(clients, Client(name, share, 0));
      clients := Insert(clients, Client(name, share, 0));
    }

    /** `deactivate(name)`: the first entry under the name leaves the table; the client stays known. */
    method Deactivate(name: string)
      requires Valid()
      modifies this
      ensures Valid()
      ensures clients == DrfSorter.Dropped(old(clients), name)
      ensures allocations == old(allocations) && weights == old(weights) && resources == old(resources) && dirty == old(dirty)
      ensures Contains(name) == old(Contains(name)) && Count() == old(Count())
    {
      DroppedKeeps(clients, name);
      var dropped := DrfSorter.Drop(clients, name);
      SetClients(dropped);
    }

    /**
     * `allocated(name, r)`: the client's first entry, if any, counts one more
     * allocation, the resources join its allocation (an unknown name gets
     * one), and unless the sorter is dirty that entry's share is recomputed.
     */
    method Allocated(name: string, r: Quantities)
      requires Valid()
      requires !dirty && Active(clients, name) ==> name in weights && weights[name] != 0.0
      modifies this
      ensures Valid()
      ensures weights == old(weights) && resources == old(resources) && dirty == old(dirty)
      ensures allocations == old(allocations)[name := Qty.Add(old(Entry(name)), r)]
      ensures dirty || !Active(old(clients), name) ==> clients == Bumped(old(clients), name)
      ensures !dirty && Active(old(clients), name) ==>
        clients == Refreshed(Bumped(old(clients), name), name, ShareNow(name))
    {
      BumpCount(name);
      SetAllocation(name, Qty.Add(Entry(name), r));
      if !dirty {
        Update(name);
      }
    }

    /** The first half of `allocated`: the first entry under the name counts one more allocation. */
    method BumpCount(name: string)
      requires Valid()
      modifies this
      ensures Valid()
      ensures clients == Bumped(old(clients), name) && (Active(clients, name) <==> Active(old(clients), name))
      ensures allocations == old(allocations) && weights == old(weights) && resources == old(resources) && dirty == old(dirty)
    {
      var bumped := Bump(clients, name);
      SetClients(bumped);
    }

    /** `allocations[name] = q`: replace what the client holds, adding the name if it is unknown. */
    method SetAllocation(name: string, q: Quantities)
      requires Valid()
      modifies this
      ensures Valid() && allocations == old(allocations)[name := q]
      ensures clients == old(clients) && weights == old(weights) && resources == old(resources) && dirty == old(dirty)
    {
      allocations := allocations[name := q];
    }

    /** Make a sorted table the sorter's own. */
    method SetClients(t: seq<Client>)
      requires Valid() && Sorted(t)
      modifies this
      ensures Valid() && clients == t
      ensures allocations == old(allocations) && weights == old(weights) && resources == old(resources) && dirty == old(dirty)
    {
      clients := t;
    }

    /**
     * `unallocated(name, r)`: the resources are taken from the client's
     * allocation, whatever it holds (an unknown name gets one), and unless
     * the sorter is dirty its first entry's share is recomputed; the count
     * stays.
     */
    method Unallocated(name: string, r: Quantities)
      requires Valid()
      requires !dirty && Active(clients, name) ==> name in weights && weights[name] != 0.0
      modifies this
      ensures Valid()
      ensures weights == old(weights) && resources == old(resources) && dirty == old(dirty)
      ensures allocations == old(allocations)[name := Sub(old(Entry(name)), r)]
      ensures dirty || !Active(old(clients), name) ==> clients == old(clients)
      ensures !dirty && Active(old(clients), name) ==> clients == Refreshed(old(clients), name, ShareNow(name))
    {
      SetAllocation(name, Sub(Entry(name), r));
      if !dirty {
        Update(name);
      }
    }

    /** `add(resources)`: grow the total entry by entry; the sorter becomes dirty even when `r` is empty. */
    method AddTotal(r: Pool)
      requires Valid()
      modifies this
      ensures Valid() && dirty
      ensures resources == Plus(old(resources), r)
      ensures clients == old(clients) && allocations == old(allocations) && weights == old(weights)
    {
      resources := Plus(resources, r);
      dirty := true;
    }

    /** `remove(resources)`: shrink the total entry by entry; the sorter becomes dirty even when `r` is empty. */
    method RemoveTotal(r: Pool)
      requires Valid()
      modifies this
      ensures Valid() && dirty
      ensures resources == Minus(old(resources), r)
      ensures clients == old(clients) && allocations == old(allocations) && weights == old(weights)
    {
      resources := Minus(resources, r);
      dirty := true;
    }

    /**
     * `sort()`: when dirty, rebuild the table with every share recomputed;
     * then list the names of the entries in comparator order. `dirty` keeps
     * its value.
     */
    method Sort() returns (names: seq<string>)
      requires Valid() && (dirty ==> Weighted(clients, weights))
      modifies this
      ensures Valid() && dirty == old(dirty)
      ensures allocations == old(allocations) && weights == old(weights) && resources == old(resources)
      ensures names == Names(clients)
      ensures !dirty ==> clients == old(clients)
      ensures dirty ==> forall c :: c in clients <==> c in Recomputed(old(clients), allocations, weights, resources)
    {
      if dirty {
        clients := Rebuild(clients, allocations, weights, resources);
      }
      names := DrfSorter.ListNames(clients);
    }

    /**
     * `update(name)`: the first entry under the name, if any, moves to its
     * place under a recomputed share.
     */
    method Update(name: string)
      requires Valid()
      requires Active(clients, name) ==> name in weights && weights[name] != 0.0
      modifies this
      ensures Valid()
      ensures allocations == old(allocations) && weights == old(weights) && resources == old(resources) && dirty == old(dirty)
      ensures !Active(old(clients), name) ==> clients == old(clients)
      ensures Active(old(clients), name) ==> clients == Refreshed(old(clients), name, ShareNow(name))
    {
      ActiveFind(clients, name);
      var k := Find(clients, name);
      if k < |clients| {
        var share := CalculateShare(name);
        var refreshed := Refresh(clients, name, share);
        SetClients(refreshed);
      }
    }

    /** `calculateShare(name)`: the client's dominant share over every scalar entry of the total, divided by its weight. */
    method CalculateShare(name: string) returns (share: real)
      requires Valid() && name in weights && weights[name] != 0.0
      ensures share == ShareNow(name)
    {
      share := ComputeShare(allocations[name], resources, weights[name]);
    }

    /** `usageHistory()`: this sorter keeps no usage history. */
    function UsageHistory(): (history: map<string, Quantities>)
      ensures |history| == 0
    {
      map[]
    }
  }

  /** The rebuild loop of `sort`: every entry re-inserted into a fresh table with its share recomputed. */
  method Rebuild(current: seq<Client>, allocations: map<string, Quantities>, weights: map<string, real>,
                 total: Pool) returns (temp: seq<Client>)
    requires Shaped(current, allocations, weights) && Weighted(current, weights)
    ensures Sorted(temp)
    ensures forall c :: c in temp <==> c in Recomputed(current, allocations, weights, total)
  {
    ghost var goal := Recomputed(current, allocations, weights, total);
    temp := [];
    var i := 0;
    while i < |current|
      invariant 0 <= i <= |current|
      invariant Sorted(temp)
      invariant forall c :: c in temp <==> c in goal[..i]
    {
      var c := current[i];
      assert c in current;
      var share := ComputeShare(allocations[c.name], total, weights[c.name]);
      InsertMembers(temp, c.(share := share));
      DrfSorter.PrefixSnoc(goal, i);
      temp := Insert(temp, c.(share := share));
      i := i + 1;
    }
    assert goal[..i] == goal;
  }
}
