/**
 * The client table of the DRF sorters: `Client` records kept in a
 * `std::set<Client, DRFComparator>`. The set is modelled as a sequence kept
 * strictly increasing under the comparator; inserting an element that the
 * comparator finds equal to one already present (same share, same count, same
 * name, hence the same record) leaves the set as it was, like `std::set`.
 */
module DrfClients {
  import opened Wrappers
  import Text

  /** A client: its name, its current share and how many allocations it got while active. */
  datatype Client = Client(name: string, share: real, allocations: nat)

  /** `DRFComparator`: by share, then by allocation count, then by name. */
  predicate Less(a: Client, b: Client)
  {
    if a.share == b.share then
      if a.allocations == b.allocations then Text.Less(a.name, b.name)
      else a.allocations < b.allocations
    else a.share < b.share
  }

  lemma LessIrreflexive(a: Client)
    ensures !Less(a, a)
  {
    Text.LessIrreflexive(a.name);
  }

  lemma LessTransitive(a: Client, b: Client, c: Client)
    requires Less(a, b) && Less(b, c)
    ensures Less(a, c)
  {
    if a.share == b.share == c.share && a.allocations == b.allocations == c.allocations {
      Text.LessTransitive(a.name, b.name, c.name);
    }
  }

  lemma LessAsymmetric(a: Client, b: Client)
    requires Less(a, b)
    ensures !Less(b, a)
  {
    if a.share == b.share && a.allocations == b.allocations {
      Text.LessAsymmetric(a.name, b.name);
    }
  }

  /**
   * The comparator is a strict total order: any two different clients are
   * ordered one way, and never both ways. In particular two clients with
   * different names are always ordered.
   */
  lemma LessTotal(a: Client, b: Client)
    requires a != b
    ensures Less(a, b) != Less(b, a)
  {
    if a.share == b.share && a.allocations == b.allocations {
      assert a.name != b.name;
      Text.LessTotal(a.name, b.name);
      if Less(a, b) { Text.LessAsymmetric(a.name, b.name); }
    } else if Less(a, b) {
      LessAsymmetric(a, b);
    }
  }

  /** The sequence is in strictly increasing comparator order (so it has no repeats). */
  predicate Sorted(s: seq<Client>)
  {
    forall i, j :: 0 <= i < j < |s| ==> Less(s[i], s[j])
  }

  /** No two entries share a name. */
  predicate DistinctNames(s: seq<Client>)
  {
    forall i, j :: 0 <= i < j < |s| ==> s[i].name != s[j].name
  }

  /** The names in table order. */
  function Names(s: seq<Client>): (r: seq<string>)
    ensures |r| == |s| && forall i :: 0 <= i < |s| ==> r[i] == s[i].name
  {
    if s == [] then [] else [s[0].name] + Names(s[1..])
  }

  /** `std::set::insert`: add `c` at its place in the order, unless it is already there. */
  function Insert(s: seq<Client>, c: Client): seq<Client>
  {
    if s == [] then [c]
    else if s[0] == c then s
    else if Less(c, s[0]) then [c] + s
    else [s[0]] + Insert(s[1..], c)
  }

  /**
   * Inserting into a sorted table keeps it sorted; an element already present
   * changes nothing, a new one is added once and nothing else changes.
   */
  lemma {:induction false} InsertSpec(s: seq<Client>, c: Client)
    requires Sorted(s)
    ensures Sorted(Insert(s, c))
    ensures c in s ==> Insert(s, c) == s
    ensures c !in s ==> multiset(Insert(s, c)) == multiset(s) + multiset{c}
  {
    if s != [] && s[0] != c {
      if Less(c, s[0]) {
        InsertFront(s, c);
      } else {
        InsertSpec(s[1..], c);
        InsertLater(s, c);
      }
    }
  }

  /** Inserting into a sorted table keeps it sorted, and its elements become those of `s` and `c`. */
  lemma InsertMembers(s: seq<Client>, c: Client)
    requires Sorted(s)
    ensures Sorted(Insert(s, c))
    ensures forall x :: x in Insert(s, c) <==> x in s || x == c
  {
    InsertSpec(s, c);
    if c !in s {
      forall x ensures x in Insert(s, c) <==> x in s || x == c {
        assert x in Insert(s, c) <==> x in multiset(Insert(s, c));
      }
    }
  }

  lemma InsertFront(s: seq<Client>, c: Client)
    requires Sorted(s) && s != [] && Less(c, s[0])
    ensures Sorted([c] + s) && c !in s
  {
    assert forall j :: 0 <= j < |s| ==> Less(c, s[j]) by {
      forall j | 0 < j < |s| ensures Less(c, s[j]) { LessTransitive(c, s[0], s[j]); }
    }
    LessIrreflexive(c);
  }

  lemma InsertLater(s: seq<Client>, c: Client)
    requires Sorted(s) && s != [] && s[0] != c && !Less(c, s[0])
    requires Sorted(Insert(s[1..], c))
    requires c in s[1..] ==> Insert(s[1..], c) == s[1..]
    requires c !in s[1..] ==> multiset(Insert(s[1..], c)) == multiset(s[1..]) + multiset{c}
    ensures Sorted(Insert(s, c))
    ensures c in s ==> Insert(s, c) == s
    ensures c !in s ==> multiset(Insert(s, c)) == multiset(s) + multiset{c}
  {
    var rest := Insert(s[1..], c);
    assert Insert(s, c) == [s[0]] + rest;
    HeadBelowRest(s, c);
    ConsSorted(s[0], rest);
    ConsContents(s, c, rest);
  }

  /** Putting the head back in front of the tail's insertion result gives the whole table's. */
  lemma ConsContents(s: seq<Client>, c: Client, rest: seq<Client>)
    requires s != [] && s[0] != c
    requires c in s[1..] ==> rest == s[1..]
    requires c !in s[1..] ==> multiset(rest) == multiset(s[1..]) + multiset{c}
    ensures c in s ==> [s[0]] + rest == s
    ensures c !in s ==> multiset([s[0]] + rest) == multiset(s) + multiset{c}
  {
    assert s == [s[0]] + s[1..];
  }

  lemma HeadBelowRest(s: seq<Client>, c: Client)
    requires Sorted(s) && s != [] && s[0] != c && !Less(c, s[0])
    requires c in s[1..] ==> Insert(s[1..], c) == s[1..]
    requires c !in s[1..] ==> multiset(Insert(s[1..], c)) == multiset(s[1..]) + multiset{c}
    ensures forall x :: x in Insert(s[1..], c) ==> Less(s[0], x)
  {
    LessTotal(c, s[0]);
    var rest := Insert(s[1..], c);
    forall x | x in rest ensures Less(s[0], x) {
      assert x in multiset(rest);
      if x != c { assert x in s[1..]; }
    }
  }

  lemma ConsSorted(x: Client, rest: seq<Client>)
    requires Sorted(rest)
    requires forall y :: y in rest ==> Less(x, y)
    ensures Sorted([x] + rest)
  {
    forall i, j | 0 <= i < j < |[x] + rest| ensures Less(([x] + rest)[i], ([x] + rest)[j]) {
      if i == 0 { assert ([x] + rest)[j] == rest[j - 1]; assert rest[j - 1] in rest; }
    }
  }

  /** `std::set::erase` of the element at position `k`. */
  function EraseAt(s: seq<Client>, k: nat): (r: seq<Client>)
    requires k < |s|
    ensures |r| == |s| - 1
    ensures Sorted(s) ==> Sorted(r)
    ensures DistinctNames(s) ==> DistinctNames(r)
    ensures multiset(r) == multiset(s) - multiset{s[k]}
  {
    assert s == s[..k] + [s[k]] + s[k + 1..];
    s[..k] + s[k + 1..]
  }

  /** Position of the first entry named `name` (`find`), or `|s|` when there is none. */
  function FindIndex(s: seq<Client>, name: string): (k: nat)
    ensures k <= |s|
    ensures k < |s| ==> s[k].name == name
    ensures forall j :: 0 <= j < k ==> s[j].name != name
  {
    if s == [] then 0
    else if s[0].name == name then 0
    else 1 + FindIndex(s[1..], name)
  }

  /** The search loop of `DRFSorter::find`. */
  method Find(s: seq<Client>, name: string) returns (k: nat)
    ensures k == FindIndex(s, name)
  {
    k := 0;
    while k < |s|
      invariant k <= |s|
      invariant forall j :: 0 <= j < k ==> s[j].name != name
    {
      if s[k].name == name {
        break;
      }
      k := k + 1;
    }
    FindIndexUnique(s, name, k);
  }

  /** `FindIndex` is the only index with its two properties. */
  lemma FindIndexUnique(s: seq<Client>, name: string, k: nat)
    requires k <= |s|
    requires k < |s| ==> s[k].name == name
    requires forall j :: 0 <= j < k ==> s[j].name != name
    ensures k == FindIndex(s, name)
  {
  }

  /** Some entry is named `name`. */
  predicate Active(s: seq<Client>, name: string)
  {
    exists i :: 0 <= i < |s| && s[i].name == name
  }

  /**
   * What the comparator order means for a sorted table: shares never decrease,
   * equal shares put the client with fewer allocations first, and equal shares
   * and counts go by name.
   */
  lemma SortedOrder(s: seq<Client>, i: nat, j: nat)
    requires Sorted(s) && i < j < |s|
    ensures s[i].share <= s[j].share
    ensures s[i].share == s[j].share ==> s[i].allocations <= s[j].allocations
    ensures s[i].share == s[j].share && s[i].allocations == s[j].allocations ==> Text.Less(s[i].name, s[j].name)
  {
  }

  /** The first entry of a sorted table is its least element. */
  lemma SortedMin(s: seq<Client>, x: Client)
    requires Sorted(s) && x in s
    ensures x == s[0] || Less(s[0], x)
  {
  }

  lemma LessNotBoth(a: Client, b: Client)
    ensures !(Less(a, b) && Less(b, a))
  {
    if Less(a, b) { LessAsymmetric(a, b); }
  }

  /** A sorted table is determined by its elements: two sorted tables with the same elements are equal. */
  lemma {:induction false} SortedUnique(a: seq<Client>, b: seq<Client>)
    requires Sorted(a) && Sorted(b)
    requires forall x :: x in a <==> x in b
    ensures a == b
    decreases |a|
  {
    assert a != [] ==> a[0] in a;
    assert b != [] ==> b[0] in b;
    assert a == [] <==> b == [];
    if a != [] {
      SortedMin(b, a[0]);
      SortedMin(a, b[0]);
      LessNotBoth(a[0], b[0]);
      assert a[0] == b[0];
      LessIrreflexive(a[0]);
      forall x ensures x in a[1..] <==> x in b[1..] {
        if x in a[1..] {
          var i :| 1 <= i < |a| && a[i] == x;
          assert x in b;
          var j :| 0 <= j < |b| && b[j] == x;
          assert j != 0;
          assert b[1..][j - 1] == x;
        }
        if x in b[1..] {
          var i :| 1 <= i < |b| && b[i] == x;
          assert x in a;
          var j :| 0 <= j < |a| && a[j] == x;
          assert j != 0;
          assert a[1..][j - 1] == x;
        }
      }
      SortedUnique(a[1..], b[1..]);
      assert a == [a[0]] + a[1..] && b == [b[0]] + b[1..];
    }
  }

  /** Inserting a client under a name the table lacks keeps the names distinct. */
  lemma InsertDistinct(s: seq<Client>, c: Client)
    requires Sorted(s) && DistinctNames(s)
    requires forall i :: 0 <= i < |s| ==> s[i].name != c.name
    ensures c !in s
    ensures DistinctNames(Insert(s, c))
  {
    InsertSpec(s, c);
    var r := Insert(s, c);
    forall x | x in r ensures x in s || x == c {
      assert x in multiset(r);
    }
    forall i, j | 0 <= i < j < |r| ensures r[i].name != r[j].name {
      LessIrreflexive(r[i]);
      assert r[i] in r && r[j] in r;
      if r[i] != c && r[j] != c {
        var a :| 0 <= a < |s| && s[a] == r[i];
        var b :| 0 <= b < |s| && s[b] == r[j];
        assert a != b;
      }
    }
  }

  /** Whether `find` stops inside the table tells whether a name is active. */
  lemma ActiveFind(s: seq<Client>, name: string)
    ensures Active(s, name) <==> FindIndex(s, name) < |s|
  {
  }

  /** The entry named `name`, if the table holds one. */
  function Lookup(s: seq<Client>, name: string): Option<Client>
  {
    var k := FindIndex(s, name);
    if k < |s| then Some(s[k]) else None
  }

  /** The entries under names other than `name`. */
  function Others(s: seq<Client>, name: string): set<Client>
  {
    set x | x in s && x.name != name
  }

  /** In a table with distinct names, `Lookup` finds exactly the entry carrying the name. */
  lemma LookupSpec(s: seq<Client>, name: string, c: Client)
    requires DistinctNames(s)
    ensures Lookup(s, name) == Some(c) <==> c in s && c.name == name
    ensures Lookup(s, name) == None <==> !Active(s, name)
  {
    if c in s && c.name == name {
      var i :| 0 <= i < |s| && s[i] == c;
      FindIndexUnique(s, name, i);
    }
  }

  /** Inserting a client under a new name: the table stays sorted with distinct names, the client is found, the rest is kept. */
  lemma InsertNew(s: seq<Client>, c: Client)
    requires Sorted(s) && DistinctNames(s) && !Active(s, c.name)
    ensures Sorted(Insert(s, c)) && DistinctNames(Insert(s, c))
    ensures Lookup(Insert(s, c), c.name) == Some(c)
    ensures Others(Insert(s, c), c.name) == Others(s, c.name)
    ensures forall x :: x in Insert(s, c) <==> x in s || x == c
  {
    InsertDistinct(s, c);
    InsertSpec(s, c);
    var r := Insert(s, c);
    forall x ensures x in r <==> x in s || x == c {
      assert x in r <==> x in multiset(r);
    }
    LookupSpec(r, c.name, c);
  }

  /** Erasing the entry at `k` removes its name from the table and keeps every other entry. */
  lemma EraseSpec(s: seq<Client>, k: nat)
    requires DistinctNames(s) && k < |s|
    ensures Lookup(EraseAt(s, k), s[k].name) == None
    ensures Others(EraseAt(s, k), s[k].name) == Others(s, s[k].name)
    ensures forall x :: x in EraseAt(s, k) <==> x in s && x.name != s[k].name
  {
    var r := EraseAt(s, k);
    assert r == s[..k] + s[k + 1..];
    forall x ensures x in r <==> x in s && x.name != s[k].name {
      if x in s && x.name != s[k].name {
        var i :| 0 <= i < |s| && s[i] == x;
        if i < k { assert r[i] == x; } else { assert r[i - 1] == x; }
      }
    }
    LookupSpec(r, s[k].name, s[k]);
  }

  /** Erase the entry at `k` and insert `c` in its place in the order: how `update` and `allocated` change an entry. */
  function Reposition(s: seq<Client>, k: nat, c: Client): seq<Client>
    requires k < |s|
  {
    Insert(EraseAt(s, k), c)
  }

  /** Repositioning an entry keeps the table sorted with distinct names, replaces the entry and keeps all others. */
  lemma RepositionSpec(s: seq<Client>, k: nat, c: Client)
    requires Sorted(s) && DistinctNames(s) && k < |s| && c.name == s[k].name
    ensures Sorted(Reposition(s, k, c)) && DistinctNames(Reposition(s, k, c))
    ensures Lookup(Reposition(s, k, c), c.name) == Some(c)
    ensures Others(Reposition(s, k, c), c.name) == Others(s, c.name)
    ensures forall x :: x in Reposition(s, k, c) <==> x == c || (x in s && x.name != c.name)
  {
    EraseSpec(s, k);
    var e := EraseAt(s, k);
    assert !Active(e, c.name) by { LookupSpec(e, c.name, c); }
    InsertNew(e, c);
  }
}
