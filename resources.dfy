/**
 * `Resource` protobufs and the scalar arithmetic of the `Resources` class as
 * far as quota needs it. A list of resources is a `seq<Resource>`; its
 * meaning is the amount it holds of each (name, role) pair. Adding two
 * `Resources` is concatenation, `contains` is pointwise "at least", `flatten`
 * moves everything to the default role `*` and `unreserved` keeps only what is
 * in role `*`. Ranges and sets are carried along but add no amount.
 */
module Resources {
  import opened Wrappers

  /** Scalar values are never negative (`Resources::validate` rejects them). */
  type Amount = x: real | x >= 0.0

  datatype Kind = SCALAR | RANGES | SET

  /**
   * A `Resource`: its name and type, the optional `role` field, whether the
   * `reservation`, `disk` and `revocable` sub-messages are set, and the scalar
   * value (meaningful for SCALAR only).
   */
  datatype Resource = Resource(
    name: string,
    kind: Kind,
    role: Option<string>,
    reservation: bool,
    disk: bool,
    revocable: bool,
    scalar: Amount)

  /** `Resource::role()`: the protobuf default of the role field is `*`. */
  function RoleOf(r: Resource): string
  {
    if r.role.Some? then r.role.value else "*"
  }

  /** Amount of scalar resource `name` held in role `role`. */
  function Quantity(rs: seq<Resource>, name: string, role: string): Amount
  {
    if rs == [] then 0.0
    else
      var r := rs[|rs| - 1];
      Quantity(rs[..|rs| - 1], name, role)
        + (if r.kind == SCALAR && r.name == name && RoleOf(r) == role then r.scalar else 0.0)
  }

  /** Amount of scalar resource `name` over all roles. */
  function NameQuantity(rs: seq<Resource>, name: string): Amount
  {
    if rs == [] then 0.0
    else
      var r := rs[|rs| - 1];
      NameQuantity(rs[..|rs| - 1], name) + (if r.kind == SCALAR && r.name == name then r.scalar else 0.0)
  }

  /** `a.contains(b)`: `a` holds at least as much of every (name, role) as `b`. */
  predicate Contains(a: seq<Resource>, b: seq<Resource>)
  {
    forall i | 0 <= i < |b| :: Quantity(b, b[i].name, RoleOf(b[i])) <= Quantity(a, b[i].name, RoleOf(b[i]))
  }

  /** `Resources::flatten()`: every resource moved to role `*`, reservation dropped. */
  function Flatten(rs: seq<Resource>): (r: seq<Resource>)
    ensures |r| == |rs|
    ensures forall i :: 0 <= i < |r| ==> RoleOf(r[i]) == "*" && !r[i].reservation
    ensures forall i :: 0 <= i < |r| ==> r[i].name == rs[i].name && r[i].kind == rs[i].kind && r[i].scalar == rs[i].scalar
  {
    seq(|rs|, i requires 0 <= i < |rs| => rs[i].(role := Some("*"), reservation := false))
  }

  /** `Resources::unreserved()`: the resources in role `*`, in order. */
  function Unreserved(rs: seq<Resource>): (r: seq<Resource>)
    ensures forall i :: 0 <= i < |r| ==> RoleOf(r[i]) == "*" && r[i] in rs
  {
    if rs == [] then []
    else
      var last := rs[|rs| - 1];
      Unreserved(rs[..|rs| - 1]) + (if RoleOf(last) == "*" then [last] else [])
  }

  /** Adding resources adds their amounts. */
  lemma {:induction false} QuantityAppend(a: seq<Resource>, b: seq<Resource>, name: string, role: string)
    ensures Quantity(a + b, name, role) == Quantity(a, name, role) + Quantity(b, name, role)
    decreases |b|
  {
    if b != [] {
      assert (a + b)[..|a + b| - 1] == a + b[..|b| - 1];
      QuantityAppend(a, b[..|b| - 1], name, role);
    } else {
      assert a + b == a;
    }
  }

  /** The checked form of `Contains` is the pointwise comparison on every pair. */
  lemma ContainsMeaning(a: seq<Resource>, b: seq<Resource>)
    ensures Contains(a, b) <==> forall n, ro :: Quantity(b, n, ro) <= Quantity(a, n, ro)
  {
    if Contains(a, b) {
      forall n, ro ensures Quantity(b, n, ro) <= Quantity(a, n, ro) {
        if Quantity(b, n, ro) > 0.0 {
          var i := QuantityWitness(b, n, ro);
          assert Quantity(b, b[i].name, RoleOf(b[i])) <= Quantity(a, b[i].name, RoleOf(b[i]));
        }
      }
    } else {
      var i :| 0 <= i < |b| && Quantity(b, b[i].name, RoleOf(b[i])) > Quantity(a, b[i].name, RoleOf(b[i]));
      assert !(Quantity(b, b[i].name, RoleOf(b[i])) <= Quantity(a, b[i].name, RoleOf(b[i])));
    }
  }

  /** A positive amount comes from some resource of that name and role. */
  lemma {:induction false} QuantityWitness(rs: seq<Resource>, name: string, role: string) returns (i: nat)
    requires Quantity(rs, name, role) > 0.0
    ensures i < |rs| && rs[i].name == name && RoleOf(rs[i]) == role
  {
    var last := rs[|rs| - 1];
    if last.kind == SCALAR && last.name == name && RoleOf(last) == role && last.scalar > 0.0 {
      i := |rs| - 1;
    } else {
      i := QuantityWitness(rs[..|rs| - 1], name, role);
    }
  }

  /** Containment is monotone in the container: adding more keeps it. */
  lemma ContainsGrow(a: seq<Resource>, c: seq<Resource>, b: seq<Resource>)
    requires Contains(a, b)
    ensures Contains(a + c, b)
  {
    forall i | 0 <= i < |b|
      ensures Quantity(b, b[i].name, RoleOf(b[i])) <= Quantity(a + c, b[i].name, RoleOf(b[i]))
    {
      QuantityAppend(a, c, b[i].name, RoleOf(b[i]));
    }
  }

  /** After `flatten`, the role-`*` amount of a name is its amount over all roles, and no other role holds anything. */
  lemma {:induction false} QuantityFlatten(rs: seq<Resource>, name: string, role: string)
    ensures Quantity(Flatten(rs), name, role) == if role == "*" then NameQuantity(rs, name) else 0.0
  {
    if rs != [] {
      assert Flatten(rs)[..|rs| - 1] == Flatten(rs[..|rs| - 1]);
      QuantityFlatten(rs[..|rs| - 1], name, role);
    }
  }

  /** `unreserved` keeps exactly the role-`*` amounts. */
  lemma {:induction false} QuantityUnreserved(rs: seq<Resource>, name: string, role: string)
    ensures Quantity(Unreserved(rs), name, role) == if role == "*" then Quantity(rs, name, role) else 0.0
  {
    if rs != [] {
      var last := rs[|rs| - 1];
      var pre := Unreserved(rs[..|rs| - 1]);
      QuantityUnreserved(rs[..|rs| - 1], name, role);
      QuantityAppend(pre, if RoleOf(last) == "*" then [last] else [], name, role);
      assert ([] + [last])[..0] == [];
    }
  }
}
