/**
 * Stripped scalar quantities (`Resources::createStrippedScalarQuantity`): the
 * amount of each scalar resource name, with roles and metadata removed. A
 * `Resources` object never keeps an entry whose value dropped to zero, so a
 * quantity map only holds positive amounts and the empty map is "empty".
 */
module Quantities {

  type Quantities = q: map<string, real> | forall n :: n in q ==> q[n] > 0.0

  /** The amount of `n`; a missing name counts as 0. */
  function Get(q: Quantities, n: string): real
  {
    if n in q then q[n] else 0.0
  }

  predicate IsEmpty(q: Quantities)
  {
    q == map[]
  }

  /** `a += b` on scalar quantities. */
  function Add(a: Quantities, b: Quantities): Quantities
  {
    map n | n in a.Keys + b.Keys :: Get(a, n) + Get(b, n)
  }

  /** Every amount of a sum is the sum of the amounts. */
  lemma GetAdd(a: Quantities, b: Quantities)
    ensures forall n :: Get(Add(a, b), n) == Get(a, n) + Get(b, n)
  {
  }

  /**
   * `a -= b` on scalar quantities: each amount drops by what `b` holds, and
   * entries that are no longer positive disappear.
   */
  function Sub(a: Quantities, b: Quantities): Quantities
  {
    map n | n in a.Keys && a[n] - Get(b, n) > 0.0 :: a[n] - Get(b, n)
  }

  /** Every amount of a difference drops by what `b` holds, but not below 0. */
  lemma GetSub(a: Quantities, b: Quantities)
    ensures forall n :: Get(Sub(a, b), n) == if Get(a, n) - Get(b, n) > 0.0 then Get(a, n) - Get(b, n) else 0.0
  {
  }

  /** `a.contains(b)`: at least the amount of every name of `b`. */
  predicate Contains(a: Quantities, b: Quantities)
  {
    forall n :: n in b ==> b[n] <= Get(a, n)
  }

  /** Maps are equal when their amounts are. */
  lemma Extensional(a: Quantities, b: Quantities)
    requires forall n :: Get(a, n) == Get(b, n)
    ensures a == b
  {
    forall n | n in a ensures n in b && a[n] == b[n] { assert Get(a, n) == Get(b, n); }
    forall n | n in b ensures n in a { assert Get(a, n) == Get(b, n); }
  }

  /** Taking away what was just added restores the original. */
  lemma SubAdd(a: Quantities, b: Quantities)
    ensures Sub(Add(a, b), b) == a
  {
    GetAdd(a, b);
    GetSub(Add(a, b), b);
    Extensional(Sub(Add(a, b), b), a);
  }

  /** Adding back what was taken away, when it was there, restores the original. */
  lemma AddSub(a: Quantities, b: Quantities)
    requires Contains(a, b)
    ensures Add(Sub(a, b), b) == a
  {
    GetSub(a, b);
    GetAdd(Sub(a, b), b);
    forall n ensures Get(Add(Sub(a, b), b), n) == Get(a, n) {
      if n in b { assert b[n] <= Get(a, n); }
    }
    Extensional(Add(Sub(a, b), b), a);
  }

  /** Something added is contained in the sum. */
  lemma ContainsAdded(a: Quantities, b: Quantities)
    ensures Contains(Add(a, b), b)
  {
    GetAdd(a, b);
    forall n | n in b ensures b[n] <= Get(Add(a, b), n) {
      assert Get(a, n) >= 0.0;
    }
  }
}
