/** Machine integers, resource amounts, and sums of amounts over a map.

    The agent counts resources in `u32`/`u64` fields that saturate; the proofs
    reason about exact, unbounded sums.  `Clamp` relates the two.
 */
module Quantities {

  const U32_MAX: nat := 0xFFFF_FFFF
  const U64_MAX: nat := 0xFFFF_FFFF_FFFF_FFFF

  type U32 = x: nat | x <= U32_MAX
  type U64 = x: nat | x <= U64_MAX

  function Min(a: nat, b: nat): nat {
    if a <= b then a else b
  }

  function SaturatingAdd(a: U64, b: U64): U64 {
    if a + b > U64_MAX then U64_MAX else a + b
  }

  function SaturatingSub(a: U64, b: U64): U64 {
    if a < b then 0 else a - b
  }

  /** The resources one signed message asks for. */
  datatype Size = Size(cpu: U32, memory: U64, storage: U64) {

    predicate Within(other: Size) {
      cpu <= other.cpu && memory <= other.memory && storage <= other.storage
    }

    function Exact(): Total {
      Total(cpu, memory, storage)
    }
  }

  /** An exact sum of sizes. */
  datatype Total = Total(cpu: nat, memory: nat, storage: nat) {

    function Plus(other: Total): Total {
      Total(cpu + other.cpu, memory + other.memory, storage + other.storage)
    }

    predicate Within(other: Total) {
      cpu <= other.cpu && memory <= other.memory && storage <= other.storage
    }
  }

  const ZERO := Total(0, 0, 0)

  /** `ResourceUsage`: what the agent actually stores while adding up. */
  datatype Usage = Usage(cpu: U64, memory: U64, storage: U64) {

    /** Saturating, field by field. */
    function Plus(size: Size): Usage {
      Usage(SaturatingAdd(cpu, size.cpu), SaturatingAdd(memory, size.memory),
            SaturatingAdd(storage, size.storage))
    }

    predicate FitsWithin(limit: Usage) {
      cpu <= limit.cpu && memory <= limit.memory && storage <= limit.storage
    }
  }

  /** The value a saturating accumulator reaches for an exact sum. */
  function Clamp(t: Total): Usage {
    Usage(Min(t.cpu, U64_MAX), Min(t.memory, U64_MAX), Min(t.storage, U64_MAX))
  }

  /** Sum of `f` over the values of a map, independent of iteration order (`SumPick`). */
  ghost function Sum<K(!new), V>(m: map<K, V>, f: V -> Size): Total
    decreases |m|
  {
    if m == map[] then ZERO
    else
      var k :| k in m;
      f(m[k]).Exact().Plus(Sum(m - {k}, f))
  }

  /** Any key may be taken out first. */
  lemma {:induction false} SumPick<K(!new), V>(m: map<K, V>, f: V -> Size, k: K)
    requires k in m
    ensures Sum(m, f) == f(m[k]).Exact().Plus(Sum(m - {k}, f))
    decreases |m|
  {
    var first :| first in m && Sum(m, f) == f(m[first]).Exact().Plus(Sum(m - {first}, f));
    if first != k {
      var rest := m - {first} - {k};
      assert rest == m - {k} - {first};
      SumPick(m - {first}, f, k);
      SumPick(m - {k}, f, first);
      assert Sum(m - {first}, f) == f(m[k]).Exact().Plus(Sum(rest, f));
      assert Sum(m - {k}, f) == f(m[first]).Exact().Plus(Sum(rest, f));
      assert Sum(m, f) == f(m[first]).Exact().Plus(f(m[k]).Exact().Plus(Sum(rest, f)));
    }
  }

  lemma SumInsert<K(!new), V>(m: map<K, V>, f: V -> Size, k: K, v: V)
    requires k !in m
    ensures Sum(m[k := v], f) == f(v).Exact().Plus(Sum(m, f))
  {
    SumPick(m[k := v], f, k);
    assert m[k := v] - {k} == m;
  }

  lemma {:induction false} SumMonotone<K(!new), V>(m: map<K, V>, n: map<K, V>, f: V -> Size)
    requires m.Keys <= n.Keys
    requires forall k | k in m :: f(m[k]).Within(f(n[k]))
    ensures Sum(m, f).Within(Sum(n, f))
    decreases |m|
  {
    if m != map[] {
      var k :| k in m;
      SumPick(m, f, k);
      SumPick(n, f, k);
      SumMonotone(m - {k}, n - {k}, f);
    }
  }
}
