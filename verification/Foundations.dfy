/** Stock datatypes for optional values and for calls that can fail. */
module Wrappers {
  datatype Option<+T> = None | Some(value: T)

  datatype Result<+T, +E> = Ok(value: T) | Err(error: E)

  datatype Outcome<+E> = Pass | Fail(error: E)
}

/** The fixed-width integers of the contracts: ranges, saturating addition and truncating division. */
module MachineInts {
  const I128_MAX: int := 0x7FFF_FFFF_FFFF_FFFF_FFFF_FFFF_FFFF_FFFF
  const I128_MIN: int := -I128_MAX - 1
  const U64_MAX: int := 0xFFFF_FFFF_FFFF_FFFF
  const U32_MAX: int := 0xFFFF_FFFF

  predicate InI128(x: int) {
    I128_MIN <= x <= I128_MAX
  }

  function Min(a: int, b: int): int {
    if a <= b then a else b
  }

  function SatAdd32(a: nat, b: nat): nat {
    if a + b <= U32_MAX then a + b else U32_MAX
  }

  function SatAdd64(a: nat, b: nat): nat {
    if a + b <= U64_MAX then a + b else U64_MAX
  }

  function SatAdd128(a: int, b: int): int {
    if a + b > I128_MAX then I128_MAX else if a + b < I128_MIN then I128_MIN else a + b
  }

  function SatSub128(a: int, b: int): int {
    if a - b > I128_MAX then I128_MAX else if a - b < I128_MIN then I128_MIN else a - b
  }

  /** Rust's `/` on signed integers: the quotient is rounded toward zero. */
  function DivTrunc(a: int, b: int): int
    requires b != 0
  {
    if a >= 0 then a / b else -((-a) / b)
  }

  lemma MulMono(x: int, y: int, k: int)
    requires x <= y && k >= 0
    ensures k * x <= k * y && x * k <= y * k
  {
    assert 0 <= (y - x) * k;
  }

  lemma CancelLess(x: int, y: int, k: int)
    requires x * k < y * k && k >= 0
    ensures x < y
  {
    if x >= y { MulMono(y, x, k); }
  }

  lemma CancelAtMost(x: int, y: int, k: int)
    requires x * k <= y * k && k > 0
    ensures x <= y
  {
    if x > y { MulMono(y + 1, x, k); }
  }

  /** The floor quotient, by the two inequalities that determine it. */
  lemma FloorBounds(a: int, b: int)
    requires b > 0
    ensures a / b * b <= a < a / b * b + b
  {
    assert b * (a / b) == a / b * b;
  }

  lemma FloorIs(a: int, b: int, q: int)
    requires b > 0 && q * b <= a < q * b + b
    ensures a / b == q
  {
    FloorBounds(a, b);
    assert (q + 1) * b == q * b + b && (a / b + 1) * b == a / b * b + b;
    CancelLess(q, a / b + 1, b);
    CancelLess(a / b, q + 1, b);
  }

  lemma DivMono(a: int, b: int, k: int)
    requires a <= b && k > 0
    ensures a / k <= b / k
  {
    FloorBounds(a, k);
    FloorBounds(b, k);
    assert (b / k + 1) * k == b / k * k + k;
    CancelLess(a / k, b / k + 1, k);
  }
}

/** Sums over finite maps, and how one update changes them. */
module MapSums {
  ghost function Pick<K>(m: map<K, int>): (k: K)
    requires m != map[]
    ensures k in m
  {
    var k :| k in m;
    k
  }

  ghost function Sum<K>(m: map<K, int>): int
    decreases |m|
  {
    if m == map[] then 0
    else
      var k := Pick(m);
      m[k] + Sum(m - {k})
  }

  lemma {:induction false} SumRemove<K>(m: map<K, int>, k: K)
    requires k in m
    ensures Sum(m) == m[k] + Sum(m - {k})
    decreases |m|
  {
    var j := Pick(m);
    if j != k {
      SumRemove(m - {j}, k);
      SumRemove(m - {k}, j);
      assert m - {j} - {k} == m - {k} - {j};
    }
  }

  /** Writing one key moves the sum by exactly the change at that key. */
  lemma SumUpdate<K>(m: map<K, int>, k: K, v: int)
    ensures Sum(m[k := v]) == Sum(m) - (if k in m then m[k] else 0) + v
  {
    SumRemove(m[k := v], k);
    if k in m {
      SumRemove(m, k);
      assert m[k := v] - {k} == m - {k};
    } else {
      assert m[k := v] - {k} == m;
    }
  }

  lemma {:induction false} SumNonNegative<K>(m: map<K, int>)
    requires forall k :: k in m ==> m[k] >= 0
    ensures Sum(m) >= 0
    ensures forall k :: k in m ==> m[k] <= Sum(m)
    decreases |m|
  {
    if m != map[] {
      var j := Pick(m);
      SumNonNegative(m - {j});
      forall k | k in m
        ensures m[k] <= Sum(m)
      {
        if k != j {
          assert k in m - {j};
        }
      }
    }
  }
}
