/** Shared result types, and sums over finite maps (the `SUM(..)` of a table). */
module Common {
  const I64_MIN: int := -0x8000_0000_0000_0000
  const I64_MAX: int := 0x7fff_ffff_ffff_ffff

  datatype Option<+T> = None | Some(value: T)

  /** Wire error codes, plus the ways the database itself refuses a statement and
      rolls the transaction back (all three reach the client as `internal`). */
  datatype Fail =
    | NotFound | Forbidden | Conflict | Invalid | Internal
    | DuplicateKey      // PRIMARY KEY or unique index
    | OutOfRange        // bigint overflow
    | CheckViolated     // accounts CHECK (balance >= 0 OR owner_kind = 'system')

  datatype Result<+T> = Ok(value: T) | Err(fail: Fail)

  /** A set of integers without members is the empty set; what `x :| x in s` needs. */
  lemma EmptyIfNoMember(s: set<int>)
    ensures (forall x :: x !in s) ==> s == {}
  {
    if forall x :: x !in s {
      assert s == {};
    }
  }

  lemma SubsetIsSmaller<T>(a: set<T>, b: set<T>)
    requires a <= b
    ensures |a| <= |b|
  {
    assert b == a + (b - a);
  }

  function SaturatingSub(n: nat, k: nat): nat { if n < k then 0 else n - k }
}

module Sums {
  /** The sum of `f` over the rows of a table. */
  ghost function SumOf<K, V>(m: map<K, V>, f: V -> int): int
    decreases |m|
  {
    if m == map[] then 0
    else
      var k :| k in m;
      f(m[k]) + SumOf(m - {k}, f)
  }

  /** Any row may be split off, whichever one the definition picks. */
  lemma {:induction false} SumSplit<K, V>(m: map<K, V>, f: V -> int, k: K)
    requires k in m
    ensures SumOf(m, f) == f(m[k]) + SumOf(m - {k}, f)
    decreases |m|
  {
    var j :| j in m && SumOf(m, f) == f(m[j]) + SumOf(m - {j}, f);
    if j != k {
      SumSplit(m - {j}, f, k);
      SumSplit(m - {k}, f, j);
      assert m - {j} - {k} == m - {k} - {j};
    }
  }

  /** Inserting or overwriting one row changes the sum by the difference of that row. */
  lemma SumUpdate<K, V>(m: map<K, V>, f: V -> int, k: K, v: V)
    ensures SumOf(m[k := v], f) == SumOf(m, f) - (if k in m then f(m[k]) else 0) + f(v)
  {
    SumSplit(m[k := v], f, k);
    assert m[k := v] - {k} == m - {k};
    if k in m {
      SumSplit(m, f, k);
    } else {
      assert m - {k} == m;
    }
  }

  /** Overwriting two rows. */
  lemma SumUpdateTwo<K, V>(m: map<K, V>, f: V -> int, j: K, v: V, k: K, w: V)
    requires j in m && k in m && j != k
    ensures SumOf(m[j := v][k := w], f) == SumOf(m, f) - f(m[j]) + f(v) - f(m[k]) + f(w)
  {
    SumUpdate(m, f, j, v);
    SumUpdate(m[j := v], f, k, w);
  }

  /** Row-wise comparison lifts to sums. */
  lemma {:induction false} SumMonotone<K, V>(m: map<K, V>, n: map<K, V>, f: V -> int, g: V -> int)
    requires m.Keys == n.Keys
    requires forall k :: k in m ==> f(m[k]) <= g(n[k])
    ensures SumOf(m, f) <= SumOf(n, g)
    decreases |m|
  {
    if m != map[] {
      var k :| k in m;
      SumSplit(m, f, k);
      SumSplit(n, g, k);
      SumMonotone(m - {k}, n - {k}, f, g);
    } else {
      assert n == map[];
    }
  }

  lemma SumEqual<K, V>(m: map<K, V>, n: map<K, V>, f: V -> int, g: V -> int)
    requires m.Keys == n.Keys
    requires forall k :: k in m ==> f(m[k]) == g(n[k])
    ensures SumOf(m, f) == SumOf(n, g)
  {
    SumMonotone(m, n, f, g);
    SumMonotone(n, m, g, f);
  }

  lemma {:induction false} SumZero<K, V>(m: map<K, V>, f: V -> int)
    requires forall k :: k in m ==> f(m[k]) == 0
    ensures SumOf(m, f) == 0
    decreases |m|
  {
    if m != map[] {
      var k :| k in m;
      SumSplit(m, f, k);
      SumZero(m - {k}, f);
    }
  }

  lemma {:induction false} SumNonNegative<K, V>(m: map<K, V>, f: V -> int)
    requires forall k :: k in m ==> f(m[k]) >= 0
    ensures SumOf(m, f) >= 0
    decreases |m|
  {
    if m != map[] {
      var k :| k in m;
      SumSplit(m, f, k);
      SumNonNegative(m - {k}, f);
    }
  }
}
