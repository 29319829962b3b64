/** Small shared datatypes and the sequence facts every component leans on. */
module Prelude {

  datatype Option<+T> = None | Some(value: T)

  datatype Result<+T, +E> = Ok(value: T) | Err(error: E)

  /** A float64 that the program only stores and forwards: its bit pattern. */
  datatype Float64 = Float64(bits: nat)

  function Flatten<T>(parts: seq<seq<T>>): seq<T> {
    if parts == [] then [] else parts[0] + Flatten(parts[1..])
  }

  lemma ConcatAssoc<T>(a: seq<T>, b: seq<T>, c: seq<T>)
    ensures a + (b + c) == (a + b) + c
  {
  }

  lemma {:induction false} FlattenAppend<T>(a: seq<seq<T>>, b: seq<seq<T>>)
    ensures Flatten(a + b) == Flatten(a) + Flatten(b)
  {
    if a == [] {
      assert a + b == b;
    } else {
      FlattenAppend(a[1..], b);
      var all := a + b;
      assert all[0] == a[0];
      assert all[1..] == a[1..] + b;
      assert Flatten(all) == all[0] + Flatten(all[1..]);
      ConcatAssoc(a[0], Flatten(a[1..]), Flatten(b));
    }
  }

  lemma FlattenSnoc<T>(a: seq<seq<T>>, x: seq<T>)
    ensures Flatten(a + [x]) == Flatten(a) + x
  {
    FlattenAppend(a, [x]);
    assert Flatten([x]) == x + Flatten([]) == x;
  }

  lemma Pick<T>(s: set<T>) returns (x: T)
    requires s != {}
    ensures x in s
  {
    x :| x in s;
  }

  lemma LargestOf(s: set<int>) returns (m: int)
    requires s != {}
    ensures m in s && forall x :: x in s ==> x <= m
    decreases s
  {
    m := Pick(s);
    assert forall x :: x in s ==> x == m || x in s - {m};
    if s - {m} != {} {
      var k := LargestOf(s - {m});
      if k > m { m := k; }
    }
  }

  /** Some key of a non-empty map, as Go's `range` may come to it next. */
  method PickKey<V>(m: map<string, V>) returns (key: string)
    requires m != map[]
    ensures key in m
  {
    assert m.Keys != {};
    key :| key in m;
  }

  lemma SubsetSize<T>(a: set<T>, b: set<T>)
    requires a <= b
    ensures |a| <= |b|
  {
    assert b == a + (b - a);
  }

  lemma WithoutKeys<K, V>(m: map<K, V>, ks: set<K>)
    requires ks <= m.Keys
    ensures |m - ks| == |m| - |ks|
  {
  }

  lemma {:induction false} MulMonotone(n: nat, a: int, b: int)
    requires a <= b
    ensures n * a <= n * b
    decreases b - a
  {
    if a < b {
      MulMonotone(n, a, b - 1);
      MulNext(n, b - 1);
    }
  }

  lemma MulNext(n: int, a: int)
    ensures n * (a + 1) == n * a + n
  {
  }

  predicate Distinct<T(==)>(s: seq<T>) {
    forall i, j :: 0 <= i < j < |s| ==> s[i] != s[j]
  }
}

/** Go's `time` package over integer nanoseconds since the Unix epoch. */
module GoTime {

  const MAX_INT64: int := 0x7fff_ffff_ffff_ffff
  const MIN_INT64: int := -0x8000_0000_0000_0000
  const SECOND: int := 1_000_000_000
  const MILLISECOND: int := 1_000_000

  /** Two's-complement wrap-around of an int64 product or negation. */
  function Wrap64(n: int): (w: int)
    ensures MIN_INT64 <= w <= MAX_INT64
  {
    (n - MIN_INT64) % 0x1_0000_0000_0000_0000 + MIN_INT64
  }

  /** The one int64 that differs from the product by a multiple of 2^64. */
  lemma WrapLaws(n: int)
    ensures Wrap64(n) == n <==> -9_223_372_036_854_775_808 <= n <= 9_223_372_036_854_775_807
    ensures Wrap64(n + 18_446_744_073_709_551_616) == Wrap64(n)
  {
  }

  /** `t.Sub(u)`: saturates instead of overflowing. */
  function Sub(t: int, u: int): (d: int)
    ensures d == t - u || (d == 9_223_372_036_854_775_807 < t - u) || (d == -9_223_372_036_854_775_808 > t - u)
    ensures -9_223_372_036_854_775_808 <= d <= 9_223_372_036_854_775_807
  {
    if t - u > MAX_INT64 then MAX_INT64 else if t - u < MIN_INT64 then MIN_INT64 else t - u
  }

  /** Integer division that truncates toward zero, as Go's `/` does. */
  function TruncDiv(n: int, d: int): (q: int)
    requires d > 0
  {
    if n >= 0 then n / d else -((-n) / d)
  }

  /** `d.Milliseconds()` */
  function Milliseconds(d: int): (ms: int)
    ensures d >= 0 ==> ms * 1_000_000 <= d < (ms + 1) * 1_000_000
    ensures d <= 0 ==> (ms - 1) * 1_000_000 < d <= ms * 1_000_000
  {
    TruncDiv(d, MILLISECOND)
  }

  /** `t.Unix()`: whole seconds, rounded toward minus infinity. */
  function Unix(t: int): (s: int)
    ensures s * 1_000_000_000 <= t < (s + 1) * 1_000_000_000
  {
    t / SECOND
  }
}
