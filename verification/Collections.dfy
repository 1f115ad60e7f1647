/** Small facts about finite collections that several components share. */
module Collections {

  datatype Option<+T> = None | Some(value: T)

  type Byte = b: int | 0 <= b < 256
  type Bytes = seq<Byte>

  /** The total of `f` over the values of a finite map. */
  ghost function SumOf<K, V>(m: map<K, V>, f: V -> nat): nat
    decreases |m|
  {
    if m == map[] then 0
    else
      var k :| k in m;
      f(m[k]) + SumOf(m - {k}, f)
  }

  /** The total does not depend on the order in which keys are visited. */
  lemma {:induction false} SumWithout<K, V>(m: map<K, V>, f: V -> nat, k: K)
    requires k in m
    ensures SumOf(m, f) == f(m[k]) + SumOf(m - {k}, f)
    decreases |m|
  {
    var first :| first in m && SumOf(m, f) == f(m[first]) + SumOf(m - {first}, f);
    if first != k {
      SumWithout(m - {first}, f, k);
      SumWithout(m - {k}, f, first);
      assert m - {first} - {k} == m - {k} - {first};
    }
  }

  /** Writing one key replaces exactly that key's contribution. */
  lemma SumUpdate<K, V>(m: map<K, V>, f: V -> nat, k: K, v: V)
    ensures SumOf(m[k := v], f) == SumOf(m, f) + f(v) - (if k in m then f(m[k]) else 0)
  {
    SumWithout(m[k := v], f, k);
    assert m[k := v] - {k} == m - {k};
    if k in m {
      SumWithout(m, f, k);
    } else {
      assert m - {k} == m;
    }
  }

  /** Rewriting values without changing what `f` reads keeps the total. */
  lemma {:induction false} SumSame<K, V>(m: map<K, V>, n: map<K, V>, f: V -> nat)
    requires m.Keys == n.Keys
    requires forall k :: k in m ==> f(m[k]) == f(n[k])
    ensures SumOf(m, f) == SumOf(n, f)
    decreases |m|
  {
    if m != map[] {
      var k :| k in m;
      SumWithout(m, f, k);
      SumWithout(n, f, k);
      SumSame(m - {k}, n - {k}, f);
    } else {
      assert n == map[];
    }
  }

  /** The images of the elements of `s`, one after the other. */
  function FlatMap<A, B>(f: A -> seq<B>, s: seq<A>): seq<B>
    decreases |s|
  {
    if s == [] then [] else f(s[0]) + FlatMap(f, s[1..])
  }

  lemma {:induction false} FlatMapAppend<A, B>(f: A -> seq<B>, a: seq<A>, b: seq<A>)
    ensures FlatMap(f, a + b) == FlatMap(f, a) + FlatMap(f, b)
    decreases |a|
  {
    if a == [] {
      assert a + b == b;
    } else {
      FlatMapAppend(f, a[1..], b);
      assert (a + b)[1..] == a[1..] + b;
      assert f(a[0]) + (FlatMap(f, a[1..]) + FlatMap(f, b)) == FlatMap(f, a) + FlatMap(f, b);
    }
  }
}
