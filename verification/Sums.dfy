/**
  Finite sums over sequences and maps, and what they keep under appending,
  reordering and updating. Every accumulator loop of the model is tied to one
  of these sums.
*/
module Sums {

  /** The sum of f over a sequence, growing at the end as an accumulator loop does. */
  function SumBy<T>(f: T -> int, s: seq<T>): int
  {
    if |s| == 0 then 0 else SumBy(f, s[..|s| - 1]) + f(s[|s| - 1])
  }

  function Id(x: int): int { x }

  function Sum(s: seq<int>): int
  {
    SumBy(Id, s)
  }

  lemma SumStep<T>(f: T -> int, s: seq<T>, i: nat)
    requires i < |s|
    ensures SumBy(f, s[..i + 1]) == SumBy(f, s[..i]) + f(s[i])
  {
    assert s[..i + 1][..i] == s[..i];
  }

  lemma SumOne<T>(f: T -> int, x: T)
    ensures SumBy(f, [x]) == f(x)
  {
    assert [x][..0] == [];
  }

  lemma SumPair<T>(f: T -> int, x: T, y: T)
    ensures SumBy(f, [x, y]) == f(x) + f(y)
  {
    assert [x, y][..1] == [x];
    SumOne(f, x);
  }

  lemma {:induction false} SumAppend<T>(f: T -> int, a: seq<T>, b: seq<T>)
    ensures SumBy(f, a + b) == SumBy(f, a) + SumBy(f, b)
    decreases |b|
  {
    if |b| == 0 {
      assert a + b == a;
    } else {
      SumAppend(f, a, b[..|b| - 1]);
      assert (a + b)[..|a + b| - 1] == a + b[..|b| - 1];
    }
  }

  lemma {:induction false} SumHead<T>(f: T -> int, s: seq<T>)
    requires |s| > 0
    ensures SumBy(f, s) == f(s[0]) + SumBy(f, s[1..])
  {
    assert s == [s[0]] + s[1..];
    SumAppend(f, [s[0]], s[1..]);
    assert [s[0]][..0] == [];
  }

  lemma {:induction false} SumRemove<T>(f: T -> int, s: seq<T>, i: nat)
    requires i < |s|
    ensures SumBy(f, s) == f(s[i]) + SumBy(f, s[..i] + s[i + 1..])
  {
    SumAppend(f, s[..i], s[i + 1..]);
    assert s == s[..i] + s[i..];
    SumAppend(f, s[..i], s[i..]);
    SumHead(f, s[i..]);
    assert s[i..][1..] == s[i + 1..];
  }

  lemma SumUpdate<T>(f: T -> int, s: seq<T>, i: nat, x: T)
    requires i < |s|
    ensures SumBy(f, s[i := x]) == SumBy(f, s) - f(s[i]) + f(x)
  {
    var t := s[i := x];
    SumRemove(f, s, i);
    SumRemove(f, t, i);
    assert t[..i] + t[i + 1..] == s[..i] + s[i + 1..];
  }

  lemma WithoutIndex<T>(s: seq<T>, i: nat)
    requires i < |s|
    ensures multiset(s[..i] + s[i + 1..]) == multiset(s) - multiset{s[i]}
  {
    assert s == s[..i] + [s[i]] + s[i + 1..];
    assert multiset(s) == multiset(s[..i]) + multiset{s[i]} + multiset(s[i + 1..]);
  }

  lemma PermutedWithout<T>(a: seq<T>, b: seq<T>, i: nat)
    requires |a| > 0 && i < |b| && a[0] == b[i] && multiset(a) == multiset(b)
    ensures multiset(a[1..]) == multiset(b[..i] + b[i + 1..])
  {
    assert a == [a[0]] + a[1..];
    WithoutIndex(b, i);
  }

  /** A sum does not depend on the order of the summands. */
  lemma {:induction false} SumPermuted<T>(f: T -> int, a: seq<T>, b: seq<T>)
    requires multiset(a) == multiset(b)
    ensures SumBy(f, a) == SumBy(f, b)
    decreases |a|
  {
    if |a| == 0 {
      assert |multiset(b)| == 0;
    } else {
      assert a[0] in multiset(b);
      var i :| 0 <= i < |b| && b[i] == a[0];
      PermutedWithout(a, b, i);
      SumPermuted(f, a[1..], b[..i] + b[i + 1..]);
      SumHead(f, a);
      SumRemove(f, b, i);
    }
  }

  lemma {:induction false} SumNonNegative<T>(f: T -> int, s: seq<T>)
    requires forall x :: x in s ==> f(x) >= 0
    ensures SumBy(f, s) >= 0
    ensures forall x :: x in s ==> f(x) <= SumBy(f, s)
  {
    if |s| > 0 {
      SumNonNegative(f, s[..|s| - 1]);
    }
  }

  lemma {:induction false} SumEqual<T>(f: T -> int, g: T -> int, s: seq<T>)
    requires forall x :: x in s ==> f(x) == g(x)
    ensures SumBy(f, s) == SumBy(g, s)
  {
    if |s| > 0 {
      SumEqual(f, g, s[..|s| - 1]);
    }
  }

  lemma {:induction false} SumZero<T>(f: T -> int, s: seq<T>)
    requires forall i :: 0 <= i < |s| ==> f(s[i]) == 0
    ensures SumBy(f, s) == 0
  {
    if |s| > 0 {
      SumZero(f, s[..|s| - 1]);
    }
  }

  /** Pointwise comparison of two integer sequences of one length. */
  lemma {:induction false} SumPointwise(a: seq<int>, b: seq<int>)
    requires |a| == |b|
    requires forall i :: 0 <= i < |a| ==> a[i] <= b[i]
    ensures Sum(a) <= Sum(b)
  {
    if |a| > 0 {
      SumPointwise(a[..|a| - 1], b[..|b| - 1]);
    }
  }

  /** The sum of the values of a finite map, in whatever order its keys come. */
  ghost function SumMap<K>(m: map<K, int>): int
    decreases |m|
  {
    if m == map[] then 0 else m[PickKey(m)] + SumMap(m - {PickKey(m)})
  }

  ghost function PickKey<K>(m: map<K, int>): (k: K)
    requires m != map[]
    ensures k in m
  {
    var k :| k in m;
    k
  }

  lemma {:induction false} SumMapRemove<K>(m: map<K, int>, k: K)
    requires k in m
    ensures SumMap(m) == m[k] + SumMap(m - {k})
    decreases |m|
  {
    var c := PickKey(m);
    if c != k {
      SumMapRemove(m - {c}, k);
      assert m - {c} - {k} == m - {k} - {c};
      SumMapRemove(m - {k}, c);
    }
  }

  lemma {:induction false} SumMapUpdate<K>(m: map<K, int>, k: K, v: int)
    ensures SumMap(m[k := v]) == SumMap(m) - (if k in m then m[k] else 0) + v
  {
    SumMapRemove(m[k := v], k);
    assert m[k := v] - {k} == m - {k};
    if k in m {
      SumMapRemove(m, k);
    } else {
      assert m - {k} == m;
    }
  }
}
