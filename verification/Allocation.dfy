/**
  The largest-remainder split of a whole amount (accounting.py), as the source's
  loops compute it and as the fair split it is meant to be.
*/
module Allocation {
  import opened Basics
  import opened Sums
  import opened Money

  // ------------------------------------------------------- the split as a value

  function Positive(w: int): nat
  {
    if w > 0 then w else 0
  }

  /** Negative weights count as 0; weights that are all 0 count as equal. */
  function Usable(weights: seq<int>): seq<nat>
  {
    var raw := seq(|weights|, i requires 0 <= i < |weights| => Positive(weights[i]));
    if Sum(raw) <= 0 then seq(|weights|, i => 1) else raw
  }

  /** The whole part of each line's quota total * w[i] / d. */
  function WholeQuota(total: nat, weight: nat, d: nat): nat
    requires d > 0
  {
    QuotaParts(total, weight, d);
    total * weight / d
  }

  function Floors(total: nat, w: seq<nat>, d: nat): seq<nat>
    requires d > 0
  {
    seq(|w|, i requires 0 <= i < |w| => WholeQuota(total, w[i], d))
  }

  /** The fractional part of each line's quota, in units of 1/d. */
  function Rests(total: nat, w: seq<nat>, d: nat): seq<nat>
    requires d > 0
  {
    seq(|w|, i requires 0 <= i < |w| => (QuotaParts(total, w[i], d); total * w[i] % d))
  }

  // --------------------------------------------------- quotients of 28 digits

  /** A quotient of 28 significant digits is mantissa / scale, the scale a power of ten. */
  datatype Quotient = Quotient(mantissa: nat, scale: nat)

  const LEADING: nat := 1_000_000_000_000_000_000_000_000_000

  /** The power of ten that brings n / d to 28 digits before the point. */
  function Scale(n: nat, d: nat): (p: nat)
    requires n > 0 && d > 0
    ensures p > 0
    decreases LEADING * d - n
  {
    if n >= LEADING * d then 1 else 10 * Scale(10 * n, d)
  }

  /** x / d to the nearest whole number, halves to the even one. */
  function HalfEven(x: nat, d: nat): nat
    requires d > 0
  {
    var q, r := x / d, x % d;
    if 2 * r < d || (2 * r == d && q % 2 == 0) then q else q + 1
  }

  /** The decimal quotient of n by d. */
  function Divide(n: nat, d: nat): (q: Quotient)
    requires d > 0
    ensures q.scale > 0
  {
    if n == 0 then Quotient(0, 1) else Quotient(HalfEven(n * Scale(n, d), d), Scale(n, d))
  }

  function Whole(q: Quotient): nat
    requires q.scale > 0
  {
    q.mantissa / q.scale
  }

  /** The digits a decimal quotient leaves behind its whole part. */
  function Digits(q: Quotient): nat
    requires q.scale > 0
  {
    q.mantissa % q.scale
  }

  /** What the decimal quotient leaves after its whole part. */
  function Fraction(q: Quotient): real
    requires q.scale > 0
  {
    Digits(q) as real / q.scale as real
  }

  // --------------------------------------------------------- the serving order

  /** The fractions by which lines are served, in the order of the lines. */
  function Fractions(total: nat, w: seq<nat>, d: nat): seq<real>
    requires d > 0
  {
    seq(|w|, i requires 0 <= i < |w| => Fraction(Divide(total * w[i], d)))
  }

  /** Line j is served before line i: a larger fraction, or an equal one earlier in the list. */
  predicate Before(keys: seq<real>, j: nat, i: nat)
    requires j < |keys| && i < |keys|
  {
    keys[j] > keys[i] || (keys[j] == keys[i] && j < i)
  }

  predicate Within(order: seq<nat>, n: nat)
  {
    forall k :: 0 <= k < |order| ==> order[k] < n
  }

  /** One step of a stable insertion sort by descending fraction. */
  function Insert(keys: seq<real>, order: seq<nat>, i: nat): seq<nat>
    requires i < |keys| && Within(order, |keys|)
  {
    if |order| == 0 then [i]
    else
      var last := order[|order| - 1];
      if keys[last] >= keys[i] then order + [i]
      else Insert(keys, order[..|order| - 1], i) + [last]
  }

  /** The first n lines in the order they are served. */
  function Order(keys: seq<real>, n: nat): (order: seq<nat>)
    requires n <= |keys|
    ensures Within(order, n) && |order| == n
  {
    if n == 0 then []
    else
      InsertKeeps(keys, Order(keys, n - 1), n - 1);
      Insert(keys, Order(keys, n - 1), n - 1)
  }

  lemma {:induction false} InsertKeeps(keys: seq<real>, order: seq<nat>, i: nat)
    requires i < |keys| && Within(order, |keys|)
    ensures var out := Insert(keys, order, i);
            && |out| == |order| + 1
            && (forall k :: 0 <= k < |out| ==> out[k] in order || out[k] == i)
  {
    if |order| > 0 {
      var last := order[|order| - 1];
      if keys[last] < keys[i] {
        InsertKeeps(keys, order[..|order| - 1], i);
      }
    }
  }

  /** Give one unit to each of the first r lines of the order. */
  function Bump(shares: seq<int>, order: seq<nat>, r: nat): (out: seq<int>)
    requires r <= |order| && Within(order, |shares|)
    ensures |out| == |shares|
  {
    if r == 0 then shares
    else
      var prior := Bump(shares, order, r - 1);
      prior[order[r - 1] := prior[order[r - 1]] + 1]
  }

  /** What is left of the total once every line has its whole part. */
  function Leftover(total: nat, w: seq<nat>, d: nat): int
    requires d > 0
  {
    total - Sum(Floors(total, w, d))
  }

  /** The split that serves the leftover units in the given order. */
  function SplitBy(total: nat, w: seq<nat>, order: seq<nat>): (shares: seq<int>)
    requires Sum(w) > 0 && |order| == |w| && Within(order, |w|)
    ensures |shares| == |w|
  {
    var d: nat := Sum(w);
    LeftoverBounds(total, w, d);
    Bump(Floors(total, w, d), order, Leftover(total, w, d))
  }

  /** The order in which the ledger serves the lines: by the fractions of its decimal quotients. */
  function LedgerOrder(total: nat, w: seq<nat>): (order: seq<nat>)
    requires Sum(w) > 0
    ensures |order| == |w| && Within(order, |w|)
  {
    Order(Fractions(total, w, Sum(w)), |w|)
  }

  /** The ledger's split of total over weights that do not all vanish. */
  function Split(total: nat, w: seq<nat>): (shares: seq<int>)
    requires Sum(w) > 0
    ensures |shares| == |w|
  {
    SplitBy(total, w, LedgerOrder(total, w))
  }

  /** The split the ledger makes of any amount over any whole weights. */
  function Allocate(total: int, weights: seq<int>): (shares: seq<int>)
    ensures |shares| == |weights|
  {
    if |weights| == 0 then []
    else
      UsableWeights(weights);
      Split(Amount(total), Usable(weights))
  }

  // --------------------------------------------------------- leftover arithmetic

  lemma {:induction false} OnesSum(n: nat)
    ensures Sum(seq(n, i => 1)) == n
  {
    if n > 0 {
      OnesSum(n - 1);
      assert seq(n, i => 1)[..n - 1] == seq(n - 1, i => 1);
    }
  }

  lemma UsableWeights(weights: seq<int>)
    requires |weights| > 0
    ensures |Usable(weights)| == |weights| && Sum(Usable(weights)) > 0
  {
    OnesSum(|weights|);
  }

  lemma QuotaParts(total: nat, w: nat, d: nat)
    requires d > 0
    ensures total * w == total * w / d * d + total * w % d
    ensures 0 <= total * w % d < d && total * w / d >= 0
  {
    var x := total * w;
    assert x == x / d * d + x % d;
  }

  /** Whole parts and rests together make up the total, in units of 1/d. */
  lemma {:induction false} QuotaSums(total: nat, w: seq<nat>, d: nat)
    requires d > 0
    ensures d * Sum(Floors(total, w, d)) + Sum(Rests(total, w, d)) == total * Sum(w)
  {
    var n := |w|;
    if n > 0 {
      var w' := w[..n - 1];
      QuotaSums(total, w', d);
      assert Floors(total, w, d)[..n - 1] == Floors(total, w', d);
      assert Rests(total, w, d)[..n - 1] == Rests(total, w', d);
      QuotaParts(total, w[n - 1], d);
      Distribute(d, Sum(Floors(total, w', d)), total * w[n - 1] / d);
      Distribute(total, Sum(w'), w[n - 1]);
    }
  }

  lemma Distribute(a: int, b: int, c: int)
    ensures a * (b + c) == a * b + a * c
  {
  }

  /** Rests that vanish outside s sum to at most |s| times the largest possible rest. */
  lemma {:induction false} RestsBound(rests: seq<nat>, d: nat, s: set<nat>)
    requires d > 0
    requires forall i :: 0 <= i < |rests| ==> rests[i] < d && (rests[i] != 0 ==> i in s)
    ensures 0 <= Sum(rests) <= |s| * (d - 1)
    decreases |rests|
  {
    var n := |rests|;
    if n > 0 {
      if n - 1 in s {
        RestsBound(rests[..n - 1], d, s - {n - 1});
        OneMore(|s| - 1, |s|, d - 1);
      } else {
        RestsBound(rests[..n - 1], d, s);
      }
    } else {
      ProductOrdered(0, |s|, d - 1);
    }
  }

  /** Were at most k lines to have a rest, fewer than k units would be left, unless none is. */
  lemma LeftoverBelow(total: nat, w: seq<nat>, d: nat, s: set<nat>)
    requires d > 0 && d == Sum(w)
    requires forall i :: 0 <= i < |w| ==> (total * w[i] % d != 0 ==> i in s)
    ensures 0 <= Leftover(total, w, d)
    ensures Leftover(total, w, d) == 0 || Leftover(total, w, d) < |s|
  {
    var rests := Rests(total, w, d);
    var r := Leftover(total, w, d);
    QuotaSums(total, w, d);
    Distribute(d, Sum(Floors(total, w, d)), r);
    assert total * d == d * total;
    assert Sum(rests) == d * r;
    RestsBound(rests, d, s);
    assert r * (d - 1) == d * r - r;
    assert r < 0 ==> d * r < 0;
    if r >= |s| {
      ProductOrdered(|s|, r, d - 1);
    }
  }

  lemma {:induction false} IndexSet(n: nat) returns (s: set<nat>)
    ensures |s| == n && forall i :: i in s <==> 0 <= i < n
  {
    if n == 0 {
      s := {};
    } else {
      s := IndexSet(n - 1);
      s := s + {n - 1};
    }
  }

  lemma LeftoverBounds(total: nat, w: seq<nat>, d: nat)
    requires d > 0 && d == Sum(w)
    ensures 0 <= Leftover(total, w, d) <= |w|
  {
    var s := IndexSet(|w|);
    LeftoverBelow(total, w, d, s);
  }

  // ----------------------------------------------------------- who is served first

  ghost predicate Ordered(keys: seq<real>, order: seq<nat>)
    requires Within(order, |keys|)
  {
    forall a, b :: 0 <= a < b < |order| ==> Before(keys, order[a], order[b])
  }

  lemma {:induction false} InsertOrdered(keys: seq<real>, order: seq<nat>, i: nat)
    requires i < |keys| && Within(order, |keys|) && Ordered(keys, order)
    requires forall k :: 0 <= k < |order| ==> order[k] < i
    ensures var out := Insert(keys, order, i);
            && Within(out, |keys|) && Ordered(keys, out)
            && (forall k :: k in out <==> k in order || k == i)
  {
    InsertKeeps(keys, order, i);
    var n := |order|;
    if n > 0 {
      var front, last := order[..n - 1], order[n - 1];
      assert order == front + [last];
      if keys[last] < keys[i] {
        InsertKeeps(keys, front, i);
        InsertOrdered(keys, front, i);
        LastStaysLast(keys, Insert(keys, front, i), front, last, i);
      } else {
        LastStaysLast(keys, order, order, i, last);
      }
    }
  }

  /** What comes before every element of an ordered list can be put behind it. */
  lemma LastStaysLast(keys: seq<real>, inner: seq<nat>, front: seq<nat>, last: nat, i: nat)
    requires i < |keys| && last < |keys| && Within(inner, |keys|) && Within(front, |keys|) && Ordered(keys, inner)
    requires forall k :: k in inner ==> k in front || k == i
    requires Before(keys, i, last) && forall a :: 0 <= a < |front| ==> Before(keys, front[a], last) || front[a] == i
    ensures Ordered(keys, inner + [last])
  {
    forall a | 0 <= a < |inner| ensures Before(keys, inner[a], last) {
      assert inner[a] in inner;
      if inner[a] != i {
        var k :| 0 <= k < |front| && front[k] == inner[a];
      }
    }
  }

  /** The order lists every line once, by descending fraction, equal fractions by position. */
  lemma {:induction false} OrderProperties(keys: seq<real>, n: nat)
    requires n <= |keys|
    ensures Ordered(keys, Order(keys, n))
    ensures forall k: nat :: k in Order(keys, n) <==> k < n
  {
    if n > 0 {
      OrderProperties(keys, n - 1);
      InsertOrdered(keys, Order(keys, n - 1), n - 1);
    }
  }

  /** By the exact quotas line j must come before line i: a larger rest, or the same weight earlier. */
  predicate Precedes(total: nat, w: seq<nat>, j: nat, i: nat)
    requires Sum(w) > 0 && j < |w| && i < |w|
  {
    total * w[j] % Sum(w) > total * w[i] % Sum(w) || (w[j] == w[i] && j < i)
  }

  /**
    An order that lists every line once and descends by exact rest, lines of one
    weight by position. Equal rests of different weights may come either way.
  */
  ghost predicate Fair(total: nat, w: seq<nat>, order: seq<nat>)
    requires Sum(w) > 0
  {
    && |order| == |w| && Within(order, |w|)
    && (forall k: nat :: k < |w| ==> k in order)
    && (forall a, b :: 0 <= a < b < |order| ==> order[a] != order[b] && !Precedes(total, w, order[b], order[a]))
  }

  lemma {:induction false} BumpAt(shares: seq<int>, order: seq<nat>, r: nat)
    requires r <= |order| && Within(order, |shares|)
    requires forall a, b :: 0 <= a < b < |order| ==> order[a] != order[b]
    ensures forall i :: 0 <= i < |shares| ==>
              Bump(shares, order, r)[i] == shares[i] + (if i in order[..r] then 1 else 0)
    ensures Sum(Bump(shares, order, r)) == Sum(shares) + r
  {
    if r > 0 {
      BumpAt(shares, order, r - 1);
      assert order[..r] == order[..r - 1] + [order[r - 1]];
      SumUpdate(Id, Bump(shares, order, r - 1), order[r - 1], Bump(shares, order, r - 1)[order[r - 1]] + 1);
    }
  }

  /** Line i receives one of the leftover units. */
  ghost predicate Served(total: nat, w: seq<nat>, order: seq<nat>, i: nat)
    requires Sum(w) > 0 && |order| == |w|
  {
    var d: nat := Sum(w);
    LeftoverBounds(total, w, d);
    i in order[..Leftover(total, w, d)]
  }

  // ------------------------------------------------------------ what the split promises

  /**
    No unit is lost or invented, and every line gets the floor of its quota or
    one unit more.
  */
  lemma SplitConserves(total: nat, w: seq<nat>, order: seq<nat>)
    requires Sum(w) > 0 && |order| == |w| && Within(order, |w|) && Distinct(order)
    ensures Sum(SplitBy(total, w, order)) == total
    ensures forall i :: 0 <= i < |w| ==>
              SplitBy(total, w, order)[i] == total * w[i] / Sum(w) + (if Served(total, w, order, i) then 1 else 0)
  {
    var d: nat := Sum(w);
    LeftoverBounds(total, w, d);
    BumpAt(Floors(total, w, d), order, Leftover(total, w, d));
  }

  lemma AheadInOrder(total: nat, w: seq<nat>, order: seq<nat>, b: nat, a: nat)
    requires Sum(w) > 0 && Fair(total, w, order)
    requires a < |order| && b < |order| && Precedes(total, w, order[b], order[a])
    ensures b < a
  {
    assert a != b;
  }

  /** Being served is inherited by every line that must come before. */
  lemma ServedInOrder(total: nat, w: seq<nat>, order: seq<nat>, j: nat, i: nat)
    requires Sum(w) > 0 && Fair(total, w, order) && i < |w| && j < |w|
    requires Precedes(total, w, j, i) && Served(total, w, order, i)
    ensures Served(total, w, order, j)
  {
    var d: nat := Sum(w);
    LeftoverBounds(total, w, d);
    var a :| 0 <= a < Leftover(total, w, d) && order[a] == i;
    assert j in order;
    var b :| 0 <= b < |order| && order[b] == j;
    AheadInOrder(total, w, order, b, a);
    assert order[..Leftover(total, w, d)][b] == j;
  }

  /** A line whose quota is whole, such as one of zero weight, gets exactly its quota. */
  lemma ExactQuotaNotServed(total: nat, w: seq<nat>, order: seq<nat>, i: nat)
    requires Sum(w) > 0 && Fair(total, w, order) && i < |w|
    requires total * w[i] % Sum(w) == 0
    ensures !Served(total, w, order, i)
  {
    var d: nat := Sum(w);
    LeftoverBounds(total, w, d);
    if Served(total, w, order, i) {
      var a :| 0 <= a < Leftover(total, w, d) && order[a] == i;
      var ahead := set k | 0 <= k < a :: order[k];
      forall k | 0 <= k < |w| && total * w[k] % d != 0
        ensures k in ahead
      {
        assert k in order;
        var b :| 0 <= b < |order| && order[b] == k;
        AheadInOrder(total, w, order, b, a);
      }
      AheadSize(order, a);
      LeftoverBelow(total, w, d, ahead);
    }
  }

  lemma {:induction false} AheadSize(order: seq<nat>, a: nat)
    requires a <= |order|
    ensures |set k | 0 <= k < a :: order[k]| <= a
  {
    if a > 0 {
      AheadSize(order, a - 1);
      assert (set k | 0 <= k < a :: order[k]) == (set k | 0 <= k < a - 1 :: order[k]) + {order[a - 1]};
    }
  }

  /** A larger weight never gets a smaller share. */
  lemma LargerWeightLargerShare(total: nat, w: seq<nat>, order: seq<nat>, i: nat, j: nat)
    requires Sum(w) > 0 && Fair(total, w, order) && i < |w| && j < |w| && w[i] > w[j]
    ensures SplitBy(total, w, order)[i] >= SplitBy(total, w, order)[j]
  {
    SplitConserves(total, w, order);
    FloorsOrdered(total, w[j], w[i], Sum(w));
    if total * w[i] / Sum(w) == total * w[j] / Sum(w) && Served(total, w, order, j) {
      if total == 0 {
        ExactQuotaNotServed(total, w, order, j);
      } else {
        ServedInOrder(total, w, order, i, j);
      }
    }
  }

  /** Quotas order as weights do; within one whole part the larger weight has the larger rest. */
  lemma FloorsOrdered(total: nat, low: nat, high: nat, d: nat)
    requires low < high && d > 0
    ensures total * low / d <= total * high / d
    ensures total > 0 && total * low / d == total * high / d ==> total * low % d < total * high % d
  {
    assert total * low <= total * high by { ProductOrdered(low, high, total); }
    DivOrdered(total * low, total * high, d);
    QuotaParts(total, low, d);
    QuotaParts(total, high, d);
    assert total * high == total * low + total * (high - low);
    if total > 0 {
      ProductOrdered(1, high - low, total);
    }
  }

  lemma DivOrdered(a: nat, b: nat, d: nat)
    requires a <= b && d > 0
    ensures a / d <= b / d
  {
    if a / d > b / d {
      ProductOrdered(b / d + 1, a / d, d);
    }
  }

  /** Equal weights differ by at most a unit, and the earlier line is favoured. */
  lemma TiesFavourTheEarlier(total: nat, w: seq<nat>, order: seq<nat>, i: nat, j: nat)
    requires Sum(w) > 0 && Fair(total, w, order) && i < j < |w| && w[i] == w[j]
    ensures var shares := SplitBy(total, w, order); shares[j] <= shares[i] <= shares[j] + 1
  {
    SplitConserves(total, w, order);
    if Served(total, w, order, j) {
      ServedInOrder(total, w, order, i, j);
    }
  }

  // ------------------------------------------------------------------- optimality

  /** How far x units are from the quota q/d, in units of 1/d. */
  function Deviation(q: int, d: int, x: int): int
  {
    if x * d >= q then x * d - q else q - x * d
  }

  function Deviations(total: nat, w: seq<nat>, d: nat, shares: seq<int>): seq<int>
    requires |shares| == |w|
  {
    seq(|w|, i requires 0 <= i < |w| => Deviation(total * w[i], d, shares[i]))
  }

  /** The total distance of a split from the exact quotas, in units of 1/d. */
  function TotalDeviation(total: nat, w: seq<nat>, shares: seq<int>): int
    requires |shares| == |w|
  {
    Sum(Deviations(total, w, if Sum(w) < 0 then 0 else Sum(w), shares))
  }

  /**
    With a price of d - 2 * rho on every unit, no whole number beats the floor
    of a quota whose rest is at most rho, nor its successor once the rest is at
    least rho.
  */
  lemma LineOptimal(f: nat, r: nat, d: nat, rho: nat, up: bool, x: int)
    requires r < d && rho < d && (if up then rho <= r else r <= rho)
    ensures var q, price, s := f * d + r, d - 2 * rho, if up then f + 1 else f;
            Deviation(q, d, s) - price * s <= Deviation(q, d, x) - price * x
  {
    var k := x - f;
    assert x * d == f * d + k * d && (f + 1) * d == f * d + d;
    assert (d - 2 * rho) * x == (d - 2 * rho) * f + (d - 2 * rho) * k;
    assert (d - 2 * rho) * (f + 1) == (d - 2 * rho) * f + (d - 2 * rho);
    assert (d - 2 * rho) * k == d * k - 2 * (rho * k);
    assert k * d == d * k;
    if k >= 1 {
      ProductOrdered(1, k, rho);
      assert rho * k >= rho;
      assert d * k >= d by { ProductOrdered(1, k, d); }
    } else {
      ProductOrdered(0, -k, d - rho);
      assert (-k) * (d - rho) == -(d * k) + rho * k;
    }
  }

  lemma {:induction false} SumPriced(a: seq<int>, b: seq<int>, c: seq<int>, price: int)
    requires |a| == |b| == |c|
    requires forall i :: 0 <= i < |a| ==> c[i] == a[i] - price * b[i]
    ensures Sum(c) == Sum(a) - price * Sum(b)
  {
    var n := |a|;
    if n > 0 {
      SumPriced(a[..n - 1], b[..n - 1], c[..n - 1], price);
      Distribute(price, Sum(b[..n - 1]), b[n - 1]);
    }
  }

  /** A rest that separates the lines that are served from those that are not. */
  lemma Threshold(total: nat, w: seq<nat>, order: seq<nat>) returns (rho: nat)
    requires Sum(w) > 0 && Fair(total, w, order)
    ensures rho < Sum(w)
    ensures forall i :: 0 <= i < |w| ==>
              if Served(total, w, order, i) then rho <= total * w[i] % Sum(w)
              else total * w[i] % Sum(w) <= rho
  {
    var d: nat := Sum(w);
    LeftoverBounds(total, w, d);
    var r: nat := Leftover(total, w, d);
    if r == 0 {
      rho := d - 1;
    } else {
      var edge := order[r - 1];
      rho := total * w[edge] % d;
      forall i | 0 <= i < |w|
        ensures if Served(total, w, order, i) then rho <= total * w[i] % d else total * w[i] % d <= rho
      {
        assert i in order;
        var a :| 0 <= a < |order| && order[a] == i;
        if a < r {
          assert order[..r][a] == i;
          assert a < r - 1 ==> !Precedes(total, w, edge, i);
        } else {
          assert !Precedes(total, w, i, edge);
          assert i !in order[..r];
        }
      }
    }
  }

  /** Among all whole splits of the total, one by a fair order is closest to the exact quotas. */
  lemma SplitMinimisesDeviation(total: nat, w: seq<nat>, order: seq<nat>, other: seq<int>)
    requires Sum(w) > 0 && Fair(total, w, order)
    requires |other| == |w| && Sum(other) == total
    ensures TotalDeviation(total, w, SplitBy(total, w, order)) <= TotalDeviation(total, w, other)
  {
    var d: nat := Sum(w);
    var shares := SplitBy(total, w, order);
    SplitConserves(total, w, order);
    var rho := Threshold(total, w, order);
    var price := d - 2 * rho;
    var best, rival := Deviations(total, w, d, shares), Deviations(total, w, d, other);
    var a := seq(|w|, i requires 0 <= i < |w| => best[i] - price * shares[i]);
    var b := seq(|w|, i requires 0 <= i < |w| => rival[i] - price * other[i]);
    forall i | 0 <= i < |w| ensures a[i] <= b[i] {
      QuotaParts(total, w[i], d);
      LineOptimal(total * w[i] / d, total * w[i] % d, d, rho, Served(total, w, order, i), other[i]);
    }
    SumPointwise(a, b);
    SumPriced(best, shares, a, price);
    SumPriced(rival, other, b, price);
  }

  // ---------------------------------------------- the ledger's order is a fair one

  /** Rounding to 28 digits is off by at most half a unit of the last one. */
  lemma HalfEvenError(x: nat, d: nat)
    requires d > 0
    ensures 2 * x - d <= 2 * (HalfEven(x, d) * d) <= 2 * x + d
    ensures HalfEven(x, d) >= x / d
  {
    var q, r := x / d, x % d;
    assert x == q * d + r;
    assert (q + 1) * d == q * d + d;
  }

  lemma {:induction false} ScaleReaches(n: nat, d: nat)
    requires n > 0 && d > 0
    ensures n * Scale(n, d) >= LEADING * d
    decreases LEADING * d - n
  {
    if n < LEADING * d {
      ScaleReaches(10 * n, d);
      var p := Scale(10 * n, d);
      assert n * (10 * p) == 10 * n * p;
    }
  }

  const TRILLION: nat := AMOUNT_MAX
  const FINE: nat := 1_000_000_000_000_000

  /** Quotients of at most a trillion keep at least 15 digits behind the point. */
  lemma ScaleIsFine(n: nat, d: nat)
    requires n > 0 && d > 0 && n <= TRILLION * d
    ensures Scale(n, d) >= FINE
  {
    ScaleReaches(n, d);
    var p := Scale(n, d);
    if p < FINE {
      ProductOrdered(n, TRILLION * d, p);
      ProductOrdered(p + 1, FINE, TRILLION * d);
    }
  }

  /**
    Within range a decimal quotient has the exact whole part, and its fraction is
    the exact rest r / d, give or take less than half a 1 / d.
  */
  lemma QuotientParts(n: nat, d: nat)
    requires 0 < d < FINE && n <= TRILLION * d
    ensures Whole(Divide(n, d)) == n / d
    ensures Near(Digits(Divide(n, d)), Divide(n, d).scale, n % d, d)
  {
    if n > 0 {
      ScaleIsFine(n, d);
      PartsAtScale(n, d, Scale(n, d));
    } else {
      DivisionIs(0, d, 0, 0);
    }
  }

  /** f / p is r / d to within half a 1 / p. */
  predicate Near(f: nat, p: nat, r: nat, d: nat)
  {
    p > 0 && 2 * (r * p) - d <= 2 * (f * d) <= 2 * (r * p) + d && (p <= d ==> f == r == 0)
  }

  lemma PartsAtScale(n: nat, d: nat, p: nat)
    requires 0 < d < p
    ensures HalfEven(n * p, d) / p == n / d
    ensures Near(HalfEven(n * p, d) % p, p, n % d, d)
  {
    HalfEvenError(n * p, d);
    PartsOf(n, d, p, HalfEven(n * p, d));
  }

  lemma PartsOf(n: nat, d: nat, p: nat, m: nat)
    requires 0 < d < p && n * p / d <= m
    requires 2 * (n * p) - d <= 2 * (m * d) <= 2 * (n * p) + d
    ensures m / p == n / d && Near(m % p, p, n % d, d)
  {
    ScaledSum(n, n / d, d, n % d, p);
    RestBelow(n % d, d, p);
    PartsFrom(d, p, m, n / d, n % d, n * p, n % d * p);
  }

  lemma PartsFrom(d: nat, p: nat, m: nat, q: nat, r: nat, np: nat, rp: nat)
    requires 0 < d < p && np / d <= m && rp == r * p && rp + p <= d * p && np == q * p * d + rp
    requires 2 * np - d <= 2 * (m * d) <= 2 * np + d
    ensures m / p == q && Near(m % p, p, r, d)
  {
    MantissaIs(d, p, m, q, np, rp);
    NearFrom(m % p, m, q * p, np, rp, d);
  }

  lemma MantissaIs(d: nat, p: nat, m: nat, q: nat, np: nat, rp: nat)
    requires 0 < d < p && np == q * p * d + rp && rp + p <= d * p && np / d <= m
    requires 2 * (m * d) <= 2 * np + d
    ensures m / p == q && m == q * p + m % p
  {
    DivisionShift(np, d, q * p, rp);
    MantissaBelow(d, p, m, q * p, np, rp);
    DivisionIs(m, p, q, m - q * p);
  }

  lemma NearFrom(f: nat, m: nat, whole: nat, np: nat, rp: nat, d: nat)
    requires m == whole + f && np == whole * d + rp
    requires 2 * np - d <= 2 * (m * d) <= 2 * np + d
    ensures 2 * rp - d <= 2 * (f * d) <= 2 * rp + d
  {
    Distribute(d, whole, f);
  }

  lemma RestBelow(r: nat, d: nat, p: nat)
    requires r < d
    ensures r * p + p <= d * p
  {
    ProductOrdered(r + 1, d, p);
    Distribute(p, r, 1);
  }

  lemma ScaledSum(n: nat, q: nat, d: nat, r: nat, p: nat)
    requires n == q * d + r
    ensures n * p == q * p * d + r * p
  {
    assert q * d * p == q * p * d;
  }

  lemma MantissaBelow(d: nat, p: nat, m: nat, whole: nat, np: nat, rp: nat)
    requires 0 < d < p && np == d * whole + rp && rp + p <= d * p && 2 * (d * m) <= 2 * np + d
    ensures m < whole + p
  {
    Distribute(d, whole, p);
    if m >= whole + p {
      ProductOrdered(whole + p, m, d);
    }
  }

  /** Fractions near to different rests compare as the rests do. */
  lemma NearRestsCompare(f: nat, p: nat, r: nat, g: nat, q: nat, s: nat, d: nat)
    requires 0 < d && Near(f, p, r, d) && Near(g, q, s, d) && r > s && (q > d || s == 0)
    ensures f * q > g * p
  {
    LargerRestAbove(f, p, r, s, q, d);
    RestBelowHalf(g, q, s, p, d);
    ProductReversed(f * q, g * p, d);
  }

  lemma LargerRestAbove(f: nat, p: nat, r: nat, s: nat, q: nat, d: nat)
    requires d < p && q > 0 && s < r && 2 * (r * p) - d <= 2 * (f * d)
    ensures 2 * (d * (f * q)) > 2 * (s * (p * q)) + p * q
  {
    LowerCross(f, p, r, q, d);
    OneMore(s, r, p * q);
    ProductBelow(d, p, q);
  }

  lemma OneMore(s: nat, r: nat, m: nat)
    requires s < r
    ensures s * m + m <= r * m
  {
    ProductOrdered(s + 1, r, m);
    Distribute(m, s, 1);
  }

  lemma RestBelowHalf(g: nat, q: nat, s: nat, p: nat, d: nat)
    requires Near(g, q, s, d) && (q > d || s == 0) && d < p
    ensures 2 * (d * (g * p)) < 2 * (s * (p * q)) + p * q
  {
    if q > d {
      UpperCross(g, q, s, p, d);
      ProductBelow(d, q, p);
      Commute(q, p);
    } else {
      ProductBelow(0, p, q);
      Vanish(g, p, d);
      Vanish(s, p * q, 1);
    }
  }

  lemma Commute(a: nat, b: nat)
    ensures a * b == b * a
  {
  }

  lemma Vanish(a: nat, b: nat, c: nat)
    requires a == 0
    ensures a * b == 0 && c * (a * b) == 0
  {
  }

  lemma LowerCross(f: nat, p: nat, r: nat, q: nat, d: nat)
    requires 2 * (r * p) - d <= 2 * (f * d)
    ensures 2 * (r * (p * q)) - d * q <= 2 * (d * (f * q))
  {
    TripleProduct(f, d, q);
    TripleProduct(r, p, q);
    var x, y := r * p, f * d;
    ProductOrdered(2 * x - d, 2 * y, q);
    assert (2 * x - d) * q == 2 * (x * q) - d * q && 2 * y * q == 2 * (y * q);
  }

  lemma UpperCross(g: nat, q: nat, s: nat, p: nat, d: nat)
    requires 2 * (g * d) <= 2 * (s * q) + d
    ensures 2 * (d * (g * p)) <= 2 * (s * (p * q)) + d * p
  {
    TripleProduct(g, d, p);
    TripleProduct(s, q, p);
    assert q * p == p * q;
    var x, y := s * q, g * d;
    ProductOrdered(2 * y, 2 * x + d, p);
    assert (2 * x + d) * p == 2 * (x * p) + d * p && 2 * y * p == 2 * (y * p);
  }

  lemma ProductBelow(d: nat, p: nat, q: nat)
    requires d < p && q > 0
    ensures d * q < p * q
  {
    ProductOrdered(d + 1, p, q);
    assert (d + 1) * q == d * q + q;
  }

  lemma ProductReversed(a: int, b: int, d: nat)
    requires d * a > d * b
    ensures a > b
  {
    if a <= b {
      ProductOrdered(a, b, d);
    }
  }

  lemma TripleProduct(a: nat, b: nat, c: nat)
    ensures a * b * c == a * (b * c) == b * (a * c)
  {
  }

  lemma FractionsCompare(f: nat, p: nat, g: nat, q: nat)
    requires p > 0 && q > 0 && f * q > g * p
    ensures f as real / p as real > g as real / q as real
  {
    var x, y := f as real / p as real, g as real / q as real;
    assert x * p as real == f as real && y * q as real == g as real;
    if x <= y {
      var u, v := p as real, q as real;
      RealOrdered(x, y, u * v);
      assert x * (u * v) == x * u * v && y * (u * v) == y * v * u;
      RealProduct(f, q);
      RealProduct(g, p);
    }
  }

  lemma RealProduct(a: int, b: int)
    ensures (a * b) as real == a as real * b as real
  {
  }

  lemma RealOrdered(a: real, b: real, c: real)
    requires a <= b && c >= 0.0
    ensures a * c <= b * c
  {
    assert (b - a) * c >= 0.0;
  }

  /** Lines with a larger exact rest leave a larger fraction, and lines of one weight the same. */
  lemma FractionsFollowRests(total: nat, w: seq<nat>, j: nat, i: nat)
    requires 0 < Sum(w) < FINE && total <= TRILLION && j < |w| && i < |w|
    requires Precedes(total, w, j, i)
    ensures Before(Fractions(total, w, Sum(w)), j, i)
  {
    var d: nat := Sum(w);
    LineWithin(total, w, i);
    LineWithin(total, w, j);
    if total * w[j] % d > total * w[i] % d {
      LargerRestLargerFraction(total * w[j], total * w[i], d);
    }
  }

  lemma LargerRestLargerFraction(n: nat, m: nat, d: nat)
    requires 0 < d < FINE && n <= TRILLION * d && m <= TRILLION * d && n % d > m % d
    ensures Fraction(Divide(n, d)) > Fraction(Divide(m, d))
  {
    QuotientParts(n, d);
    QuotientParts(m, d);
    if m > 0 {
      ScaleIsFine(m, d);
    } else {
      DivisionIs(0, d, 0, 0);
    }
    var a, b := Divide(n, d), Divide(m, d);
    NearRestsCompare(Digits(a), a.scale, n % d, Digits(b), b.scale, m % d, d);
    FractionsCompare(Digits(a), a.scale, Digits(b), b.scale);
  }

  lemma {:induction false} SumIsNat(w: seq<nat>)
    ensures Sum(w) >= 0
  {
    if |w| > 0 {
      SumIsNat(w[..|w| - 1]);
    }
  }

  lemma {:induction false} WeightWithin(w: seq<nat>, i: nat)
    requires i < |w|
    ensures w[i] <= Sum(w)
  {
    SumIsNat(w[..|w| - 1]);
    if i < |w| - 1 {
      WeightWithin(w[..|w| - 1], i);
    }
  }

  lemma QuotaWithin(total: nat, weight: nat, d: nat)
    requires total <= TRILLION && weight <= d
    ensures total * weight <= TRILLION * d
  {
    ProductOrdered(total, TRILLION, weight);
    ProductOrdered(weight, d, TRILLION);
  }

  lemma LineWithin(total: nat, w: seq<nat>, i: nat)
    requires total <= TRILLION && i < |w|
    ensures Sum(w) >= 0 && total * w[i] <= TRILLION * Sum(w)
  {
    SumIsNat(w);
    WeightWithin(w, i);
    QuotaWithin(total, w[i], Sum(w));
  }

  /**
    Within the ledger's range the order by decimal fractions is a fair one, so all
    that holds of fair orders holds of the ledger's split.
  */
  lemma LedgerOrderIsFair(total: nat, w: seq<nat>)
    requires 0 < Sum(w) < FINE && total <= TRILLION
    ensures Fair(total, w, LedgerOrder(total, w))
  {
    var keys := Fractions(total, w, Sum(w));
    var order := LedgerOrder(total, w);
    OrderProperties(keys, |w|);
    forall a, b | 0 <= a < b < |order|
      ensures order[a] != order[b] && !Precedes(total, w, order[b], order[a])
    {
      assert Before(keys, order[a], order[b]);
      if Precedes(total, w, order[b], order[a]) {
        FractionsFollowRests(total, w, order[b], order[a]);
      }
    }
  }

  /** Lines are served by position, if and only if the earlier one leaves no smaller a fraction. */
  lemma TieByFractionIff(total: nat, w: seq<nat>, i: nat, j: nat, n: nat, m: nat, d: nat, a: nat, b: nat)
    requires i < j < |w| && Sum(w) == d > 0 && n == total * w[i] && m == total * w[j]
    requires a < |w| && b < |w| && LedgerOrder(total, w)[a] == i && LedgerOrder(total, w)[b] == j
    ensures a < b <==> Fraction(Divide(n, d)) >= Fraction(Divide(m, d))
  {
    var keys := Fractions(total, w, d);
    assert keys[i] == Fraction(Divide(n, d)) && keys[j] == Fraction(Divide(m, d));
    OrderProperties(keys, |w|);
    if a < b {
      assert Before(keys, i, j);
    } else {
      assert a != b;
      assert Before(keys, j, i);
    }
  }

  /** The rest r / d rounded at scale p is no smaller than rounded at scale q. */
  predicate NoSmaller(r: nat, d: nat, p: nat, q: nat)
    requires d > 0
  {
    HalfEven(r * p, d) * q >= HalfEven(r * q, d) * p
  }

  /**
    Of two quotas n / d and m / d with equal rests, the rest rounded to as many
    digits as the first quotient keeps behind its point is no smaller than
    rounded to as many as the second keeps.
  */
  predicate KeepsNoLess(n: nat, m: nat, d: nat)
    requires d > 0
  {
    NoSmaller(n % d, d, Divide(n, d).scale, Divide(m, d).scale)
  }

  /**
    Exactly when lines i and j whose quotas n / d and m / d have equal rests are
    served by position: if and only if the digits of the earlier quotient keep no
    less of the rest than those of the later one.
  */
  lemma TieByPositionIff(total: nat, w: seq<nat>, i: nat, j: nat, n: nat, m: nat, d: nat, a: nat, b: nat)
    requires total <= TRILLION && i < j < |w| && n == total * w[i] && m == total * w[j]
    requires 0 < Sum(w) == d < FINE && n % d == m % d
    requires a < |w| && b < |w| && LedgerOrder(total, w)[a] == i && LedgerOrder(total, w)[b] == j
    ensures a < b <==> KeepsNoLess(n, m, d)
  {
    TieByFractionIff(total, w, i, j, n, m, d, a, b);
    LineWithin(total, w, i);
    LineWithin(total, w, j);
    EqualRestsCompare(n, m, d);
  }

  lemma EqualRestsCompare(n: nat, m: nat, d: nat)
    requires 0 < d < FINE && n <= TRILLION * d && m <= TRILLION * d && n % d == m % d
    ensures Fraction(Divide(n, d)) >= Fraction(Divide(m, d)) <==> KeepsNoLess(n, m, d)
  {
    var r, p, q := n % d, Divide(n, d).scale, Divide(m, d).scale;
    FractionOfRest(n, d);
    FractionOfRest(m, d);
    FractionsCompareIff(HalfEven(r * p, d), p, HalfEven(r * q, d), q);
  }

  /** The fraction that is left is the rest rounded to the digits of the quotient. */
  lemma FractionOfRest(n: nat, d: nat)
    requires 0 < d < FINE && n <= TRILLION * d
    ensures Fraction(Divide(n, d)) == HalfEven(n % d * Divide(n, d).scale, d) as real / Divide(n, d).scale as real
  {
    if n == 0 {
      DivisionIs(0, d, 0, 0);
    } else {
      ScaleIsFine(n, d);
      DigitsFromRest(n, d);
      RestHasNoWhole(n % d, d, Scale(n, d));
    }
  }

  lemma RestHasNoWhole(r: nat, d: nat, p: nat)
    requires r < d < p
    ensures HalfEven(r * p, d) % p == HalfEven(r * p, d)
  {
    PartsAtScale(r, d, p);
    DivisionIs(r, d, 0, r);
    BelowWhenNoWhole(HalfEven(r * p, d), p);
  }

  lemma BelowWhenNoWhole(x: nat, p: nat)
    requires p > 0 && x / p == 0
    ensures x % p == x
  {
  }

  lemma FractionsCompareIff(f: nat, p: nat, g: nat, q: nat)
    requires p > 0 && q > 0
    ensures f as real / p as real >= g as real / q as real <==> f * q >= g * p
  {
    if f * q < g * p {
      FractionsCompare(g, q, f, p);
    } else if f * q > g * p {
      FractionsCompare(f, p, g, q);
    } else {
      EqualFractions(f, p, g, q);
    }
  }

  lemma EqualFractions(f: nat, p: nat, g: nat, q: nat)
    requires p > 0 && q > 0 && f * q == g * p
    ensures f as real / p as real == g as real / q as real
  {
    RealProduct(f, q);
    RealProduct(g, p);
    var u, v := p as real, q as real;
    assert f as real / u * (u * v) == f as real * v;
    assert g as real / v * (u * v) == g as real * u;
    SameFactor(f as real / u, g as real / v, u * v);
  }

  lemma SameFactor(x: real, y: real, c: real)
    requires c > 0.0 && x * c == y * c
    ensures x == y
  {
    assert (x - y) * c == 0.0;
  }

  /** Equal rests do leave equal fractions when the quotas have equally many digits. */
  lemma SameScaleSameFraction(n: nat, m: nat, d: nat)
    requires d > 0 && 0 < n < LEADING * d && 0 < m && n % d == m % d && Scale(n, d) == Scale(m, d)
    ensures Fraction(Divide(n, d)) == Fraction(Divide(m, d))
  {
    DigitsFromRest(n, d);
    DigitsFromRest(m, d);
  }

  lemma DigitsFromRest(n: nat, d: nat)
    requires d > 0 && 0 < n && Scale(n, d) > 1
    ensures Digits(Divide(n, d)) == HalfEven(n % d * Scale(n, d), d) % Scale(n, d)
  {
    RestDecidesFraction(n, d, Scale(n, d));
  }

  lemma RestDecidesFraction(n: nat, d: nat, p: nat)
    requires d > 0 && p > 0 && p % 2 == 0
    ensures HalfEven(n * p, d) % p == HalfEven(n % d * p, d) % p
  {
    var q, r := n / d, n % d;
    var x := r * p;
    assert n == q * d + r;
    ScaledSum(n, q, d, r, p);
    EvenTimes(q, p);
    HalfEvenShift(n * p, d, q * p, x);
    ModuloShift(HalfEven(x, d), q, p);
  }

  lemma HalfEvenShift(n: nat, d: nat, whole: nat, x: nat)
    requires d > 0 && n == whole * d + x && whole % 2 == 0
    ensures HalfEven(n, d) == whole + HalfEven(x, d)
  {
    DivisionShift(n, d, whole, x);
  }

  lemma DivisionShift(n: nat, d: nat, whole: nat, x: nat)
    requires d > 0 && n == whole * d + x
    ensures n / d == whole + x / d && n % d == x % d
  {
    var h := x / d;
    assert (whole + h) * d == whole * d + h * d;
    DivisionIs(n, d, whole + h, x % d);
  }

  lemma EvenTimes(q: nat, p: nat)
    requires p % 2 == 0
    ensures q * p % 2 == 0
  {
    var h := p / 2;
    assert q * p == 2 * (q * h);
  }

  lemma ModuloShift(x: nat, q: nat, p: nat)
    requires p > 0
    ensures (q * p + x) % p == x % p
  {
    var h := x / p;
    assert q * p + x == (q + h) * p + x % p;
    DivisionIs(q * p + x, p, q + h, x % p);
  }

  /** The scale is the first power of ten that yields the digits. */
  lemma {:induction false} ScaleIs(n: nat, d: nat, k: nat)
    requires n > 0 && d > 0 && n * Power10(k) >= LEADING * d
    requires k > 0 ==> n * Power10(k - 1) < LEADING * d
    ensures Scale(n, d) == Power10(k)
    decreases k
  {
    if k > 0 {
      assert n * Power10(k) == 10 * n * Power10(k - 1);
      PowerGrows(n, k - 1);
      if k > 1 {
        assert n * Power10(k - 1) == 10 * n * Power10(k - 2);
      }
      ScaleIs(10 * n, d, k - 1);
    }
  }

  function Power10(k: nat): (p: nat)
    ensures p > 0
  {
    if k == 0 then 1 else 10 * Power10(k - 1)
  }

  lemma PowerGrows(n: nat, k: nat)
    ensures n <= n * Power10(k)
  {
    ProductOrdered(1, Power10(k), n);
  }

  /**
    Four units over weights 10, 1 and 1: all three rests are a third, but 3.33...
    keeps one digit fewer behind its point than 0.33..., so the first line comes last.
  */
  lemma TiesIgnorePosition()
    ensures Sum([10, 1, 1]) == 12
    ensures 4 * 10 % 12 == 4 * 1 % 12
    ensures LedgerOrder(4, [10, 1, 1]) == [1, 2, 0]
    ensures Split(4, [10, 1, 1]) == [3, 1, 0]
  {
    SumOfThree(10, 1, 1);
    OrderOfTies();
    FloorsOfTies();
    SumOfThree(3, 0, 0);
    OneLeftOver(4, [10, 1, 1], [1, 2, 0], 12);
  }

  lemma FloorsOfTies()
    ensures Floors(4, [10, 1, 1], 12) == [3, 0, 0]
  {
    assert WholeQuota(4, 10, 12) == 3 && WholeQuota(4, 1, 12) == 0;
  }

  lemma OneLeftOver(total: nat, w: seq<nat>, order: seq<nat>, d: nat)
    requires Sum(w) == d > 0 && |order| == |w| > 0 && Within(order, |w|) && Leftover(total, w, d) == 1
    ensures SplitBy(total, w, order) == Floors(total, w, d)[order[0] := Floors(total, w, d)[order[0]] + 1]
  {
    var floors := Floors(total, w, d);
    assert Bump(floors, order, 0) == floors;
  }

  lemma SumOfThree(a: int, b: int, c: int)
    ensures Sum([a, b, c]) == a + b + c
  {
    assert [a, b, c][..2] == [a, b];
    SumPair(Id, a, b);
  }

  lemma OrderOfTies()
    requires Sum([10, 1, 1]) == 12
    ensures LedgerOrder(4, [10, 1, 1]) == [1, 2, 0]
  {
    LongerFractionIsLarger();
    var keys := Fractions(4, [10, 1, 1], 12);
    assert keys[0] < keys[1] == keys[2];
    OrderOfThree(keys);
  }

  lemma OrderOfThree(keys: seq<real>)
    requires |keys| == 3 && keys[0] < keys[1] == keys[2]
    ensures Order(keys, 3) == [1, 2, 0]
  {
    assert Order(keys, 1) == [0];
    assert [0][..0] == [] && Insert(keys, [0], 1) == [1, 0];
    assert Order(keys, 2) == [1, 0];
    assert [1, 0][..1] == [1] && Insert(keys, [1, 0], 2) == [1, 2, 0];
  }

  lemma LongerFractionIsLarger()
    ensures Fraction(Divide(4, 12)) > Fraction(Divide(40, 12))
  {
    PowersOfTen();
    ScaleIs(40, 12, 27);
    ScaleIs(4, 12, 28);
    var high, low := Divide(4, 12), Divide(40, 12);
    FractionsCompare(Digits(high), high.scale, Digits(low), low.scale);
  }

  lemma {:induction false} PowerAdds(a: nat, b: nat)
    ensures Power10(a + b) == Power10(a) * Power10(b)
  {
    if a > 0 {
      PowerAdds(a - 1, b);
      TripleProduct(10, Power10(a - 1), Power10(b));
    }
  }

  lemma PowersOfTen()
    ensures Power10(26) == LEADING / 10 && Power10(27) == LEADING && Power10(28) == 10 * LEADING
  {
    assert Power10(2) == 100 && Power10(3) == 1000;
    PowerAdds(3, 3);
    PowerAdds(6, 6);
    PowerAdds(12, 12);
    PowerAdds(2, 24);
    assert Power10(24) == LEADING / 1000;
  }

  // ----------------------------------------------------------------------- scale

  /**
    The split depends only on the proportions: multiplying every weight by one
    positive number changes nothing. Decimal weights over a common denominator
    are therefore covered by whole ones.
  */
  lemma SplitScaleInvariant(total: nat, w: seq<nat>, k: nat)
    requires Sum(w) > 0 && k > 0
    ensures var scaled := seq(|w|, i requires 0 <= i < |w| => k * w[i]);
            Sum(scaled) == k * Sum(w) && k * Sum(w) > 0 && Split(total, scaled) == Split(total, w)
  {
    var d: nat := Sum(w);
    var scaled: seq<nat> := seq(|w|, i requires 0 <= i < |w| => k * w[i]);
    SumScaled(w, scaled, k);
    ProductOrdered(1, d, k);
    forall i | 0 <= i < |w|
      ensures Floors(total, scaled, k * d)[i] == Floors(total, w, d)[i]
      ensures Fractions(total, scaled, k * d)[i] == Fractions(total, w, d)[i]
    {
      LineScaled(total, w[i], d, k);
    }
    SplitDecided(total, scaled, w, k * d);
  }

  lemma LineScaled(total: nat, weight: nat, d: nat, k: nat)
    requires d > 0 && k > 0 && k * d > 0
    ensures total * (k * weight) / (k * d) == total * weight / d
    ensures Divide(total * (k * weight), k * d) == Divide(total * weight, d)
  {
    QuotaScaled(total, weight, d, k);
    DivideScaled(total * weight, d, k);
    TripleProduct(total, k, weight);
  }

  /** The whole parts and the fractions decide the split. */
  lemma SplitDecided(total: nat, v: seq<nat>, w: seq<nat>, d: nat)
    requires Sum(v) == d > 0 && Sum(w) > 0 && |v| == |w|
    requires forall i :: 0 <= i < |w| ==> Floors(total, v, d)[i] == Floors(total, w, Sum(w))[i]
    requires forall i :: 0 <= i < |w| ==> Fractions(total, v, d)[i] == Fractions(total, w, Sum(w))[i]
    ensures Split(total, v) == Split(total, w)
  {
    assert Floors(total, v, d) == Floors(total, w, Sum(w));
    assert Fractions(total, v, d) == Fractions(total, w, Sum(w));
  }

  lemma {:induction false} ScaleScaled(n: nat, d: nat, k: nat)
    requires n > 0 && d > 0 && k > 0 && k * n > 0 && k * d > 0
    ensures Scale(k * n, k * d) == Scale(n, d)
    decreases LEADING * d - n
  {
    if n >= LEADING * d {
      ProductOrdered(LEADING * d, n, k);
      assert LEADING * (k * d) == LEADING * d * k;
    } else {
      ProductOrdered(n + 1, LEADING * d, k);
      assert LEADING * (k * d) == LEADING * d * k && (n + 1) * k == n * k + k;
      assert 10 * (k * n) == k * (10 * n);
      ScaleScaled(10 * n, d, k);
    }
  }

  lemma DivideScaled(n: nat, d: nat, k: nat)
    requires d > 0 && k > 0 && k * d > 0
    ensures Divide(k * n, k * d) == Divide(n, d)
  {
    if n > 0 {
      ProductOrdered(1, n, k);
      ScaleScaled(n, d, k);
      var p := Scale(n, d);
      QuotaScaled(p, n, d, k);
      Commute(k * n, p);
      Commute(n, p);
      HalfEvenScaled(n * p, d, k * n * p, k * d, k);
    } else {
      assert k * n == 0;
    }
  }

  lemma HalfEvenScaled(x: nat, d: nat, y: nat, e: nat, k: nat)
    requires d > 0 && k > 0 && e == k * d && e > 0 && y / e == x / d && y % e == k * (x % d)
    ensures HalfEven(y, e) == HalfEven(x, d)
  {
    var r := x % d;
    ProductCompare(2 * r, d, k);
    ProductCompare(d, 2 * r, k);
    TripleProduct(2, k, r);
    TripleProduct(k, 2, r);
  }

  lemma ProductCompare(a: nat, b: nat, k: nat)
    requires k > 0
    ensures k * a < k * b <==> a < b
  {
    if a < b {
      OneMore(a, b, k);
    } else {
      ProductOrdered(b, a, k);
    }
  }

  lemma {:induction false} SumScaled(w: seq<nat>, scaled: seq<nat>, k: nat)
    requires |scaled| == |w| && forall i :: 0 <= i < |w| ==> scaled[i] == k * w[i]
    ensures Sum(scaled) == k * Sum(w)
  {
    var n := |w|;
    if n > 0 {
      SumScaled(w[..n - 1], scaled[..n - 1], k);
      Distribute(k, Sum(w[..n - 1]), w[n - 1]);
    }
  }

  lemma QuotaScaled(total: nat, w: nat, d: nat, k: nat)
    requires d > 0 && k > 0
    ensures k * d > 0
    ensures total * (k * w) / (k * d) == total * w / d
    ensures total * (k * w) % (k * d) == k * (total * w % d)
  {
    ProductOrdered(1, d, k);
    QuotaParts(total, w, d);
    var q, r, e := total * w / d, total * w % d, k * d;
    var x := total * (k * w);
    assert x == k * (total * w);
    Distribute(k, q * d, r);
    assert k * (q * d) == q * e;
    assert 0 <= k * r < e by {
      ProductOrdered(r + 1, d, k);
      assert (r + 1) * k == k * r + k;
    }
    assert x == q * e + k * r;
    DivisionIs(x, e, q, k * r);
  }

  lemma DivisionIs(x: nat, e: nat, q: nat, r: nat)
    requires e > 0 && x == q * e + r && r < e
    ensures x / e == q && x % e == r
  {
    var h := x / e;
    assert x == h * e + x % e;
    assert (h + 1) * e == h * e + e && (q + 1) * e == q * e + e;
    if h < q {
      ProductOrdered(h + 1, q, e);
    } else if h > q {
      ProductOrdered(q + 1, h, e);
    }
  }

  // ------------------------------------------------------------ the source's loops

  /** What the ledger splits over: at most sixty amounts. */
  predicate LedgerWeights(weights: seq<int>)
  {
    |weights| <= 60 && forall i :: 0 <= i < |weights| ==> weights[i] <= AMOUNT_MAX
  }

  lemma LedgerWeightsAreFine(weights: seq<int>)
    requires LedgerWeights(weights) && |weights| > 0
    ensures Sum(Usable(weights)) <= 60 * TRILLION < FINE
  {
    SumAtMost(Usable(weights));
  }

  lemma {:induction false} SumAtMost(w: seq<nat>)
    requires forall i :: 0 <= i < |w| ==> w[i] <= TRILLION
    ensures Sum(w) <= |w| * TRILLION
  {
    if |w| > 0 {
      SumAtMost(w[..|w| - 1]);
    }
  }

  method AllocateAmount(total: int, weights: seq<int>) returns (shares: seq<int>)
    requires LedgerWeights(weights)
    ensures shares == Allocate(total, weights)
  {
    var n := |weights|;
    if n == 0 {
      return [];
    }
    var whole := Amount(total);
    var raw: seq<nat> := [];
    for i := 0 to n
      invariant |raw| == i
      invariant forall k :: 0 <= k < i ==> raw[k] == Positive(weights[k])
    {
      raw := raw + [Positive(weights[i])];
    }
    assert raw == seq(n, i requires 0 <= i < n => Positive(weights[i]));
    if Sum(raw) <= 0 {
      raw := seq(n, i => 1);
    }
    UsableWeights(weights);
    LedgerWeightsAreFine(weights);
    shares := ShareOut(whole, raw);
  }

  lemma LineQuotient(total: nat, w: seq<nat>, i: nat)
    requires 0 < Sum(w) < FINE && total <= TRILLION && i < |w|
    ensures Whole(Divide(total * w[i], Sum(w))) == total * w[i] / Sum(w)
  {
    LineWithin(total, w, i);
    QuotientParts(total * w[i], Sum(w));
  }

  /** The decimal quotient of every line: its whole part and what is left of it. */
  method Quotients(total: nat, w: seq<nat>, d: nat) returns (shares: seq<int>, keys: seq<real>)
    requires 0 < Sum(w) == d < FINE && total <= TRILLION
    ensures shares == Floors(total, w, d) && keys == Fractions(total, w, d)
  {
    shares, keys := [], [];
    for i := 0 to |w|
      invariant |shares| == |keys| == i
      invariant shares == Floors(total, w, d)[..i] && keys == Fractions(total, w, d)[..i]
    {
      LineQuotient(total, w, i);
      var exact := Divide(total * w[i], d);
      shares := shares + [Whole(exact)];
      keys := keys + [Fraction(exact)];
    }
  }

  /** Whole parts first, then one unit each by descending fraction until the total is reached. */
  method ShareOut(total: nat, w: seq<nat>) returns (shares: seq<int>)
    requires 0 < Sum(w) < FINE && total <= TRILLION
    ensures shares == Split(total, w)
  {
    var d: nat := Sum(w);
    LeftoverBounds(total, w, d);
    var keys: seq<real>;
    shares, keys := Quotients(total, w, d);
    var remainder := total - Sum(shares);
    var order: seq<nat> := [];
    for i := 0 to |w|
      invariant order == Order(keys, i)
    {
      order := Insert(keys, order, i);
    }
    for k := 0 to remainder
      invariant shares == Bump(Floors(total, w, d), order, k)
    {
      var index := order[k];
      shares := shares[index := shares[index] + 1];
    }
  }

  /** Every split the ledger makes adds up to its amount, over any weights at all. */
  lemma UsableAsGiven(weights: seq<int>)
    requires Sum(weights) > 0 && forall k :: 0 <= k < |weights| ==> weights[k] >= 0
    ensures Usable(weights) == weights
  {
    var raw := seq(|weights|, i requires 0 <= i < |weights| => Positive(weights[i]));
    assert forall k :: 0 <= k < |weights| ==> raw[k] == weights[k];
    var same: seq<int> := raw;
    assert same == weights;
  }

  /** Over weights that are not negative and not all zero, a share is the floor of its quota or one more. */
  lemma AllocateNear(total: int, weights: seq<int>, i: nat)
    requires i < |weights| && Sum(weights) > 0 && forall k :: 0 <= k < |weights| ==> weights[k] >= 0
    ensures var quota := Amount(total) * weights[i] / Sum(weights); quota <= Allocate(total, weights)[i] <= quota + 1
  {
    UsableWeights(weights);
    UsableAsGiven(weights);
    var w := Usable(weights);
    OrderProperties(Fractions(Amount(total), w, Sum(w)), |w|);
    SplitConserves(Amount(total), w, LedgerOrder(Amount(total), w));
  }

  lemma AllocateConserves(total: int, weights: seq<int>)
    requires |weights| > 0
    ensures Sum(Allocate(total, weights)) == Amount(total)
    ensures forall i :: 0 <= i < |weights| ==> 0 <= Allocate(total, weights)[i] <= AMOUNT_MAX
  {
    UsableWeights(weights);
    var shares := Allocate(total, weights);
    var w := Usable(weights);
    OrderProperties(Fractions(Amount(total), w, Sum(w)), |w|);
    SplitConserves(Amount(total), w, LedgerOrder(Amount(total), w));
    forall i | 0 <= i < |weights| ensures shares[i] >= 0 {
      QuotaParts(Amount(total), w[i], Sum(w));
    }
    SumNonNegative(Id, shares);
    forall i | 0 <= i < |weights| ensures shares[i] <= AMOUNT_MAX {
      assert shares[i] in shares && Id(shares[i]) == shares[i];
    }
  }
}
