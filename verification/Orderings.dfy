/**
  Judging a list of lines shelf by shelf, each shelf by its first line alone. When
  does the order of the lines decide the verdict?
*/
module Orderings {
  import opened Sums
  import opened Cart

  /** Which lines share a shelf, which are on sale, and which fit their shelf. */
  datatype Judge = Judge(same: (Key, Key) -> bool, sold: Key -> bool, fits: Key -> bool)

  ghost predicate Sensible(j: Judge)
  {
    && (forall k :: j.same(k, k))
    && (forall k, l :: j.same(k, l) ==> j.same(l, k))
    && (forall k, l, m :: j.same(k, l) && j.same(l, m) ==> j.same(k, m))
    && (forall k :: j.fits(k) ==> j.sold(k))
  }

  /** The first line of its shelf. */
  predicate Leads(j: Judge, lines: seq<Line>, i: nat)
    requires i < |lines|
  {
    forall h :: 0 <= h < i ==> !j.same(lines[h].key, lines[i].key)
  }

  /** A line that is let by: on sale, and fitting if it is the one that decides its shelf. */
  predicate Clears(j: Judge, lines: seq<Line>, i: nat)
    requires i < |lines|
  {
    j.sold(lines[i].key) && (Leads(j, lines, i) ==> j.fits(lines[i].key))
  }

  /** The verdict: every line is on sale and the first line of every shelf fits. */
  predicate Passes(j: Judge, lines: seq<Line>)
  {
    forall i :: 0 <= i < |lines| ==> Clears(j, lines, i)
  }

  /** Some line on the shelf of this one fits. */
  predicate Vouched(j: Judge, lines: seq<Line>, key: Key)
  {
    exists h :: 0 <= h < |lines| && Vouches(j, lines[h].key, key)
  }

  predicate Vouches(j: Judge, k: Key, key: Key)
  {
    j.same(k, key) && j.fits(k)
  }

  /** All is on sale and every shelf has some line that fits. */
  predicate Admissible(j: Judge, lines: seq<Line>)
  {
    forall i :: 0 <= i < |lines| ==> j.sold(lines[i].key) && Vouched(j, lines, lines[i].key)
  }

  predicate AllFit(j: Judge, lines: seq<Line>)
  {
    forall i :: 0 <= i < |lines| ==> j.fits(lines[i].key)
  }

  /** No shelf has both a line that fits and one that does not, or something else is wrong. */
  predicate OrderFree(j: Judge, lines: seq<Line>)
  {
    Admissible(j, lines) ==> AllFit(j, lines)
  }

  ghost predicate Reordered(a: seq<Line>, b: seq<Line>)
  {
    multiset(a) == multiset(b)
  }

  // ------------------------------------------------------------------- grouped lines

  lemma PassesByFront(j: Judge, lines: seq<Line>)
    requires |lines| > 0
    ensures Passes(j, lines) <==> Passes(j, lines[..|lines| - 1]) && Clears(j, lines, |lines| - 1)
  {
    var front := lines[..|lines| - 1];
    forall i | 0 <= i < |front| ensures Clears(j, front, i) <==> Clears(j, lines, i) {
      assert forall h :: 0 <= h <= i ==> front[h] == lines[h];
    }
  }

  lemma SameKeysSameVerdict(j: Judge, a: seq<Line>, b: seq<Line>)
    requires |a| == |b| && forall i :: 0 <= i < |a| ==> a[i].key == b[i].key
    ensures Passes(j, a) <==> Passes(j, b)
  {
    forall i | 0 <= i < |a| ensures Clears(j, a, i) <==> Clears(j, b, i) {
      assert forall h :: 0 <= h <= i ==> a[h].key == b[h].key;
    }
  }

  /** Grouping lines of one key keeps the verdict: the first line of a shelf makes its first group. */
  lemma {:induction false} GroupedVerdict(j: Judge, lines: seq<Line>)
    requires Sensible(j)
    ensures Passes(j, Grouped(lines)) <==> Passes(j, lines)
  {
    if |lines| > 0 {
      var front, last := lines[..|lines| - 1], lines[|lines| - 1];
      var groups := Grouped(front);
      GroupedVerdict(j, front);
      PassesByFront(j, lines);
      if Position(groups, last.key) < |groups| {
        SameKeysSameVerdict(j, groups, AddTo(groups, last));
        assert HasKey(groups, last.key);
        GroupedKeys(front, last.key);
        RepeatClears(j, lines);
      } else {
        PassesByFront(j, groups + [last]);
        assert (groups + [last])[..|groups|] == groups;
        assert front + [last] == lines;
        LastClearsAlike(j, front, last);
      }
    }
  }

  /** A repeated line clears if everything before it does. */
  lemma RepeatClears(j: Judge, lines: seq<Line>)
    requires |lines| > 0 && Sensible(j) && HasKey(lines[..|lines| - 1], lines[|lines| - 1].key)
    ensures Passes(j, lines[..|lines| - 1]) ==> Clears(j, lines, |lines| - 1)
  {
    var front, last := lines[..|lines| - 1], lines[|lines| - 1];
    var i :| 0 <= i < |front| && front[i].key == last.key;
    assert lines[i].key == last.key && j.same(lines[i].key, last.key);
    if Passes(j, front) {
      assert Clears(j, front, i);
    }
  }

  lemma LastClearsAlike(j: Judge, front: seq<Line>, last: Line)
    ensures Clears(j, Grouped(front) + [last], |Grouped(front)|) <==> Clears(j, front + [last], |front|)
  {
    var groups := Grouped(front);
    var a, b := groups + [last], front + [last];
    if i :| 0 <= i < |groups| && j.same(a[i].key, last.key) {
      assert HasKey(groups, groups[i].key);
      GroupedKeys(front, groups[i].key);
      var h :| 0 <= h < |front| && front[h].key == groups[i].key;
      assert j.same(b[h].key, last.key);
    }
    if h :| 0 <= h < |front| && j.same(b[h].key, last.key) {
      assert HasKey(front, front[h].key);
      GroupedKeys(front, front[h].key);
      var i :| 0 <= i < |groups| && groups[i].key == front[h].key;
      assert j.same(a[i].key, last.key);
    }
  }

  // ------------------------------------------------------------------- reordered lines

  lemma {:induction false} LeaderOf(j: Judge, lines: seq<Line>, i: nat) returns (h: nat)
    requires i < |lines| && Sensible(j)
    ensures h <= i && Leads(j, lines, h) && j.same(lines[h].key, lines[i].key)
  {
    if Leads(j, lines, i) {
      h := i;
    } else {
      var k :| 0 <= k < i && j.same(lines[k].key, lines[i].key);
      h := LeaderOf(j, lines, k);
    }
  }

  lemma PassingIsBetween(j: Judge, lines: seq<Line>)
    requires Sensible(j)
    ensures Passes(j, lines) ==> Admissible(j, lines)
    ensures AllFit(j, lines) ==> Passes(j, lines)
  {
    if Passes(j, lines) {
      forall i | 0 <= i < |lines| ensures j.sold(lines[i].key) && Vouched(j, lines, lines[i].key) {
        var h := LeaderOf(j, lines, i);
        assert Clears(j, lines, i) && Clears(j, lines, h);
        assert Vouches(j, lines[h].key, lines[i].key);
      }
    }
  }

  lemma ReorderedIndex(a: seq<Line>, b: seq<Line>, i: nat) returns (h: nat)
    requires Reordered(a, b) && i < |b|
    ensures h < |a| && a[h] == b[i]
  {
    assert b[i] in multiset(b);
    assert b[i] in multiset(a);
    h :| 0 <= h < |a| && a[h] == b[i];
  }

  lemma ReorderedJudgedAlike(j: Judge, a: seq<Line>, b: seq<Line>)
    requires Reordered(a, b)
    ensures Admissible(j, a) ==> Admissible(j, b)
    ensures AllFit(j, a) ==> AllFit(j, b)
  {
    forall i | 0 <= i < |b|
      ensures AllFit(j, a) ==> j.fits(b[i].key)
      ensures Admissible(j, a) ==> j.sold(b[i].key) && Vouched(j, b, b[i].key)
    {
      var h := ReorderedIndex(a, b, i);
      if Admissible(j, a) {
        assert Vouched(j, a, a[h].key);
        var g :| 0 <= g < |a| && Vouches(j, a[g].key, a[h].key);
        var f := ReorderedIndex(b, a, g);
        assert Vouches(j, b[f].key, b[i].key);
      }
    }
  }

  /** The lines that fit, or those that do not. */
  function Those(j: Judge, lines: seq<Line>, fit: bool): seq<Line>
  {
    if |lines| == 0 then []
    else
      var n := |lines| - 1;
      Those(j, lines[..n], fit) + if j.fits(lines[n].key) == fit then [lines[n]] else []
  }

  lemma {:induction false} ThoseCover(j: Judge, lines: seq<Line>)
    ensures multiset(Those(j, lines, true)) + multiset(Those(j, lines, false)) == multiset(lines)
  {
    if |lines| > 0 {
      var front, last := lines[..|lines| - 1], lines[|lines| - 1];
      ThoseCover(j, front);
      assert lines == front + [last];
      OneMoreLine(Those(j, front, true), last);
      OneMoreLine(Those(j, front, false), last);
      OneMoreLine(front, last);
    }
  }

  lemma OneMoreLine(lines: seq<Line>, l: Line)
    ensures multiset(lines + [l]) == multiset(lines) + multiset{l}
    ensures multiset(lines + []) == multiset(lines)
  {
    assert lines + [] == lines;
  }

  lemma {:induction false} ThoseFit(j: Judge, lines: seq<Line>, l: Line)
    ensures l in Those(j, lines, true) <==> l in lines && j.fits(l.key)
  {
    if |lines| > 0 {
      var n := |lines| - 1;
      ThoseFit(j, lines[..n], l);
      assert l in lines <==> l in lines[..n] || l == lines[n] by {
        assert lines == lines[..n] + [lines[n]];
      }
    }
  }

  lemma ThoseAre(j: Judge, lines: seq<Line>)
    ensures Reordered(lines, Those(j, lines, true) + Those(j, lines, false))
    ensures forall l :: l in Those(j, lines, true) <==> l in lines && j.fits(l.key)
  {
    ThoseCover(j, lines);
    forall l ensures l in Those(j, lines, true) <==> l in lines && j.fits(l.key) {
      ThoseFit(j, lines, l);
    }
  }

  /** With the fitting lines put first, an admissible cart passes. */
  lemma FittingFirstPasses(j: Judge, lines: seq<Line>)
    requires Sensible(j) && Admissible(j, lines)
    ensures Passes(j, Those(j, lines, true) + Those(j, lines, false))
  {
    var fit := Those(j, lines, true);
    var b := fit + Those(j, lines, false);
    ThoseAre(j, lines);
    forall i | 0 <= i < |b| ensures Clears(j, b, i) {
      FittingFirstClears(j, lines, fit, b, i);
    }
  }

  lemma FittingFirstClears(j: Judge, lines: seq<Line>, fit: seq<Line>, b: seq<Line>, i: nat)
    requires Sensible(j) && Admissible(j, lines) && Reordered(lines, b) && i < |b|
    requires |fit| <= |b| && forall h :: 0 <= h < |fit| ==> b[h] == fit[h]
    requires forall l :: l in fit <==> l in lines && j.fits(l.key)
    ensures Clears(j, b, i)
  {
    var h := ReorderedIndex(lines, b, i);
    assert j.sold(lines[h].key) && Vouched(j, lines, lines[h].key);
    if i < |fit| {
      assert b[i] in fit;
    } else {
      var g :| 0 <= g < |lines| && Vouches(j, lines[g].key, lines[h].key);
      assert lines[g] in fit;
      var f :| 0 <= f < |fit| && fit[f] == lines[g];
      assert b[f] == fit[f] && j.same(b[f].key, b[i].key);
    }
  }

  /** Some order of the lines passes exactly if the cart is admissible. */
  lemma PassesInSomeOrderIff(j: Judge, lines: seq<Line>)
    requires Sensible(j)
    ensures (exists b :: Reordered(lines, b) && Passes(j, b)) <==> Admissible(j, lines)
  {
    if b: seq<Line> :| Reordered(lines, b) && Passes(j, b) {
      PassingIsBetween(j, b);
      ReorderedJudgedAlike(j, b, lines);
    }
    if Admissible(j, lines) {
      FittingFirstPasses(j, lines);
      ThoseAre(j, lines);
    }
  }

  /** Every order of the lines passes exactly if all of them fit. */
  lemma PassesInEveryOrderIff(j: Judge, lines: seq<Line>)
    requires Sensible(j)
    ensures (forall b :: Reordered(lines, b) ==> Passes(j, b)) <==> AllFit(j, lines)
  {
    if AllFit(j, lines) {
      forall b | Reordered(lines, b) ensures Passes(j, b) {
        ReorderedJudgedAlike(j, lines, b);
        PassingIsBetween(j, b);
      }
    } else {
      var i :| 0 <= i < |lines| && !j.fits(lines[i].key);
      var others := lines[..i] + lines[i + 1..];
      var b := [lines[i]] + others;
      WithoutIndex(lines, i);
      assert multiset(b) == multiset{lines[i]} + multiset(others);
      assert Reordered(lines, b);
      assert !Clears(j, b, 0);
    }
  }

  /** The order of the lines cannot matter exactly if no shelf mixes lines that fit and lines that do not. */
  lemma OrderCannotMatterIff(j: Judge, lines: seq<Line>)
    requires Sensible(j)
    ensures (forall b :: Reordered(lines, b) ==> (Passes(j, b) <==> Passes(j, lines))) <==> OrderFree(j, lines)
  {
    PassesInSomeOrderIff(j, lines);
    PassesInEveryOrderIff(j, lines);
    assert Reordered(lines, lines);
    if OrderFree(j, lines) {
      forall b | Reordered(lines, b) ensures Passes(j, b) <==> Passes(j, lines) {
        if Passes(j, b) || Passes(j, lines) {
          assert Admissible(j, lines);
        }
      }
    } else {
      var b :| Reordered(lines, b) && Passes(j, b);
      var c :| Reordered(lines, c) && !Passes(j, c);
    }
  }

  ghost predicate Agree(j: Judge, k: Judge)
  {
    && (forall a, b :: j.same(a, b) <==> k.same(a, b))
    && (forall a :: (j.sold(a) <==> k.sold(a)) && (j.fits(a) <==> k.fits(a)))
  }

  /** Judges that agree on the lines give the same verdict. */
  lemma JudgesAgree(j: Judge, k: Judge, lines: seq<Line>)
    requires Agree(j, k)
    ensures Passes(j, lines) <==> Passes(k, lines)
    ensures AllFit(j, lines) <==> AllFit(k, lines)
    ensures Admissible(j, lines) <==> Admissible(k, lines)
  {
    AgreeOneWay(j, k, lines);
    AgreeOneWay(k, j, lines);
  }

  lemma AgreeOneWay(j: Judge, k: Judge, lines: seq<Line>)
    requires Agree(j, k)
    ensures Passes(j, lines) ==> Passes(k, lines)
    ensures AllFit(j, lines) ==> AllFit(k, lines)
    ensures Admissible(j, lines) ==> Admissible(k, lines)
  {
    PassesAgree(j, k, lines);
    AdmissibleAgree(j, k, lines);
  }

  lemma PassesAgree(j: Judge, k: Judge, lines: seq<Line>)
    requires Agree(j, k)
    ensures Passes(j, lines) ==> Passes(k, lines)
  {
    forall i | 0 <= i < |lines| ensures Clears(j, lines, i) ==> Clears(k, lines, i) {
      JudgesAgreeAt(j, k, lines, i);
    }
  }

  lemma AdmissibleAgree(j: Judge, k: Judge, lines: seq<Line>)
    requires Agree(j, k)
    ensures Admissible(j, lines) ==> Admissible(k, lines)
  {
    forall i | 0 <= i < |lines| ensures Vouched(j, lines, lines[i].key) ==> Vouched(k, lines, lines[i].key) {
      VouchedAgree(j, k, lines, lines[i].key);
    }
  }

  lemma JudgesAgreeAt(j: Judge, k: Judge, lines: seq<Line>, i: nat)
    requires Agree(j, k) && i < |lines|
    ensures Clears(j, lines, i) <==> Clears(k, lines, i)
  {
  }

  lemma VouchedAgree(j: Judge, k: Judge, lines: seq<Line>, key: Key)
    requires Agree(j, k)
    ensures Vouched(j, lines, key) ==> Vouched(k, lines, key)
  {
    if h :| 0 <= h < |lines| && Vouches(j, lines[h].key, key) {
      assert Vouches(k, lines[h].key, key);
    }
  }
}
