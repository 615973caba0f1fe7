/** Sets of layers written as lists of closed intervals. */
module Intervals {
  import opened Sequences

  datatype Interval = Interval(lo: int, hi: int) {
    predicate Has(x: int) { lo <= x <= hi }
  }

  ghost predicate InRanges(rs: seq<Interval>, x: int) {
    exists i | 0 <= i < |rs| :: rs[i].Has(x)
  }

  ghost predicate Separated(rs: seq<Interval>) {
    && (forall i | 0 <= i < |rs| :: rs[i].lo <= rs[i].hi)
    && (forall i, j | 0 <= i < j < |rs| :: rs[i].hi + 1 < rs[j].lo)
  }

  /** The canonical form of the set `s`: non-empty intervals in increasing order, any two of
      them separated by a layer outside the set, together holding exactly `s`. */
  ghost predicate Canonical(rs: seq<Interval>, s: set<int>) {
    && Separated(rs)
    && forall x :: x in s <==> InRanges(rs, x)
  }

  /** If no interval of a cover holds two of the points, the cover has at least as many
      intervals as there are points. */
  lemma {:induction false} AsManyIntervalsAsPoints(points: seq<int>, cover: seq<Interval>)
    requires forall i | 0 <= i < |points| :: InRanges(cover, points[i])
    requires forall c, i, j | c in cover && 0 <= i < j < |points| :: !(c.Has(points[i]) && c.Has(points[j]))
    ensures |points| <= |cover|
  {
    if points != [] {
      var last := |points| - 1;
      var k :| 0 <= k < |cover| && cover[k].Has(points[last]);
      var rest := Without(cover, k);
      forall i | 0 <= i < last ensures InRanges(rest, points[..last][i]) {
        var m :| 0 <= m < |cover| && cover[m].Has(points[i]);
        assert m != k by { assert cover[k] in cover; }
        assert cover[m] in rest;
        var n :| 0 <= n < |rest| && rest[n] == cover[m];
        assert rest[n].Has(points[i]);
      }
      AsManyIntervalsAsPoints(points[..last], rest);
    }
  }

  /** The layer just past an interval of the canonical form is outside the set. */
  lemma PastTheEnd(rs: seq<Interval>, s: set<int>, i: nat)
    requires Canonical(rs, s) && i < |rs|
    ensures rs[i].hi + 1 !in s
    ensures rs[i].lo in s && rs[i].hi in s
  {
    assert rs[i].Has(rs[i].lo) && rs[i].Has(rs[i].hi);
  }

  /** No list of intervals that holds exactly the same layers is shorter than the canonical one. */
  lemma CanonicalIsShortest(rs: seq<Interval>, s: set<int>, cover: seq<Interval>)
    requires Canonical(rs, s)
    requires forall x :: x in s <==> InRanges(cover, x)
    ensures |rs| <= |cover|
  {
    var points := seq(|rs|, i requires 0 <= i < |rs| => rs[i].lo);
    forall i | 0 <= i < |points| ensures InRanges(cover, points[i]) {
      assert rs[i].Has(points[i]);
      assert InRanges(rs, points[i]);
    }
    forall c, i, j | c in cover && 0 <= i < j < |points|
      ensures !(c.Has(points[i]) && c.Has(points[j]))
    {
      PastTheEnd(rs, s, i);
      var k :| 0 <= k < |cover| && cover[k] == c;
      assert !cover[k].Has(rs[i].hi + 1);
    }
    AsManyIntervalsAsPoints(points, cover);
  }

  lemma FirstIntervalsAgree(a: seq<Interval>, b: seq<Interval>, s: set<int>)
    requires Canonical(a, s) && Canonical(b, s) && a != [] && b != []
    ensures a[0].lo == b[0].lo && a[0].hi <= b[0].hi
  {
    PastTheEnd(a, s, 0);
    PastTheEnd(b, s, 0);
    assert InRanges(b, a[0].lo) && InRanges(a, b[0].lo);
    assert !a[0].Has(b[0].hi + 1);
  }

  lemma CanonicalTail(a: seq<Interval>, s: set<int>)
    requires Canonical(a, s) && a != []
    ensures Canonical(a[1..], set x | x in s && x > a[0].hi)
  {
    var tail := a[1..];
    assert forall i | 0 <= i < |tail| :: tail[i] == a[i + 1];
    forall x ensures (x in s && x > a[0].hi) <==> InRanges(tail, x) {
      if x in s && x > a[0].hi {
        var i :| 0 <= i < |a| && a[i].Has(x);
        assert tail[i - 1].Has(x);
      }
      if InRanges(tail, x) {
        var i :| 0 <= i < |tail| && tail[i].Has(x);
        assert a[i + 1].Has(x);
      }
    }
  }

  /** A set has one canonical form. */
  lemma {:induction false} CanonicalIsUnique(a: seq<Interval>, b: seq<Interval>, s: set<int>)
    requires Canonical(a, s) && Canonical(b, s)
    ensures a == b
    decreases |a|
  {
    if a == [] || b == [] {
      if a != [] { assert a[0].Has(a[0].lo); assert InRanges(a, a[0].lo); }
      if b != [] { assert b[0].Has(b[0].lo); assert InRanges(b, b[0].lo); }
    } else {
      FirstIntervalsAgree(a, b, s);
      FirstIntervalsAgree(b, a, s);
      var rest := set x | x in s && x > a[0].hi;
      CanonicalTail(a, s);
      CanonicalTail(b, s);
      CanonicalIsUnique(a[1..], b[1..], rest);
      assert a == [a[0]] + a[1..] && b == [b[0]] + b[1..];
    }
  }
}
