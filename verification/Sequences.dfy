/** List comprehensions and the removal of one element, with the facts the models share. */
module Sequences {
  /** `[x for x in s if p(x)]`. */
  function Filter<T(!new)>(s: seq<T>, p: T -> bool): (r: seq<T>)
    ensures forall x :: x in r <==> x in s && p(x)
    ensures |r| <= |s|
  {
    if s == [] then [] else
    var rest := Filter(s[..|s| - 1], p);
    if p(s[|s| - 1]) then rest + [s[|s| - 1]] else rest
  }

  lemma {:induction false} FilterShrinks<T(!new)>(s: seq<T>, p: T -> bool, x: T)
    requires x in s && !p(x)
    ensures |Filter(s, p)| < |s|
  {
    var n := |s| - 1;
    if s[n] != x {
      assert s == s[..n] + [s[n]];
      FilterShrinks(s[..n], p, x);
    }
  }

  lemma {:induction false} FilterAppend<T(!new)>(a: seq<T>, b: seq<T>, p: T -> bool)
    ensures Filter(a + b, p) == Filter(a, p) + Filter(b, p)
  {
    if b == [] {
      assert a + b == a;
    } else {
      var n := |b| - 1;
      assert (a + b)[..|a + b| - 1] == a + b[..n];
      FilterAppend(a, b[..n], p);
    }
  }

  function Without<T(!new)>(s: seq<T>, i: nat): (r: seq<T>)
    requires i < |s|
    ensures |r| == |s| - 1
    ensures forall x :: x in r ==> x in s
    ensures forall j | 0 <= j < |s| && j != i :: s[j] in r
    ensures multiset(s) == multiset(r) + multiset{s[i]}
  {
    assert s == s[..i] + [s[i]] + s[i + 1..];
    var r := s[..i] + s[i + 1..];
    assert forall j | 0 <= j < i :: r[j] == s[j];
    assert forall j | i < j < |s| :: r[j - 1] == s[j];
    r
  }

  /** Position of the first occurrence, as `list.remove` and `list.index` find it. */
  function IndexOf<T(==)>(s: seq<T>, x: T): (i: nat)
    requires x in s
    ensures i < |s| && s[i] == x && x !in s[..i]
  {
    if s[0] == x then 0 else 1 + IndexOf(s[1..], x)
  }

  lemma FilterDrops<T(!new)>(x: T, p: T -> bool)
    requires !p(x)
    ensures Filter([x], p) == []
  {
    assert [x][..0] == [];
  }

  /** Removing an element the filter drops changes nothing. */
  lemma FilterWithout<T(!new)>(s: seq<T>, i: nat, p: T -> bool)
    requires i < |s| && !p(s[i])
    ensures Filter(Without(s, i), p) == Filter(s, p)
  {
    hide Filter;
    var a, b := s[..i], s[i + 1..];
    assert s == a + ([s[i]] + b) && Without(s, i) == a + b;
    FilterAppend(a, [s[i]] + b, p);
    FilterAppend([s[i]], b, p);
    FilterAppend(a, b, p);
    FilterDrops(s[i], p);
    assert Filter([s[i]] + b, p) == Filter(b, p);
  }
}
