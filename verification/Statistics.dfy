/** Sums and means of lists of reals. */
module Statistics {
  function Sum(s: seq<real>): real {
    if s == [] then 0.0 else Sum(s[..|s| - 1]) + s[|s| - 1]
  }

  /** `sum(s) / len(s) if s else 0.0`. */
  function Mean(s: seq<real>): real {
    if s == [] then 0.0 else Sum(s) / |s| as real
  }

  lemma {:induction false} SumAppend(a: seq<real>, b: seq<real>)
    ensures Sum(a + b) == Sum(a) + Sum(b)
  {
    if b == [] {
      assert a + b == a;
    } else {
      var n := |b| - 1;
      assert (a + b)[..|a + b| - 1] == a + b[..n];
      SumAppend(a, b[..n]);
    }
  }

  lemma OneMore(x: real, n: nat)
    ensures x * (n + 1) as real == x * n as real + x
  {
  }

  lemma {:induction false} SumBounds(s: seq<real>, lo: real, hi: real)
    requires forall i | 0 <= i < |s| :: lo <= s[i] <= hi
    ensures lo * |s| as real <= Sum(s) <= hi * |s| as real
  {
    if s != [] {
      var n := |s| - 1;
      assert lo <= s[n] <= hi;
      SumBounds(s[..n], lo, hi);
      OneMore(lo, n);
      OneMore(hi, n);
    }
  }

  lemma Scaled(x: real, y: real, b: real)
    requires b > 0.0
    ensures x < y ==> x * b < y * b
  {
    if x < y { assert (y - x) * b > 0.0; }
  }

  lemma CancelPositive(x: real, y: real, b: real)
    requires b > 0.0 && x * b <= y * b
    ensures x <= y
  {
    Scaled(y, x, b);
  }

  lemma BetweenProducts(lo: real, m: real, hi: real, n: real, sum: real)
    requires n > 0.0 && m * n == sum && lo * n <= sum <= hi * n
    ensures lo <= m <= hi
  {
    CancelPositive(lo, m, n);
    CancelPositive(m, hi, n);
  }

  lemma MeanTimes(s: seq<real>)
    requires s != []
    ensures Mean(s) * |s| as real == Sum(s)
  {
  }

  lemma MeanBounds(s: seq<real>, lo: real, hi: real)
    requires s != [] && forall i | 0 <= i < |s| :: lo <= s[i] <= hi
    ensures lo <= Mean(s) <= hi
  {
    hide Mean, Sum;
    SumBounds(s, lo, hi);
    MeanTimes(s);
    BetweenProducts(lo, Mean(s), hi, |s| as real, Sum(s));
  }

  /** A product whose factors stay out of an inductive proof. */
  function Times(x: real, k: real): real {
    x * k
  }

  lemma TimesAdds(a: real, b: real, k: real)
    ensures Times(a + b, k) == Times(a, k) + Times(b, k)
  {
  }

  lemma CancelStrict(x: real, y: real, b: real)
    requires b > 0.0 && x * b < y * b
    ensures x < y
  {
    Scaled(y, x, b);
    assert x == y ==> x * b == y * b;
  }

  function CountAbove(s: seq<real>, t: real): nat {
    if s == [] then 0 else CountAbove(s[..|s| - 1], t) + if s[|s| - 1] > t then 1 else 0
  }

  lemma AddOne(k: nat, t: real)
    ensures Times((k + 1) as real, t) == Times(k as real, t) + t
  {
  }

  /** As many as lie above `t` times `t` is at most the sum, and less if there are any. */
  lemma {:induction false} Markov(s: seq<real>, t: real)
    requires forall i | 0 <= i < |s| :: s[i] >= 0.0
    ensures Times(CountAbove(s, t) as real, t) <= Sum(s)
    ensures CountAbove(s, t) > 0 ==> Times(CountAbove(s, t) as real, t) < Sum(s)
    ensures CountAbove(s, t) <= |s|
  {
    if s != [] {
      hide Times;
      var n := |s| - 1;
      Markov(s[..n], t);
      AddOne(CountAbove(s[..n], t), t);
    } else {
      assert Times(0.0, t) == 0.0;
    }
  }
}
