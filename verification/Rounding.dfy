/** `round(x, 4)` on the reals: to the nearest ten-thousandth, halves to even. */
module Rounding {
  function RoundHalfEven(y: real): int {
    var f := y.Floor;
    var d := y - f as real;
    if d < 0.5 || (d == 0.5 && f % 2 == 0) then f else f + 1
  }

  function Round4(x: real): real {
    RoundHalfEven(x * 10000.0) as real / 10000.0
  }

  lemma RoundNear(x: real)
    ensures -0.00005 <= Round4(x) - x <= 0.00005
  {
    var y := x * 10000.0;
    assert -0.5 <= RoundHalfEven(y) as real - y <= 0.5;
    assert Round4(x) * 10000.0 == RoundHalfEven(y) as real;
  }

  lemma RoundMonotone(a: real, b: real)
    requires a <= b
    ensures Round4(a) <= Round4(b)
  {
    var y, z := a * 10000.0, b * 10000.0;
    assert y <= z;
    assert RoundHalfEven(y) <= RoundHalfEven(z) by {
      if y.Floor < z.Floor {
        assert RoundHalfEven(y) <= y.Floor + 1 <= z.Floor <= RoundHalfEven(z);
      }
    }
    assert RoundHalfEven(y) as real <= RoundHalfEven(z) as real;
  }

  /** A multiple of 0.0001 is its own rounding. */
  lemma RoundExact(k: int)
    ensures Round4(k as real / 10000.0) == k as real / 10000.0
  {
    assert k as real / 10000.0 * 10000.0 == k as real;
  }

  lemma NearestInteger(y: real, k: int)
    ensures RoundHalfEven(y) == k
            <==> -0.5 <= y - k as real <= 0.5 && (y - k as real == 0.5 || y - k as real == -0.5 ==> k % 2 == 0)
  {
    var f := y.Floor;
    if k != f && k != f + 1 {
      assert k as real <= f as real - 1.0 || k as real >= f as real + 2.0;
    }
  }

  /** The rounding is the nearest ten-thousandth, and of two as near the even one: nothing else is. */
  lemma NearestEvenIff(x: real, k: int)
    ensures Round4(x) == k as real / 10000.0
            <==> -0.5 <= x * 10000.0 - k as real <= 0.5
                 && (x * 10000.0 - k as real == 0.5 || x * 10000.0 - k as real == -0.5 ==> k % 2 == 0)
  {
    hide RoundHalfEven;
    NearestInteger(x * 10000.0, k);
    var n := RoundHalfEven(x * 10000.0);
    assert n as real / 10000.0 == k as real / 10000.0 <==> n as real == k as real;
  }
}
