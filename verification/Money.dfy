/**
 Two-decimal rounding. A raw amount is a whole number of units, where `scale` units make one cent:
 amounts with K >= 2 decimals have scale 10^(K-2). Rounded amounts are whole cents. The rounding is
 roundTiesToEven of section 4.3.1 of IEEE 754-2008.
 */
module Money {

  type Scale = s: int | s >= 1 witness 1

  /** `_q2`, in cents. */
  function Cents(x: int, scale: Scale): int
  {
    var floor, rest := x / scale, x % scale;
    if 2 * rest < scale || (2 * rest == scale && floor % 2 == 0) then floor else floor + 1
  }

  /** The raw amount that a whole number of cents is. */
  function Units(cents: int, scale: Scale): int { cents * scale }

  function Abs(x: int): nat { if x < 0 then -x else x }

  /** c is a nearest whole number of cents to x, and the even one when two are as near. */
  ghost predicate NearestEven(x: int, c: int, scale: Scale)
  {
    var distance := Abs(x - Units(c, scale));
    2 * distance <= scale && (2 * distance == scale ==> c % 2 == 0)
  }

  lemma {:induction false} DivisionParts(x: int, scale: Scale)
    ensures x == Units(x / scale, scale) + x % scale
    ensures Units(x / scale + 1, scale) == Units(x / scale, scale) + scale
  {
  }

  lemma {:induction false} UnitsSubtract(c: int, d: int, scale: Scale)
    ensures Units(d - c, scale) == Units(d, scale) - Units(c, scale)
  {
  }

  lemma {:induction false} UnitsGrow(c: int, d: int, scale: Scale)
    requires c < d
    ensures Units(c, scale) + scale <= Units(d, scale)
    decreases d - c
  {
    UnitsSubtract(1, d, scale);
    assert Units(1, scale) == scale;
    if c < d - 1 {
      UnitsGrow(c, d - 1, scale);
    }
  }

  lemma {:induction false} RoundsToNearest(x: int, scale: Scale)
    ensures NearestEven(x, Cents(x, scale), scale)
  {
    DivisionParts(x, scale);
  }

  /** The rounding is exactly "nearest, ties to even". */
  lemma {:induction false} CentsIsNearestEven(x: int, c: int, scale: Scale)
    ensures NearestEven(x, c, scale) <==> c == Cents(x, scale)
  {
    RoundsToNearest(x, scale);
    var d := Cents(x, scale);
    if NearestEven(x, c, scale) && c != d {
      var (low, high) := if c < d then (c, d) else (d, c);
      UnitsGrow(low, low + 1, scale);
      if high > low + 1 {
        UnitsGrow(low + 1, high, scale);
      } else {
        UnitsSubtract(low, high, scale);
      }
    }
  }

  lemma {:induction false} CentsError(x: int, scale: Scale)
    ensures 2 * Abs(x - Units(Cents(x, scale), scale)) <= scale
  {
    RoundsToNearest(x, scale);
  }

  /** Whole cents are fixed points, so rounding a sum of rounded amounts changes nothing. */
  lemma {:induction false} WholeCentsFixed(n: int, scale: Scale)
    ensures Cents(Units(n, scale), scale) == n
  {
    CentsIsNearestEven(Units(n, scale), n, scale);
  }

  /** What rounds to a positive, to a zero and to a negative amount: the border is half a cent. */
  lemma {:induction false} SignThresholds(x: int, scale: Scale)
    ensures Cents(x, scale) > 0 <==> 2 * x > scale
    ensures Cents(x, scale) == 0 <==> 2 * Abs(x) <= scale
    ensures Cents(x, scale) < 0 <==> 2 * -x > scale
  {
    var c := Cents(x, scale);
    CentsIsNearestEven(x, 0, scale);
    RoundsToNearest(x, scale);
    assert Units(0, scale) == 0;
    if c > 0 {
      UnitsGrow(0, c, scale);
    } else if c < 0 {
      UnitsGrow(c, 0, scale);
    }
  }
}
