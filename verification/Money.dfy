/** Decimal rounding to whole cents, as the service and the database do it. */
module Money {

  const HALF_CENT: real := 0.005

  /** Half a cent for each of n roundings. */
  function HalfCents(n: real): real {
    n * HALF_CENT
  }

  lemma OneMoreRounding(n: real)
    ensures HalfCents(0.0) == 0.0 && HalfCents(n + 1.0) == HalfCents(n) + 0.005
  {
  }

  ghost predicate WholeCents(x: real) {
    (x * 100.0).Floor as real == x * 100.0
  }

  function Abs(x: real): real {
    if x < 0.0 then -x else x
  }

  /** The nearest number of cents, half a cent going up. */
  function NearestUp(x: real): (n: int)
    ensures -0.5 < n as real - x <= 0.5
  {
    (x + 0.5).Floor
  }

  /** Python's ROUND_HALF_UP, and the rounding of a Numeric(_, 2) column: ties go away from zero. */
  function RoundHalfUp(x: real): (r: real)
    ensures WholeCents(r)
    ensures Abs(r - x) <= HALF_CENT
  {
    var n := if x >= 0.0 then NearestUp(x * 100.0) else -NearestUp(-x * 100.0);
    assert (n as real / 100.0) * 100.0 == n as real;
    n as real / 100.0
  }

  /** Python's default Decimal rounding: ties go to the even cent. */
  function RoundHalfEven(x: real): (r: real)
    ensures WholeCents(r)
    ensures Abs(r - x) <= HALF_CENT
  {
    var n := (x * 100.0).Floor;
    var rest := x * 100.0 - n as real;
    var m := if rest < 0.5 || (rest == 0.5 && n % 2 == 0) then n else n + 1;
    assert (m as real / 100.0) * 100.0 == m as real;
    m as real / 100.0
  }

  // ---- what the two roundings are, without their arithmetic ----

  /** r is the number of whole cents next to x; between two of them it is the one farther from zero. */
  ghost predicate NearestAway(r: real, x: real) {
    WholeCents(r) && Abs(r - x) <= HALF_CENT && (Abs(r - x) == HALF_CENT ==> Abs(r) > Abs(x))
  }

  /** r is the number of whole cents next to x; between two of them it is the even one. */
  ghost predicate NearestEven(r: real, x: real) {
    WholeCents(r) && Abs(r - x) <= HALF_CENT && (Abs(r - x) == HALF_CENT ==> (r * 100.0).Floor % 2 == 0)
  }

  lemma NeighboursOfATie(x: real, r: real, s: real)
    requires WholeCents(r) && WholeCents(s) && Abs(r - x) <= HALF_CENT && Abs(s - x) <= HALF_CENT && r != s
    ensures Abs(r - x) == HALF_CENT && Abs(s - x) == HALF_CENT && r + s == 2.0 * x
    ensures (r * 100.0).Floor - (s * 100.0).Floor == 1 || (s * 100.0).Floor - (r * 100.0).Floor == 1
  {
    var m, n := (r * 100.0).Floor, (s * 100.0).Floor;
    assert Abs(r - s) <= 0.01;
    assert -1.0 <= (m - n) as real <= 1.0;
    assert m != n;
  }

  lemma HalfUpIsAway(x: real)
    ensures NearestAway(RoundHalfUp(x), x)
  {
    var r := RoundHalfUp(x);
    if Abs(r - x) == HALF_CENT {
      var n := if x >= 0.0 then NearestUp(x * 100.0) else -NearestUp(-x * 100.0);
      assert r * 100.0 == n as real;
    }
  }

  lemma RoundedIsNearest(x: real, r: real)
    requires r == RoundHalfUp(x)
    ensures NearestAway(r, x)
  {
    HalfUpIsAway(x);
  }

  lemma HalfEvenIsEven(x: real)
    ensures NearestEven(RoundHalfEven(x), x)
  {
    var r := RoundHalfEven(x);
    var n := (x * 100.0).Floor;
    var rest := x * 100.0 - n as real;
    var m := if rest < 0.5 || (rest == 0.5 && n % 2 == 0) then n else n + 1;
    assert r * 100.0 == m as real;
    assert (r * 100.0).Floor == m;
  }

  lemma EvenIsNearest(x: real, r: real)
    requires r == RoundHalfEven(x)
    ensures NearestEven(r, x)
  {
    HalfEvenIsEven(x);
  }

  /** ROUND_HALF_UP is the nearest cent, ties away from zero, and nothing else is. */
  lemma HalfUpExactly(x: real, r: real)
    ensures r == RoundHalfUp(x) <==> NearestAway(r, x)
  {
    var s := RoundHalfUp(x);
    HalfUpIsAway(x);
    if NearestAway(r, x) && r != s {
      NeighboursOfATie(x, r, s);
    }
  }

  /** Python's default is the nearest cent, ties to the even one, and nothing else is. */
  lemma HalfEvenExactly(x: real, r: real)
    ensures r == RoundHalfEven(x) <==> NearestEven(r, x)
  {
    var s := RoundHalfEven(x);
    HalfEvenIsEven(x);
    if NearestEven(r, x) && r != s {
      NeighboursOfATie(x, r, s);
    }
  }

  /** A loss rounds as the gain of the same size does. */
  lemma HalfUpIsOdd(x: real)
    ensures RoundHalfUp(-x) == -RoundHalfUp(x)
  {
    var r := RoundHalfUp(x);
    HalfUpIsAway(x);
    CentsNegate(r);
    HalfUpExactly(-x, -r);
  }

  /** Stored values do not move when they are rounded again. */
  lemma RoundingFixesWholeCents(x: real)
    requires WholeCents(x)
    ensures RoundHalfUp(x) == x
    ensures RoundHalfEven(x) == x
  {
    var n := (x * 100.0).Floor;
    assert x == n as real / 100.0;
    if x >= 0.0 {
      assert (n as real + 0.5).Floor == n;
    } else {
      assert ((-n) as real + 0.5).Floor == -n;
      assert -x * 100.0 == (-n) as real;
    }
  }

  lemma WholeZero()
    ensures WholeCents(0.0)
  {
    assert (0.0 * 100.0).Floor == 0;
  }

  lemma CentsAdd(x: real, y: real)
    requires WholeCents(x) && WholeCents(y)
    ensures WholeCents(x + y)
  {
    var m, n := (x * 100.0).Floor, (y * 100.0).Floor;
    assert (x + y) * 100.0 == (m + n) as real;
  }

  lemma CentsNegate(x: real)
    requires WholeCents(x)
    ensures WholeCents(-x)
  {
    var n := (x * 100.0).Floor;
    assert -x * 100.0 == (-n) as real;
  }

  lemma ErrorsAdd(a: real, b: real, n: real, c: real, d: real, m: real)
    requires Abs(a - b) <= HalfCents(n) && Abs(c - d) <= HalfCents(m)
    ensures Abs((a + c) - (b + d)) <= HalfCents(n + m)
  {
  }
}
