/** Integers stored in binary64: the nearest representable one, ties to even. Magnitudes past the format's
    range are left out. */
module Binary64 {
  /** 2^53: up to here every integer is representable. */
  const EXACT: int := 0x20_0000_0000_0000
  const HALF: int := 0x10_0000_0000_0000

  /** The distance between representable integers around `x`. */
  function Unit(x: nat): (u: nat)
    ensures u > 0
  {
    if x < EXACT then 1 else 2 * Unit(x / 2)
  }

  /** The nearest multiple of `u`, ties to the even one. */
  function Nearest(x: nat, u: nat): (r: int)
    requires u > 0
    ensures r >= 0
  {
    var q, r := x / u, x % u;
    if 2 * r < u || (2 * r == u && q % 2 == 0) then q * u else (q + 1) * u
  }

  function Fl(x: int): int {
    if x < 0 then -Nearest(-x, Unit(-x)) else Nearest(x, Unit(x))
  }

  lemma {:induction false} UnitFits(x: nat)
    ensures x < EXACT * Unit(x)
    ensures x >= EXACT ==> HALF * Unit(x) <= x && Unit(x) % 2 == 0
  {
    if x >= EXACT && x / 2 >= EXACT {
      UnitFits(x / 2);
    }
  }

  lemma {:induction false} UnitDoubles(x: nat, y: nat)
    requires x <= y
    ensures Unit(x) == Unit(y) || 2 * Unit(x) <= Unit(y)
  {
    if x >= EXACT {
      UnitDoubles(x / 2, y / 2);
    }
  }

  lemma Divided(x: nat, u: nat)
    requires u > 0
    ensures x == x / u * u + x % u && x % u < u
  {}

  lemma OneMore(a: int, u: nat)
    ensures (a + 1) * u == a * u + u
  {}

  lemma MulMonotone(a: int, b: int, u: nat)
    requires a <= b
    ensures a * u <= b * u
  {}

  lemma QuotientMonotone(x: nat, y: nat, u: nat)
    requires u > 0 && x <= y
    ensures x / u <= y / u
  {
    if x / u > y / u {
      Divided(x, u);
      Divided(y, u);
      MulMonotone(y / u + 1, x / u, u);
    }
  }

  lemma NearestBetween(x: nat, u: nat)
    requires u > 0
    ensures x / u * u <= Nearest(x, u) <= (x / u + 1) * u
  {}

  lemma NearestMonotone(x: nat, y: nat, u: nat)
    requires u > 0 && x <= y
    ensures Nearest(x, u) <= Nearest(y, u)
  {
    var p, q := x / u, y / u;
    QuotientMonotone(x, y, u);
    if p < q {
      NearestBetween(x, u);
      NearestBetween(y, u);
      MulMonotone(p + 1, q, u);
    } else {
      Divided(x, u);
      Divided(y, u);
      assert x % u <= y % u;
      MulMonotone(p, p + 1, u);
    }
  }

  lemma Multiple(m: nat, u: nat)
    requires u > 0
    ensures m * u / u == m && m * u % u == 0
  {
    var x := m * u;
    Divided(x, u);
    OneMore(x / u, u);
    OneMore(m, u);
    if x / u < m {
      MulMonotone(x / u + 1, m, u);
    } else if x / u > m {
      MulMonotone(m + 1, x / u, u);
    }
  }

  lemma NearestMultiple(m: nat, u: nat)
    requires u > 0
    ensures Nearest(m * u, u) == m * u
  {
    Multiple(m, u);
  }

  /** A rounded number lies within the span of its unit, ends included. */
  lemma NearestSpan(x: nat)
    ensures Nearest(x, Unit(x)) <= EXACT * Unit(x)
    ensures x >= EXACT ==> HALF * Unit(x) <= Nearest(x, Unit(x))
  {
    hide Unit, Nearest;
    var u := Unit(x);
    UnitFits(x);
    NearestBetween(x, u);
    Divided(x, u);
    if x / u >= EXACT {
      MulMonotone(EXACT, x / u, u);
    }
    MulMonotone(x / u + 1, EXACT, u);
    OneMore(x / u, u);
    if x >= EXACT {
      if x / u < HALF {
        MulMonotone(x / u + 1, HALF, u);
      }
      MulMonotone(HALF, x / u, u);
    }
  }

  lemma NatMonotone(x: nat, y: nat)
    requires x <= y
    ensures Nearest(x, Unit(x)) <= Nearest(y, Unit(y))
  {
    hide Nearest;
    UnitDoubles(x, y);
    if Unit(x) == Unit(y) {
      NearestMonotone(x, y, Unit(x));
    } else {
      NearestSpan(x);
      NearestSpan(y);
    }
  }

  lemma FlMonotone(x: int, y: int)
    requires x <= y
    ensures Fl(x) <= Fl(y)
  {
    hide Nearest, Unit;
    if x >= 0 {
      NatMonotone(x, y);
    } else if y < 0 {
      NatMonotone(-y, -x);
    }
  }

  /** Up to 2^53 nothing is lost. */
  lemma FlExact(x: int)
    requires -EXACT <= x <= EXACT
    ensures Fl(x) == x
  {
    var n: nat := if x < 0 then -x else x;
    NearestMultiple(n / Unit(n), Unit(n));
  }

  /** The unit of a multiple in the span of `u`. */
  lemma UnitOf(x: nat, m: nat, u: nat)
    requires x >= EXACT && u == Unit(x) && HALF <= m <= EXACT
    ensures Unit(m * u) == if m < EXACT then u else 2 * u
  {
    hide Unit;
    var y := m * u;
    MulMonotone(HALF, m, u);
    MulMonotone(m, EXACT, u);
    UnitFits(x);
    assert y >= HALF * u >= EXACT;
    UnitFits(y);
    if x <= y {
      UnitDoubles(x, y);
    } else {
      UnitDoubles(y, x);
    }
    if m < EXACT {
      MulMonotone(m + 1, EXACT, u);
      OneMore(m, u);
    }
    UnitExactly(x, y);
  }

  lemma {:induction false} UnitExactly(x: nat, y: nat)
    requires x >= EXACT && y >= EXACT
    ensures y < EXACT * Unit(x) && HALF * Unit(x) <= y ==> Unit(y) == Unit(x)
    ensures y == EXACT * Unit(x) ==> Unit(y) == 2 * Unit(x)
  {
    UnitFits(x);
    UnitFits(y);
    if x <= y {
      UnitDoubles(x, y);
      if Unit(x) != Unit(y) {
        UnitTwice(x, y);
      }
    } else {
      UnitDoubles(y, x);
    }
  }

  /** Units grow by powers of two: between `u` and `4u` there is only `2u`. */
  lemma {:induction false} UnitTwice(x: nat, y: nat)
    requires x <= y
    ensures Unit(y) == Unit(x) || Unit(y) == 2 * Unit(x) || 4 * Unit(x) <= Unit(y)
  {
    if x >= EXACT {
      UnitTwice(x / 2, y / 2);
    } else if y >= EXACT && y / 2 >= EXACT {
      assert Unit(y) == 2 * Unit(y / 2) && Unit(y / 2) == 2 * Unit(y / 2 / 2);
    }
  }

  /** A rounded number is representable. */
  lemma FlIdempotent(x: int)
    ensures Fl(Fl(x)) == Fl(x)
  {
    hide Unit, Nearest;
    var n: nat := if x < 0 then -x else x;
    var y := Nearest(n, Unit(n));
    NatIdempotent(n);
  }

  lemma NatIdempotent(x: nat)
    ensures var y := Nearest(x, Unit(x)); Nearest(y, Unit(y)) == y
  {
    hide Unit;
    var u := Unit(x);
    var y := Nearest(x, u);
    if x < EXACT {
      FlExact(x);
    } else {
      var m := y / u;
      NearestSpan(x);
      NearestQuotient(x, u);
      OneMore(m, u);
      OneMore(EXACT, u);
      if m < HALF {
        MulMonotone(m + 1, HALF, u);
      } else if m > EXACT {
        MulMonotone(EXACT + 1, m, u);
      }
      UnitOf(x, m, u);
      if m < EXACT {
        NearestMultiple(m, u);
      } else {
        assert y == HALF * (2 * u);
        NearestMultiple(HALF, 2 * u);
      }
    }
  }

  lemma NearestQuotient(x: nat, u: nat)
    requires u > 0
    ensures Nearest(x, u) == Nearest(x, u) / u * u
  {
    Multiple(x / u, u);
    Multiple(x / u + 1, u);
  }

  lemma EvenMultiple(m: nat, u: nat)
    requires u % 2 == 0
    ensures m * u % 2 == 0
  {
    assert m * u == m * (u / 2) * 2;
  }

  lemma NatEven(x: nat)
    requires x >= EXACT
    ensures Nearest(x, Unit(x)) % 2 == 0 && Nearest(x, Unit(x)) >= EXACT
  {
    hide Unit, Nearest;
    UnitFits(x);
    NearestQuotient(x, Unit(x));
    EvenMultiple(Nearest(x, Unit(x)) / Unit(x), Unit(x));
    NearestSpan(x);
  }

  /** From 2^53 on only even numbers are representable. */
  lemma FlEven(x: int)
    requires x <= -EXACT || x >= EXACT
    ensures Fl(x) % 2 == 0 && if x < 0 then Fl(x) <= -EXACT else Fl(x) >= EXACT
  {
    hide Unit, Nearest;
    NatEven(if x < 0 then -x else x);
  }

  /** So an odd number is stored as one of its neighbours is. */
  lemma OddTies(x: int)
    requires (x < -EXACT || x > EXACT) && x % 2 != 0
    ensures Fl(x) == Fl(x - 1) || Fl(x) == Fl(x + 1)
  {
    hide Fl;
    FlEven(x);
    FlIdempotent(x);
    if Fl(x) < x {
      FlMonotone(Fl(x), x - 1);
      FlMonotone(x - 1, x);
    } else {
      FlMonotone(x, x + 1);
      FlMonotone(x + 1, Fl(x));
    }
  }

  // ----- rounding told from the representable numbers ----------------------------------------------

  function Pow2(e: nat): (p: nat)
    ensures p > 0
  {
    if e == 0 then 1 else 2 * Pow2(e - 1)
  }

  function Abs(x: int): nat {
    if x < 0 then -x else x
  }

  predicate Reads(y: int, significand: nat, e: nat) {
    Abs(y) == significand * Pow2(e)
  }

  /** At most 53 significant bits. */
  ghost predicate Representable(y: int) {
    exists m: nat, e: nat :: Reads(y, m, e) && m < EXACT
  }

  /** The last of the 53 bits is 0. */
  ghost predicate EvenSignificand(y: int) {
    exists m: nat, e: nat :: Reads(y, m, e) && HALF <= m <= EXACT && m % 2 == 0
  }

  lemma {:induction false} UnitPower(x: nat) returns (e: nat)
    ensures Unit(x) == Pow2(e)
  {
    e := 0;
    if x >= EXACT {
      var d := UnitPower(x / 2);
      e := d + 1;
    }
  }

  lemma {:induction false} PowerUnit(m: nat, e: nat)
    requires m < EXACT
    ensures m * Pow2(e) % Unit(m * Pow2(e)) == 0
  {
    if e > 0 {
      var half := m * Pow2(e - 1);
      PowerUnit(m, e - 1);
      assert m * Pow2(e) == 2 * half;
      if 2 * half >= EXACT {
        assert 2 * half / 2 == half;
        DoubledMultiple(half, Unit(half));
      }
    }
  }

  lemma DoubledMultiple(n: nat, u: nat)
    requires u > 0 && n % u == 0
    ensures 2 * n % (2 * u) == 0
  {
    Divided(n, u);
    Multiple(n / u, 2 * u);
    assert 2 * n == n / u * (2 * u);
  }

  /** Between numbers of one sign the unit grows by a whole factor. */
  lemma {:induction false} UnitDivides(x: nat, y: nat) returns (c: nat)
    requires x <= y
    ensures Unit(y) == c * Unit(x)
  {
    if x >= EXACT {
      c := UnitDivides(x / 2, y / 2);
    } else {
      c := Unit(y);
    }
  }

  lemma MultipleOf(n: nat, c: nat, u: nat)
    requires u > 0 && c > 0 && n % (c * u) == 0
    ensures n % u == 0
  {
    Divided(n, c * u);
    var k := n / (c * u);
    assert n == k * c * u;
    Multiple(k * c, u);
  }

  /** No multiple of the unit is nearer, and of two as near the even one is taken. */
  lemma NearestOfMultiples(x: nat, u: nat, y: nat)
    requires u > 0 && y % u == 0
    ensures var r := Nearest(x, u);
      && Abs(r - x) <= Abs(y - x)
      && (Abs(r - x) == Abs(y - x) && r != y ==> r / u % 2 == 0)
  {
    var q, k := x / u, y / u;
    Divided(x, u);
    Divided(y, u);
    OneMore(q, u);
    Multiple(q, u);
    Multiple(q + 1, u);
    if k <= q {
      MulMonotone(k, q, u);
    } else {
      MulMonotone(q + 1, k, u);
    }
  }

  lemma NatRounds(x: nat, y: nat)
    requires y % Unit(y) == 0
    ensures var r := Nearest(x, Unit(x));
      && Abs(r - x) <= Abs(y - x)
      && (Abs(r - x) == Abs(y - x) && r != y ==> r / Unit(x) % 2 == 0)
  {
    hide Unit, Nearest;
    var u := Unit(x);
    if x <= y {
      var c := UnitDivides(x, y);
      MultipleOf(y, c, u);
      NearestOfMultiples(x, u, y);
    } else {
      UnitDoubles(y, x);
      if Unit(y) == u {
        NearestOfMultiples(x, u, y);
      } else {
        FarBelow(x, y);
      }
    }
  }

  /** A number of a smaller unit is further away than the multiple below. */
  lemma FarBelow(x: nat, y: nat)
    requires y < x && 2 * Unit(y) <= Unit(x)
    ensures Abs(Nearest(x, Unit(x)) - x) < Abs(y - x)
  {
    hide Unit, Nearest;
    var u := Unit(x);
    UnitFits(x);
    UnitFits(y);
    SmallUnit(x, y);
    Divided(x, u);
    var d := x / u * u;
    Multiple(x / u, u);
    NearestOfMultiples(x, u, d);
    assert y < EXACT * Unit(y) == HALF * (2 * Unit(y)) <= HALF * u;
    if x / u < HALF {
      MulMonotone(x / u + 1, HALF, u);
      OneMore(x / u, u);
    }
    MulMonotone(HALF, x / u, u);
  }

  lemma SmallUnit(x: nat, y: nat)
    requires 2 * Unit(y) <= Unit(x)
    ensures x >= EXACT
  {}

  lemma RoundedRepresentable(x: nat)
    ensures Representable(Nearest(x, Unit(x)))
  {
    hide Unit, Nearest;
    var r := Nearest(x, Unit(x));
    NatIdempotent(x);
    var e := UnitPower(r);
    UnitFits(r);
    NearestQuotient(r, Unit(r));
    var m := r / Unit(r);
    assert Reads(r, m, e);
    if m >= EXACT {
      MulMonotone(EXACT, m, Unit(r));
    }
  }

  lemma EvenBits(x: nat)
    requires x >= EXACT && Nearest(x, Unit(x)) / Unit(x) % 2 == 0
    ensures EvenSignificand(Nearest(x, Unit(x)))
  {
    hide Unit, Nearest;
    var u := Unit(x);
    var m := Nearest(x, u) / u;
    var e := UnitPower(x);
    NearestQuotient(x, u);
    NearestSpan(x);
    OneMore(m, u);
    OneMore(EXACT, u);
    if m < HALF {
      MulMonotone(m + 1, HALF, u);
    } else if m > EXACT {
      MulMonotone(EXACT + 1, m, u);
    }
    assert Reads(Nearest(x, u), m, e);
  }

  /** The nearest of all representable numbers; of two as near, the one whose last bit is 0. */
  lemma FlTells(x: int, y: int)
    requires Representable(y)
    ensures Representable(Fl(x)) && Abs(Fl(x) - x) <= Abs(y - x)
    ensures Abs(Fl(x) - x) == Abs(y - x) && Fl(x) != y ==> EvenSignificand(Fl(x))
  {
    hide Unit, Nearest;
    var n := Abs(x);
    var m: nat, e: nat :| Reads(y, m, e) && m < EXACT;
    PowerUnit(m, e);
    RoundedRepresentable(n);
    NatRounds(n, 0);
    NatRounds(n, Abs(y));
    if Nearest(n, Unit(n)) != n {
      SmallExact(n);
      if Nearest(n, Unit(n)) / Unit(n) % 2 == 0 {
        EvenBits(n);
      }
    }
  }

  lemma SmallExact(n: nat)
    ensures n < EXACT ==> Nearest(n, Unit(n)) == n
    ensures 0 % Unit(0) == 0
  {
    if n < EXACT {
      FlExact(n);
    }
  }
}
