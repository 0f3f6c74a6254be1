/** What Python's true division makes of a whole quotient: the nearest double, ties to even. */
module Rounding {
  const TWO53: nat := 0x20_0000_0000_0000
  const TWO128: nat := 0x1_0000_0000_0000_0000_0000_0000_0000_0000

  /** 2^1024: a quotient that rounds to this or more raises OverflowError. */
  const FLOAT_LIMIT: nat := TWO128 * TWO128 * TWO128 * TWO128 * TWO128 * TWO128 * TWO128 * TWO128

  /** `q` is 53 bits followed by zeros, so a double, its size aside. */
  predicate Representable(q: nat) {
    q < TWO53 || (q % 2 == 0 && Representable(q / 2))
  }

  /** `q` with all but its first 53 bits cleared. */
  function Down(q: nat): nat {
    if q < TWO53 then q else 2 * Down(q / 2)
  }

  /** The distance between neighbouring doubles at `q`. */
  function Ulp(q: nat): (u: nat)
    ensures u >= 1
  {
    if q < TWO53 then 1 else 2 * Ulp(q / 2)
  }

  /** The number that the first 53 bits of `q` make. */
  function Leading(q: nat): nat {
    if q < TWO53 then q else Leading(q / 2)
  }

  /** The double nearest to `q`, of two the even one. */
  function Nearest(q: nat): nat {
    var d, u := Down(q), Ulp(q);
    if 2 * (q - d) < u || (2 * (q - d) == u && Leading(q) % 2 == 0) then d else d + u
  }

  lemma {:induction false} Neighbours(q: nat)
    ensures Down(q) <= q < Down(q) + Ulp(q)
    ensures Representable(Down(q)) && Representable(Down(q) + Ulp(q))
    ensures q >= TWO53 / 2 ==> Down(q) >= TWO53 / 2
  {
    if q >= TWO53 {
      Neighbours(q / 2);
    }
  }

  /** No double lies strictly between the two neighbours. */
  lemma {:induction false} NothingBetween(q: nat, d: nat)
    requires Representable(d)
    ensures d <= q ==> d <= Down(q)
    ensures d > q ==> d >= Down(q) + Ulp(q)
  {
    if q >= TWO53 {
      Neighbours(q / 2);
      if d >= TWO53 {
        NothingBetween(q / 2, d / 2);
      }
    }
  }

  /** No double is nearer. */
  lemma {:induction false} NearestIsNearest(q: nat, d: nat)
    requires Representable(d)
    ensures Representable(Nearest(q))
    ensures if Nearest(q) <= q then q - Nearest(q) <= if d <= q then q - d else d - q
            else Nearest(q) - q <= if d <= q then q - d else d - q
  {
    Neighbours(q);
    NothingBetween(q, d);
  }

  lemma {:induction false} DownIsMultiple(q: nat)
    ensures Down(q) == Leading(q) * Ulp(q)
  {
    if q >= TWO53 {
      DownIsMultiple(q / 2);
      var m, u := Leading(q / 2), Ulp(q / 2);
      assert 2 * (m * u) == m * (2 * u);
    }
  }

  /** Half way between two doubles the even multiple of their distance is taken. */
  lemma {:induction false} TiesToEven(q: nat) returns (m: nat)
    requires 2 * (q - Down(q)) == Ulp(q)
    ensures m % 2 == 0 && Nearest(q) == m * Ulp(q)
    ensures Down(q) == m * Ulp(q) || Down(q) + Ulp(q) == m * Ulp(q)
  {
    DownIsMultiple(q);
    m := if Leading(q) % 2 == 0 then Leading(q) else Leading(q) + 1;
    assert (Leading(q) + 1) * Ulp(q) == Leading(q) * Ulp(q) + Ulp(q);
  }

  lemma {:induction false} DownExactly(q: nat)
    ensures Down(q) == q <==> Representable(q)
  {
    if q >= TWO53 {
      DownExactly(q / 2);
    }
  }

  /** Rounding changes nothing exactly when there is nothing to round. */
  lemma {:induction false} NearestExactly(q: nat)
    ensures Nearest(q) == q <==> Representable(q)
  {
    hide Down, Ulp, Leading, Representable;
    Neighbours(q);
    DownExactly(q);
  }

  lemma {:induction false} Halved(x: nat)
    requires Representable(2 * x)
    ensures Representable(x)
  {
  }

  /** A double divided by 1024 is a double. */
  lemma {:induction false} DividedDouble(x: nat)
    requires Representable(1024 * x)
    ensures Representable(x)
  {
    hide Representable;
    Halved(512 * x);
    Halved(256 * x);
    Halved(128 * x);
    Halved(64 * x);
    Halved(32 * x);
    Halved(16 * x);
    Halved(8 * x);
    Halved(4 * x);
    Halved(2 * x);
    Halved(x);
  }
}
