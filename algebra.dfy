/** Small facts of real arithmetic, each stated over plain variables so that
    the solver proves it in isolation and callers use it as a rewrite. */
module Algebra {

  function Sq(u: real): real
  {
    u * u
  }

  lemma PositiveProduct(u: real, v: real)
    requires u > 0.0 && v > 0.0
    ensures u * v > 0.0
  {
  }

  lemma SquarePositive(u: real)
    ensures Sq(u) >= 0.0
    ensures u != 0.0 <==> Sq(u) > 0.0
  {
    if u > 0.0 {
      calc {
        Sq(u);
        u * u;
      > { PositiveProduct(u, u); }
        0.0;
      }
    } else if u < 0.0 {
      calc {
        Sq(u);
        (-u) * (-u);
      > { PositiveProduct(-u, -u); }
        0.0;
      }
    } else {
      calc {
        Sq(u);
        0.0 * 0.0;
        0.0;
      }
    }
  }

  lemma ZeroProduct(u: real, v: real)
    requires u * v == 0.0
    ensures u == 0.0 || v == 0.0
  {
    if u != 0.0 && v != 0.0 {
      if u > 0.0 && v > 0.0 {
        PositiveProduct(u, v);
      } else if u < 0.0 && v < 0.0 {
        PositiveProduct(-u, -v);
      } else if u < 0.0 {
        PositiveProduct(-u, v);
      } else {
        PositiveProduct(u, -v);
      }
    }
  }

  lemma DifferenceOfSquares(u: real, v: real)
    ensures Sq(u) - Sq(v) == (u - v) * (u + v)
  {
  }

  /** Two reals with the same square are equal up to sign. */
  lemma EqualSquares(u: real, v: real)
    requires Sq(u) == Sq(v)
    ensures u == v || u == -v
  {
    DifferenceOfSquares(u, v);
    ZeroProduct(u - v, u + v);
  }

  lemma SquareOfSum(u: real, v: real)
    ensures Sq(u + v) == Sq(u) + 2.0 * (u * v) + Sq(v)
  {
  }

  lemma SquareOfProduct(u: real, v: real)
    ensures Sq(u * v) == Sq(u) * Sq(v)
  {
  }

  lemma SquareOfNegation(u: real)
    ensures Sq(-u) == Sq(u)
  {
  }

  lemma DivTimes(u: real, v: real)
    requires v != 0.0
    ensures u / v * v == u
  {
  }

  lemma TimesDiv(u: real, v: real)
    requires v != 0.0
    ensures u * v / v == u
  {
  }

  lemma PositiveQuotient(u: real, v: real)
    requires u > 0.0 && v > 0.0
    ensures u / v > 0.0
  {
  }
}
