/** `getRandomSymbol`: the adaptive choice of the next prompt. The two
    Math.random draws are parameters, each a real in [0, 1). */
module Selection {
  import opened Entries
  import opened Tally

  /** A value Math.random can return. */
  predicate IsDraw(u: real)
  {
    0.0 <= u < 1.0
  }

  /** `Math.floor(u * n)`: a draw scaled to 0 .. n-1. */
  function Scale(u: real, n: nat): (i: int)
    requires IsDraw(u)
    ensures n > 0 ==> 0 <= i < n
  {
    ScaleBounds(u, n as real);
    (u * n as real).Floor
  }

  /** A draw times a non-negative x lies in [0, x], and below x when x is positive. */
  lemma ScaleBounds(u: real, x: real)
    requires IsDraw(u) && x >= 0.0
    ensures 0.0 <= u * x <= x
    ensures x > 0.0 ==> u * x < x
  {
    assert x - u * x == (1.0 - u) * x;
  }

  /** Multiplying by a positive factor keeps the strict order. */
  lemma MulStrict(a: real, b: real, x: real)
    requires a < b && x > 0.0
    ensures a * x < b * x
  {
    assert b * x - a * x == (b - a) * x;
  }

  /** Multiplying by a non-negative factor keeps the order. */
  lemma MulMonotone(a: real, b: real, x: real)
    requires a <= b && x >= 0.0
    ensures a * x <= b * x
  {
    assert b * x - a * x == (b - a) * x;
  }

  /** `symbolKeys[Math.floor(Math.random() * symbolKeys.length)]`. */
  function Pick(pool: seq<string>, u: real): (k: string)
    requires |pool| > 0 && IsDraw(u)
    ensures k in pool
  {
    pool[Scale(u, |pool|)]
  }

  /** The first draw sends the choice to the error keys: there is at least one,
      and `Math.floor(Math.random() * 100)` is below ten times their number. */
  predicate UsesErrorPool(errors: Tally, u1: real)
    requires IsDraw(u1)
  {
    |errors| > 0 && Scale(u1, 100) < 10 * |errors|
  }

  /** `getRandomSymbol(errors)`: a key of the error tally when the first draw
      selects the error pool, a key of the symbol table otherwise. */
  function RandomSymbol<L>(errors: Tally, symbols: seq<(string, L)>, u1: real, u2: real): (r: string)
    requires |symbols| > 0 && IsDraw(u1) && IsDraw(u2)
    ensures UsesErrorPool(errors, u1) ==> r in Keys(errors)
    ensures !UsesErrorPool(errors, u1) ==> r in Keys(symbols)
  {
    var pool := if UsesErrorPool(errors, u1) then Keys(errors) else Keys(symbols);
    Pick(pool, u2)
  }

  /** The error pool is used for exactly the first draws below one tenth of the
      number of error keys: with k keys, with probability min(10k, 100) percent. */
  lemma ErrorPoolChance(errors: Tally, u1: real)
    requires IsDraw(u1)
    ensures UsesErrorPool(errors, u1) <==> 10.0 * u1 < |errors| as real
  {
    var k := |errors|;
    var f := Scale(u1, 100);
    assert f as real <= u1 * 100.0 < f as real + 1.0;
    if f < 10 * k {
      assert u1 * 100.0 < (10 * k) as real;
    } else {
      assert (10 * k) as real <= u1 * 100.0;
    }
  }

  /** With ten or more error keys the error pool is always used. */
  lemma TenErrorsAlwaysUseErrorPool(errors: Tally, u1: real)
    requires IsDraw(u1) && |errors| >= 10
    ensures UsesErrorPool(errors, u1)
  {
    ErrorPoolChance(errors, u1);
  }

  /** Without error keys the whole table is always used. */
  lemma NoErrorsUsesTable<L>(symbols: seq<(string, L)>, u1: real, u2: real)
    requires |symbols| > 0 && IsDraw(u1) && IsDraw(u2)
    ensures RandomSymbol([], symbols, u1, u2) in Keys(symbols)
  {
  }

  /** When every error key is a key of the table, the choice is always a key of the table. */
  lemma RandomSymbolInTable<L>(errors: Tally, symbols: seq<(string, L)>, u1: real, u2: real)
    requires |symbols| > 0 && IsDraw(u1) && IsDraw(u2)
    requires forall k :: k in Keys(errors) ==> k in Keys(symbols)
    ensures RandomSymbol(errors, symbols, u1, u2) in Keys(symbols)
  {
  }

  /** The second draw is uniform over the pool: index i is chosen for exactly
      the draws in [i/n, (i+1)/n), an interval of width 1/n. */
  lemma PickUniform(n: nat, u: real, i: int)
    requires n > 0 && IsDraw(u)
    ensures Scale(u, n) == i <==> (i as real) / (n as real) <= u < ((i + 1) as real) / (n as real)
  {
    var m := n as real;
    var lo := (i as real) / m;
    var hi := ((i + 1) as real) / m;
    DivTimes(i as real, m);
    DivTimes((i + 1) as real, m);
    MulOrder(lo, u, m);
    MulOrder(u, hi, m);
    var f := Scale(u, n);
    assert f as real <= u * m < f as real + 1.0;
  }

  /** Dividing by a positive m and multiplying back gives the number again. */
  lemma DivTimes(a: real, m: real)
    requires m > 0.0
    ensures (a / m) * m == a
  {
  }

  /** Multiplying both sides by a positive m keeps the order and its strictness. */
  lemma MulOrder(a: real, b: real, m: real)
    requires m > 0.0
    ensures a <= b <==> a * m <= b * m
    ensures a < b <==> a * m < b * m
  {
    if a <= b {
      MulMonotone(a, b, m);
    } else {
      MulStrict(b, a, m);
    }
    if a < b {
      MulStrict(a, b, m);
    } else {
      MulMonotone(b, a, m);
    }
  }

  /** Every key of a pool can be drawn. */
  lemma PickReaches(pool: seq<string>, i: nat)
    requires i < |pool|
    ensures IsDraw((i as real) / (|pool| as real))
    ensures Pick(pool, (i as real) / (|pool| as real)) == pool[i]
  {
    var n := |pool|;
    var u := (i as real) / (n as real);
    assert u * n as real == i as real;
    assert u < 1.0 by {
      assert (i as real) < (n as real);
    }
    PickUniform(n, u, i);
  }
}
