/** Division of natural numbers, for the arithmetic of ticks and of range boundaries. */
module Division {

  lemma DivBounds(d: nat, g: nat)
    requires g > 0
    ensures d / g * g <= d < d / g * g + g
  {
  }

  lemma DivAtLeast(d: nat, g: nat, q: nat)
    requires g > 0
    ensures q <= d / g <==> q * g <= d
  {
    DivBounds(d, g);
    if q <= d / g { assert q * g <= d / g * g; }
    else { assert q * g >= (d / g + 1) * g; }
  }

  lemma DivMonotone(a: nat, b: nat, g: nat)
    requires a <= b && g > 0
    ensures a / g <= b / g
  {
    DivBounds(a, g);
    DivAtLeast(b, g, a / g);
  }

  lemma DivCancels(n: nat, g: nat)
    requires g > 0
    ensures n * g / g == n
  {
    DivAtLeast(n * g, g, n);
    DivAtLeast(n * g, g, n + 1);
    assert (n + 1) * g == n * g + g;
  }
}
