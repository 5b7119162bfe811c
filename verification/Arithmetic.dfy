/**
 Division and remainder by a variable: what the solver needs to be told.
 */
module Arithmetic {
  lemma NoMultiple(size: nat, n: int)
    requires size > 0 && 0 - size < size * n < size
    ensures n == 0
  {
    assert size * n == size * (n - 1) + size == size * (n + 1) - size;
    assert n >= 1 ==> size * (n - 1) >= 0;
    assert n <= -1 ==> size * (n + 1) <= 0;
  }

  lemma ModIs(x: nat, size: nat, q: nat, r: nat)
    requires size > 0 && x == size * q + r && r < size
    ensures x % size == r
  {
    var q' := x / size;
    var r' := x % size;
    assert x == size * q' + r';
    assert size * (q - q') == size * q - size * q';
    NoMultiple(size, q - q');
  }

  lemma DivIs(x: int, d: int, q: int)
    requires d > 0 && d * q <= x < d * q + d
    ensures x / d == q
  {
    var r := x / d;
    assert x == d * r + x % d;
    assert d * (q - r) == d * q - d * r;
    NoMultiple(d, q - r);
  }

  lemma DivGrows(x: int, y: int, d: int)
    requires x <= y && d > 0
    ensures x / d <= y / d
  {
    var n := x / d - y / d;
    assert x == d * (x / d) + x % d && y == d * (y / d) + y % d;
    assert d * n == d * (x / d) - d * (y / d) == d * (n - 1) + d;
    assert n >= 1 ==> d * (n - 1) >= 0;
  }
}
