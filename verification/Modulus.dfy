/** Remainders: that of Dafny, which is never negative, and that of Go. */
module Modulus {

  lemma {:induction false} MulOrder(d: int, a: int, b: int)
    requires d > 0 && a < b
    ensures d * a + d <= d * b
    decreases b - a
  {
    if a + 1 < b {
      MulOrder(d, a, b - 1);
    }
    assert d * b == d * (b - 1) + d;
  }

  lemma ModUnique(x: int, d: int, q: int, r: int)
    requires d > 0 && 0 <= r < d && x == d * q + r
    ensures x % d == r
  {
    if q < x / d {
      MulOrder(d, q, x / d);
    } else if x / d < q {
      MulOrder(d, x / d, q);
    }
  }

  lemma ModShift(n: int, d: int, i: int)
    requires d > 0 && -d <= i <= d
    ensures (n + i) % d == var r := n % d + i; if r < 0 then r + d else if r < d then r else r - d
  {
    var q, r := n / d, n % d + i;
    assert n == d * q + n % d;
    if r < 0 {
      assert d * (q - 1) == d * q - d;
      ModUnique(n + i, d, q - 1, r + d);
    } else if r < d {
      ModUnique(n + i, d, q, r);
    } else {
      assert d * (q + 1) == d * q + d;
      ModUnique(n + i, d, q + 1, r - d);
    }
  }

  /** Go's remainder: its sign is that of the dividend. */
  function Rem(a: int, b: int): int
    requires b > 0
  {
    if a >= 0 then a % b else -(-a % b)
  }

  lemma RemMod(n: int, d: int)
    requires d > 0
    ensures -d < Rem(n, d) < d && Rem(n, d) % d == n % d
  {
    var r := -n % d;
    ModUnique(n % d, d, 0, n % d);
    if n < 0 {
      ModShift(0, d, -r);
      ModUnique(0, d, 0, 0);
      assert -n == d * (-n / d) + r;
      assert d * (-(-n / d)) == -(d * (-n / d));
      if r == 0 {
        ModUnique(n, d, -(-n / d), 0);
      } else {
        assert d * (-(-n / d) - 1) == d * (-(-n / d)) - d;
        ModUnique(n, d, -(-n / d) - 1, d - r);
      }
    }
  }
}
