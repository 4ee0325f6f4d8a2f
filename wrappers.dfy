/** Option: the model's stand-in for PHP's `null` alongside a value. */
module Wrappers {
  datatype Option<+T> = None | Some(value: T) {
    function GetOr(default: T): T {
      match this
      case Some(v) => v
      case None => default
    }
  }
}

/** PHP's `max`, `min` and `(int) ceil($n / $k)` on integers. */
module Ints {
  /** `PHP_INT_MAX` and `PHP_INT_MIN` of a 64-bit build. */
  const PhpIntMax: int := 0x7FFF_FFFF_FFFF_FFFF
  const PhpIntMin: int := -0x8000_0000_0000_0000

  function Max(a: int, b: int): int {
    if a >= b then a else b
  }

  function Min(a: int, b: int): int {
    if a <= b then a else b
  }

  /** `max($lo, min($hi, $x))`. */
  function Clamp(x: int, lo: int, hi: int): int {
    Max(lo, Min(hi, x))
  }

  /** `(int) ceil($n / $k)` for a positive divisor. */
  function CeilDiv(n: nat, k: nat): nat
    requires k >= 1
  {
    (n + k - 1) / k
  }

  /** CeilDiv is the least number of k-sized pieces that cover n. */
  lemma CeilDivBounds(n: nat, k: nat, i: nat)
    requires k >= 1
    ensures i < CeilDiv(n, k) <==> i * k < n
  {
    var q := CeilDiv(n, k);
    var r := (n + k - 1) % k;
    assert n + k - 1 == q * k + r;
    if i < q {
      assert i <= q - 1;
      assert i * k <= (q - 1) * k;
    } else {
      assert i * k >= q * k;
    }
  }
}
