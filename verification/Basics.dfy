/** Small shared vocabulary. */
module Basics {

  datatype Option<+T> = None | Some(value: T)

  function Min(x: int, y: int): int {
    if x <= y then x else y
  }

  /** Subtraction on durations and instants stops at zero. */
  function Sat(x: int): nat {
    if x <= 0 then 0 else x
  }

  /** How often `x` occurs in `xs`. */
  function Count(xs: seq<int>, x: int): nat {
    if xs == [] then 0 else Count(xs[..|xs| - 1], x) + if xs[|xs| - 1] == x then 1 else 0
  }

  lemma CountAppend(xs: seq<int>, y: int, x: int)
    ensures Count(xs + [y], x) == Count(xs, x) + if y == x then 1 else 0
  {
    assert (xs + [y])[..|xs + [y]| - 1] == xs;
  }

  /** `x / y` rounded up. */
  function CeilDiv(x: nat, y: nat): nat
    requires y > 0
  {
    (x + y - 1) / y
  }

  lemma MulMono(a: int, b: int, k: nat)
    requires a <= b
    ensures a * k <= b * k
  {
  }

  lemma Distributes(k: nat, a: nat, b: nat)
    ensures k * (a + b) == k * a + k * b
  {
  }

  lemma CeilBounds(x: nat, y: nat)
    requires y > 0
    ensures CeilDiv(x, y) * y >= x
    ensures x > 0 ==> CeilDiv(x, y) >= 1 && (CeilDiv(x, y) - 1) * y < x
  {
    var q := CeilDiv(x, y);
    assert x + y - 1 == y * q + (x + y - 1) % y;
  }

  /** A count `m` whose all but one copies of `y` stay below `x + y` is at most `ceil(x / y) + 1`. */
  lemma CountByCeil(m: nat, x: nat, y: nat)
    requires y > 0
    requires (m - 1) * y < x + y
    ensures m <= CeilDiv(x, y) + 1
  {
    var q := CeilDiv(x, y);
    CeilBounds(x, y);
    if m >= q + 2 {
      MulMono(q + 1, m - 1, y);
      assert false;
    }
  }

  lemma DivUnique(n: nat, size: nat, q: nat)
    requires size > 0 && q * size <= n < q * size + size
    ensures n / size == q
  {
    var d := n / size;
    assert n == d * size + n % size;
    assert (d + 1) * size == d * size + size && (q + 1) * size == q * size + size;
    if d < q {
      MulMono(d + 1, q, size);
    } else if d > q {
      MulMono(q + 1, d, size);
    }
  }

  lemma DivMinusOne(x: nat, y: nat)
    requires x >= y > 0
    ensures (x - y) / y == x / y - 1
  {
    var d := x / y;
    assert x == d * y + x % y;
    assert (d - 1) * y == d * y - y;
    DivUnique(x - y, y, d - 1);
  }

  lemma DivMono(x: nat, x': nat, y: nat)
    requires x <= x' && y > 0
    ensures x / y <= x' / y
  {
    var d, d' := x / y, x' / y;
    assert x == d * y + x % y && x' == d' * y + x' % y;
    assert (d' + 1) * y == d' * y + y;
    if d > d' {
      MulMono(d' + 1, d, y);
    }
  }
}
