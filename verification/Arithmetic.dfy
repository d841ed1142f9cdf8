/** Products and quotients of naturals. */
module Arithmetic {
  function Div(a: nat, b: nat): nat
    requires b > 0
  {
    a / b
  }

  lemma MulLe(k: nat, a: int, b: int)
    ensures a <= b ==> k * a <= k * b && a * k <= b * k
  {
  }

  lemma DivMod(a: nat, b: nat)
    requires b > 0
    ensures a == Div(a, b) * b + a % b
  {
  }

  lemma DivUnique(a: nat, b: nat, q: nat, r: nat)
    requires a == b * q + r && r < b
    ensures Div(a, b) == q && a / b == q && a % b == r
  {
    DivMod(a, b);
    MulLe(b, q + 1, a / b);
    MulLe(b, a / b + 1, q);
  }

  lemma DivLess(a: nat, b: nat, n: nat)
    requires b > 0 && a < b * n
    ensures Div(a, b) < n
  {
    DivMod(a, b);
    MulLe(b, n, a / b);
  }

  lemma DivAtLeast(a: nat, b: nat, n: nat)
    requires b > 0 && b * n <= a
    ensures Div(a, b) >= n
  {
    DivMod(a, b);
    MulLe(b, a / b + 1, n);
  }

  lemma DivMonotone(a: nat, b: nat, d: nat)
    requires a <= b && d > 0
    ensures Div(a, d) <= Div(b, d)
  {
    DivMod(a, d);
    DivMod(b, d);
    MulLe(d, Div(b, d) + 1, Div(a, d));
  }

  /** A common factor cancels. */
  lemma DivCancel(x: nat, k: nat, w: nat)
    requires k > 0 && w > 0
    ensures k * w > 0 && Div(x * w, k * w) == Div(x, k)
  {
    var q, r := Div(x, k), x % k;
    DivMod(x, k);
    assert x * w == (k * w) * q + r * w by {
      assert (q * k + r) * w == (k * w) * q + r * w;
    }
    MulLe(w, r + 1, k);
    DivUnique(x * w, k * w, q, r * w);
  }

  lemma DivExact(x: nat, k: nat)
    requires k > 0
    ensures Div(k * x, k) == x && Div(x * k, k) == x
  {
    assert k * x == x * k;
    DivUnique(k * x, k, x, 0);
  }
}
