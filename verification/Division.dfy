/** Facts about quotients and remainders. */
module Division {
  lemma MulAtLeast(x: int, b: nat)
    requires x >= 1
    ensures x * b >= b
  {
    assert x * b == (x - 1) * b + b;
    assert (x - 1) * b >= 0;
  }

  lemma MulSub(x: int, y: int, b: int)
    ensures (x - y) * b == x * b - y * b
  {
  }

  lemma DivModExists(v: nat, b: nat)
    requires b > 0
    ensures v == (v / b) * b + v % b && 0 <= v % b < b
  {
  }

  lemma UniqueQuotient(b: nat, q: int, r: nat, q': int, r': nat)
    requires b > 0 && q * b + r == q' * b + r' && r < b && r' < b
    ensures q == q' && r == r'
  {
    MulSub(q, q', b);
    MulSub(q', q, b);
    if q > q' {
      MulAtLeast(q - q', b);
    } else if q' > q {
      MulAtLeast(q' - q, b);
    }
  }

  lemma DivMod(v: nat, b: nat, q: nat, r: nat)
    requires b > 0 && v == q * b + r && r < b
    ensures v / b == q && v % b == r
  {
    DivModExists(v, b);
    UniqueQuotient(b, q, r, v / b, v % b);
  }

  lemma MultipleOf(a: nat, b: nat)
    requires a > 0 && b > 0
    ensures a * b > 0 && (a * b) % b == 0
  {
    MulAtLeast(a, b);
    DivMod(a * b, b, a, 0);
  }

  lemma ExactDivision(a: nat, b: nat)
    requires b > 0 && a % b == 0
    ensures (a / b) * b == a
  {
    DivModExists(a, b);
  }

  lemma DivDiv(v: nat, n: nat)
    requires n > 0
    ensures v / 256 / n == v / (256 * n)
  {
    var a, b := v / 256, v / 256 / n;
    var r := v - b * (256 * n);
    DivModExists(a, n);
    assert b * (256 * n) == 256 * (b * n);
    assert r == 256 * (a % n) + v % 256;
    DivMod(v, 256 * n, b, r);
  }
}
