/** Quotients and remainders, by what characterises them. */
module Division {
  lemma {:induction false} AtLeastOnce(d: nat, n: nat)
    requires d >= 1
    ensures d * n >= n
  {
    if d > 1 { AtLeastOnce(d - 1, n); }
  }

  lemma Distributes(a: int, b: int, n: int)
    ensures (a - b) * n == a * n - b * n
  {
  }

  lemma Apart(q: nat, q': nat, n: nat, r: nat, r': nat)
    requires r < n && r' < n && q * n + r == q' * n + r'
    ensures q >= q'
  {
    if q < q' {
      Distributes(q', q, n);
      AtLeastOnce(q' - q, n);
    }
  }

  lemma QuotientIs(a: nat, n: nat, q: nat, r: nat)
    requires n > 0 && r < n && a == q * n + r
    ensures a / n == q && a % n == r
  {
    Apart(q, a / n, n, r, a % n);
    Apart(a / n, q, n, a % n, r);
  }

  lemma ModStep(j: nat, n: nat)
    requires 0 < n <= j
    ensures (j - n) % n == j % n
  {
    QuotientIs(j - n, n, j / n - 1, j % n);
  }

  lemma {:induction false} TimesGrows(a: nat, b: nat, n: nat)
    requires a <= b
    ensures a * n <= b * n
  {
    if a < b {
      TimesGrows(a, b - 1, n);
      Distributes(b, 1, n);
    }
  }
}
