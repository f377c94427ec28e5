/** A quotient and a remainder are determined by their number. */
module Division {

  lemma AtLeastOne(size: nat, d: nat)
    requires d >= 1
    ensures size * d >= size
  {
    assert size * d == size * (d - 1) + size;
  }

  lemma SameQuotient(size: nat, q: int, r: nat, q': int, r': nat)
    requires size * q + r == size * q' + r' && r < size && r' < size
    ensures q == q' && r == r'
  {
    assert size * (q' - q) == size * q' - size * q == r - r';
    assert size * (q - q') == size * q - size * q' == r' - r;
    if q != q' {
      AtLeastOne(size, if q < q' then q' - q else q - q');
    }
  }

  lemma Quotient(n: int, size: nat, q: int, r: nat)
    requires r < size && n == size * q + r
    ensures n / size == q && n % size == r
  {
    SameQuotient(size, q, r, n / size, n % size);
  }

  lemma AddMod(a: nat, b: nat, size: nat)
    requires size > 0
    ensures (a % size + b) % size == (a + b) % size
  {
    var q, q', r := a / size, (a % size + b) / size, (a % size + b) % size;
    assert a == size * q + a % size;
    assert a % size + b == size * q' + r;
    assert a + b == size * (q + q') + r by { assert size * (q + q') == size * q + size * q'; }
    Quotient(a + b, size, q + q', r);
  }
}
