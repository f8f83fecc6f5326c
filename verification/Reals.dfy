/** Facts about products and quotients of reals. Products are named by parameters, which
    keeps each fact to a single product on either side. */
module Reals {
  lemma Scale(a: real, b: real, c: real, ac: real, bc: real)
    requires a <= b && c >= 0.0 && ac == a * c && bc == b * c
    ensures ac <= bc
  {
  }

  lemma ScaleStrictly(a: real, b: real, c: real, ac: real, bc: real)
    requires a > b && c > 0.0 && ac == a * c && bc == b * c
    ensures ac > bc
  {
    assert (a - b) * c > 0.0;
    assert (a - b) * c == a * c - b * c;
  }

  lemma Shrink(a: real, b: real, c: real)
    requires a <= b && c > 0.0
    ensures a / c <= b / c
  {
    var inverse := 1.0 / c;
    assert a / c == a * inverse && b / c == b * inverse;
    Scale(a, b, inverse, a / c, b / c);
  }

  lemma Distribute(a: real, b: real, c: real)
    ensures (a + b) * c == a * c + b * c
  {
  }

  lemma DivideParts(a: real, b: real, d: real)
    requires d != 0.0
    ensures (a + b) / d == a / d + b / d
  {
  }
}
