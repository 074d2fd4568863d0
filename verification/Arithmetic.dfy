/** The few facts about products, quotients and remainders the model needs. */
module Arithmetic {

  lemma MulMono(a: nat, b: nat, c: nat)
    requires a <= b
    ensures a * c <= b * c
  {
    assert (b - a) * c >= 0;
    assert b * c == a * c + (b - a) * c;
  }

  lemma DivBounds(a: nat, b: nat)
    requires b > 0
    ensures a == (a / b) * b + a % b && 0 <= a % b < b
  {
  }

  lemma {:induction false} DivUnique(q: nat, r: nat, b: nat)
    requires r < b
    ensures (q * b + r) / b == q && (q * b + r) % b == r
  {
    var a := q * b + r;
    var q' := a / b;
    DivBounds(a, b);
    assert (q' + 1) * b == q' * b + b && (q + 1) * b == q * b + b;
    if q' < q { MulMono(q' + 1, q, b); }
    if q' > q { MulMono(q + 1, q', b); }
  }

  lemma MulDistinct(a: nat, b: nat, c: nat)
    requires a != b && c > 0
    ensures a * c != b * c
  {
    if a < b { MulMono(a + 1, b, c); assert (a + 1) * c == a * c + c; }
    else { MulMono(b + 1, a, c); assert (b + 1) * c == b * c + c; }
  }

  lemma MultipleIff(q: nat, size: nat, o: nat)
    requires size > 0
    ensures o == q * size <==> o % size == 0 && o / size == q
  {
    DivUnique(q, 0, size);
    DivBounds(o, size);
  }

  /** Comparing a quotient is comparing with multiples of the divisor. */
  lemma DivIff(a: nat, c: nat, q: nat)
    requires c > 0
    ensures a / c <= q <==> a < q * c + c
    ensures q <= a / c <==> q * c <= a
    ensures a / c == q <==> q * c <= a < q * c + c
  {
    DivBounds(a, c);
    var d := a / c;
    assert (d + 1) * c == d * c + c && (q + 1) * c == q * c + c;
    if d <= q { MulMono(d, q, c); } else { MulMono(q + 1, d, c); }
    if q <= d { MulMono(q, d, c); } else { MulMono(d + 1, q, c); }
  }
}
