/** Arithmetic modulo 97, kept apart from text so that every proof stays small. */
module Residues {

  predicate SameMod97(x: int, y: int) {
    x % 97 == y % 97
  }

  lemma AddMultiple(x: int, k: int)
    ensures (x + 97 * k) % 97 == x % 97
  {
  }

  lemma SameResidue(x: int, y: int)
    ensures SameMod97(x, y) <==> (x - y) % 97 == 0
  {
  }

  /** Replacing a number by its residue before shifting it keeps the residue of the sum. */
  lemma ShiftResidue(v: nat, p: nat, c: nat)
    ensures (v % 97 * p + c) % 97 == (v * p + c) % 97
  {
    var q, r := v / 97, v % 97;
    assert v * p == (97 * q + r) * p == 97 * (q * p) + r * p;
    AddMultiple(r * p + c, q * p);
  }

  /** 10 is invertible modulo 97, with inverse 68. */
  lemma CancelTen(y: int)
    requires (10 * y) % 97 == 0
    ensures y % 97 == 0
  {
    var q := (10 * y) / 97;
    assert y == 97 * (68 * q - 7 * y);
    AddMultiple(0, 68 * q - 7 * y);
  }

  /** 9 is invertible modulo 97, with inverse 54. */
  lemma CancelNine(y: int)
    ensures (9 * y) % 97 == 0 <==> y % 97 == 0
  {
    var q := (9 * y) / 97;
    if (9 * y) % 97 == 0 {
      assert y == 97 * (54 * q - 5 * y);
      AddMultiple(0, 54 * q - 5 * y);
    }
  }

  lemma MultipleOf(d: int, p: int)
    requires d % 97 == 0
    ensures (d * p) % 97 == 0
  {
    var q := d / 97;
    assert d * p == (97 * q) * p == 97 * (q * p);
    AddMultiple(0, q * p);
  }

  lemma SmallMultiple(t: int)
    requires -97 < t < 97
    ensures t % 97 == 0 <==> t == 0
  {
  }

  lemma RegroupSum(v: nat, p: nat, q: nat, w: nat)
    ensures (v * p + w) * q == v * (p * q) + w * q
  {
  }

  lemma GlueBound(r: nat, p: nat, c: nat)
    requires r <= 96 && c < p <= 10000000
    ensures r * p + c < 970000000
  {
    assert r * p <= 96 * p;
  }

  /** Two sums that differ in one scaled part differ by the scaled difference. */
  lemma Difference(h: int, v: int, w: int, p: int, t: int, x: int, y: int)
    requires x == h + v * p + t && y == h + w * p + t
    ensures x - y == (v - w) * p
  {
  }
}
