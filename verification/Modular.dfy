/** Facts about division with remainder by a variable modulus, shared by the ring-shaped models. */
module Modular {

  lemma Monotone(b: nat, x: int, y: int)
    requires x <= y
    ensures b * x <= b * y
  {
  }

  lemma NoMultiple(b: int, d: int)
    requires 0 < b && -b < b * d < b
    ensures d == 0
  {
    if d > 0 { Monotone(b, 1, d); } else if d < 0 { Monotone(b, d, -1); }
  }

  lemma QuotientUnique(b: int, p: nat, q: int, r: int)
    requires b > 0 && p == b * q + r && 0 <= r < b
    ensures p % b == r
  {
    assert b * (q - p / b) == b * q - b * (p / b);
    NoMultiple(b, q - p / b);
  }

  lemma SlotOf(b: int, p: nat, o: nat)
    requires b > 0 && o % b == 0 && o <= p < o + b
    ensures p % b == p - o
  {
    assert p == b * (o / b) + (p - o);
    QuotientUnique(b, p, o / b, p - o);
  }

  lemma SlotShift(b: int, p: nat, i: nat)
    requires b > 0 && p % b + i < b
    ensures (p + i) % b == p % b + i
  {
    QuotientUnique(b, p + i, p / b, p % b + i);
  }

  lemma SameSlot(b: int, p: nat, q: nat)
    requires b > 0 && -b < p - q < b && p % b == q % b
    ensures p == q
  {
    assert b * (p / b - q / b) == b * (p / b) - b * (q / b);
    NoMultiple(b, p / b - q / b);
  }

  lemma NextLap(b: int, o: nat)
    requires b > 0 && o % b == 0
    ensures (o + b) % b == 0
  {
    assert b * (o / b + 1) == b * (o / b) + b;
    QuotientUnique(b, o + b, o / b + 1, 0);
  }
}
