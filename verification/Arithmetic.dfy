/** Facts about products and remainders, one step each. */
module Arithmetic {

  // How many values a 32-bit word has.
  const UINT32_RANGE: nat := 0x1_0000_0000

  lemma Monotone(a: nat, b: nat, c: nat)
    requires a <= b
    ensures a * c <= b * c
  {
  }

  lemma Successor(a: nat, c: nat)
    ensures (a + 1) * c == a * c + c
  {
  }

  lemma Commute(a: nat, b: nat)
    ensures a * b == b * a && (a == 0 ==> a * b == 0)
  {
  }

  lemma Associative(a: nat, b: nat, c: nat)
    ensures a * (b * c) == a * b * c
  {
  }

  lemma Remains(x: nat, d: nat)
    requires x < d
    ensures x % d == x
  {
  }

  lemma Below(a: nat, m: nat, b: nat, d: nat)
    requires a < m && b < d
    ensures a * d + b < m * d
  {
    Monotone(a + 1, m, d);
    Successor(a, d);
  }

  /** A quotient and a remainder determine each other. */
  lemma Unique(a: nat, b: nat, a': nat, b': nat, d: nat)
    requires b < d && b' < d && a * d + b == a' * d + b'
    ensures a == a' && b == b'
  {
    if a < a' {
      Below(a, a', b, d);
    } else if a' < a {
      Below(a', a, b', d);
    }
  }
}
