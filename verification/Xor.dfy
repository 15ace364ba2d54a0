/**
  Exclusive or of non-negative integers, bit by bit, and the group laws the checksum relies on.
  It is defined on integers, as the reduction in the service is, so no bit-vector is needed.
*/
module Xor {

  type byte = n: nat | n < 256

  function Bits(a: nat, b: nat): nat
    decreases a + b
  {
    if a == 0 && b == 0 then 0
    else 2 * Bits(a / 2, b / 2) + (a + b) % 2
  }

  lemma {:induction false} Commutes(a: nat, b: nat)
    ensures Bits(a, b) == Bits(b, a)
    decreases a + b
  {
    if a + b > 0 {
      Commutes(a / 2, b / 2);
    }
  }

  lemma {:induction false} Associates(a: nat, b: nat, c: nat)
    ensures Bits(Bits(a, b), c) == Bits(a, Bits(b, c))
    decreases a + b + c
  {
    hide Bits;
    if a == 0 && b == 0 && c == 0 {
      Zero(0);
    } else {
      var ab, bc := Bits(a, b), Bits(b, c);
      Halves(a, b);
      Halves(b, c);
      Associates(a / 2, b / 2, c / 2);
      Halves(ab, c);
      Halves(a, bc);
      Parity(ab, a + b, c);
      Parity(bc, b + c, a);
      Rebuild(Bits(ab, c), Bits(a, bc));
    }
  }

  lemma Parity(x: nat, y: nat, z: nat)
    requires x % 2 == y % 2
    ensures (x + z) % 2 == (y + z) % 2
  {
  }

  lemma Rebuild(x: nat, y: nat)
    requires x / 2 == y / 2 && x % 2 == y % 2
    ensures x == y
  {
  }

  lemma Halves(a: nat, b: nat)
    ensures Bits(a, b) / 2 == Bits(a / 2, b / 2)
    ensures Bits(a, b) % 2 == (a + b) % 2
  {
  }

  lemma {:induction false} Zero(a: nat)
    ensures Bits(a, 0) == a && Bits(0, a) == a
  {
    if a > 0 {
      Zero(a / 2);
    }
  }

  lemma {:induction false} Self(a: nat)
    ensures Bits(a, a) == 0
  {
    if a > 0 {
      Self(a / 2);
    }
  }

  lemma {:induction false} Bounded(a: nat, b: nat, bound: nat)
    requires a < bound && b < bound && IsPowerOfTwo(bound)
    ensures Bits(a, b) < bound
    decreases bound
  {
    if bound > 1 {
      Bounded(a / 2, b / 2, bound / 2);
      Halves(a, b);
    }
  }

  function TwoTo(n: nat): nat {
    if n == 0 then 1 else 2 * TwoTo(n - 1)
  }

  predicate IsPowerOfTwo(n: nat) {
    n == 1 || (n > 1 && n % 2 == 0 && IsPowerOfTwo(n / 2))
  }

  /** XOR of two bytes is a byte. */
  function Of(a: byte, b: byte): byte {
    assert IsPowerOfTwo(256) by {
      assert IsPowerOfTwo(2) && IsPowerOfTwo(4) && IsPowerOfTwo(8) && IsPowerOfTwo(16);
      assert IsPowerOfTwo(32) && IsPowerOfTwo(64) && IsPowerOfTwo(128);
    }
    Bounded(a, b, 256);
    Bits(a, b)
  }

  /** An equation can be solved for any of its three members. */
  lemma Solve(a: nat, b: nat, c: nat)
    ensures Bits(a, b) == c <==> b == Bits(a, c)
  {
    Associates(a, a, b);
    Associates(a, a, c);
    Self(a);
    Zero(b);
    Zero(c);
  }

  /** Two XORs with the same left operand agree exactly when the right operands do. */
  lemma Cancel(a: nat, b: nat, c: nat)
    ensures Bits(a, b) == Bits(a, c) <==> b == c
  {
    Solve(a, b, Bits(a, c));
    Solve(a, c, Bits(a, c));
  }

  lemma ZeroIffEqual(a: nat, b: nat)
    ensures Bits(a, b) == 0 <==> a == b
  {
    Solve(a, b, 0);
    Zero(a);
  }

  /** Swapping one summand for another changes the sum by their difference. */
  lemma Replace(l: nat, was: nat, becomes: nat, r: nat)
    ensures Bits(l, Bits(becomes, r)) == Bits(Bits(l, Bits(was, r)), Bits(was, becomes))
  {
    calc {
      Bits(Bits(l, Bits(was, r)), Bits(was, becomes));
    ==  { Associates(l, Bits(was, r), Bits(was, becomes)); }
      Bits(l, Bits(Bits(was, r), Bits(was, becomes)));
    ==  { Commutes(was, r); Associates(r, was, Bits(was, becomes)); }
      Bits(l, Bits(r, Bits(was, Bits(was, becomes))));
    ==  { Associates(was, was, becomes); Self(was); Zero(becomes); }
      Bits(l, Bits(r, becomes));
    ==  { Commutes(r, becomes); }
      Bits(l, Bits(becomes, r));
    }
  }
}
