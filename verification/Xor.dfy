/** Bitwise exclusive or on natural numbers, the `^` of the C sources on non-negative operands. */
module BitXor {

  function Xor(a: nat, b: nat): nat
  {
    if a == 0 then b else if b == 0 then a else 2 * Xor(a / 2, b / 2) + (a + b) % 2
  }

  function Two(n: nat): (w: nat)
    ensures w > 0
  {
    if n == 0 then 1 else 2 * Two(n - 1)
  }

  lemma XorStep(a: nat, b: nat)
    ensures Xor(a, b) == 2 * Xor(a / 2, b / 2) + (a + b) % 2
    ensures Xor(a, b) / 2 == Xor(a / 2, b / 2)
    ensures Xor(a, b) % 2 == (a + b) % 2
  {
  }

  /** The recursion of `Xor`, stated on numbers given by their halves and last digits. */
  lemma XorCons(a: nat, i: nat, b: nat, j: nat)
    requires i < 2 && j < 2
    ensures Xor(2 * a + i, 2 * b + j) == 2 * Xor(a, b) + (i + j) % 2
  {
    XorStep(2 * a + i, 2 * b + j);
    assert (2 * a + i) / 2 == a && (2 * b + j) / 2 == b;
    SumParity(2 * a + i, i, 2 * b + j);
    SumParity(2 * b + j, j, i);
  }

  lemma {:induction false} XorBound(a: nat, b: nat, n: nat)
    requires a < Two(n) && b < Two(n)
    ensures Xor(a, b) < Two(n)
  {
    if n > 0 {
      XorBound(a / 2, b / 2, n - 1);
      XorStep(a, b);
    }
  }

  lemma {:induction false} XorComm(a: nat, b: nat)
    ensures Xor(a, b) == Xor(b, a)
  {
    if a != 0 && b != 0 {
      XorComm(a / 2, b / 2);
    }
  }

  lemma {:induction false} XorAssoc(a: nat, b: nat, c: nat)
    ensures Xor(Xor(a, b), c) == Xor(a, Xor(b, c))
    decreases a + b + c
  {
    if a != 0 && b != 0 && c != 0 {
      XorAssoc(a / 2, b / 2, c / 2);
      XorParity(a, b, c);
      XorStep(a, b);
      XorStep(b, c);
      XorStep(Xor(a, b), c);
      XorStep(a, Xor(b, c));
    }
  }

  lemma XorParity(a: nat, b: nat, c: nat)
    ensures (Xor(a, b) + c) % 2 == (a + Xor(b, c)) % 2
  {
    XorStep(a, b);
    XorStep(b, c);
    SumParity(Xor(a, b), a + b, c);
    SumParity(Xor(b, c), b + c, a);
  }

  lemma SumParity(x: nat, y: nat, z: nat)
    requires x % 2 == y % 2
    ensures (x + z) % 2 == (y + z) % 2
  {
  }

  lemma {:induction false} XorZero(a: nat, b: nat)
    ensures Xor(a, b) == 0 <==> a == b
  {
    if a != 0 && b != 0 {
      XorZero(a / 2, b / 2);
      XorStep(a, b);
    }
  }
}
