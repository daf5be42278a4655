/** Machine words written as numbers, and what the bitwise operations do bit by bit. */
module Words {

  predicate Bit(word: nat, j: nat) {
    if j == 0 then word % 2 == 1 else Bit(word / 2, j - 1)
  }

  function And(x: nat, y: nat): nat {
    if x == 0 || y == 0 then 0 else 2 * And(x / 2, y / 2) + (if x % 2 == 1 && y % 2 == 1 then 1 else 0)
  }

  /** ~x on `width` bits. */
  function Not(x: nat, width: nat): nat {
    if width == 0 then 0 else 2 * Not(x / 2, width - 1) + (1 - x % 2)
  }

  /** 1u << n */
  function Pow2(n: nat): nat {
    if n == 0 then 1 else 2 * Pow2(n - 1)
  }

  lemma {:induction false} ZeroBit(j: nat)
    ensures !Bit(0, j)
  {
    if j > 0 {
      ZeroBit(j - 1);
    }
  }

  lemma {:induction false} AndBit(x: nat, y: nat, j: nat)
    ensures Bit(And(x, y), j) <==> Bit(x, j) && Bit(y, j)
  {
    if x == 0 || y == 0 {
      ZeroBit(j);
    } else if j > 0 {
      AndBit(x / 2, y / 2, j - 1);
    }
  }

  lemma NotParts(x: nat, width: nat)
    requires width > 0
    ensures Not(x, width) / 2 == Not(x / 2, width - 1) && (Not(x, width) % 2 == 1 <==> x % 2 == 0)
  {
  }

  lemma {:induction false} NotBit(x: nat, width: nat, j: nat)
    ensures Bit(Not(x, width), j) <==> j < width && !Bit(x, j)
    decreases j
  {
    if width == 0 {
      ZeroBit(j);
    } else {
      NotParts(x, width);
      if j > 0 {
        NotBit(x / 2, width - 1, j - 1);
      }
    }
  }

  lemma {:induction false} Pow2Bit(i: nat, j: nat)
    ensures Bit(Pow2(i), j) <==> j == i
  {
    if i == 0 && j > 0 {
      ZeroBit(j - 1);
    } else if i > 0 && j > 0 {
      Pow2Bit(i - 1, j - 1);
    }
  }

  /** Bitwise exclusive or. */
  function Xor(a: nat, b: nat): nat {
    if a == 0 && b == 0 then 0 else 2 * Xor(a / 2, b / 2) + (a + b) % 2
  }

  lemma XorParts(a: nat, b: nat)
    ensures Xor(a, b) / 2 == Xor(a / 2, b / 2) && Xor(a, b) % 2 == (a + b) % 2
  {
  }

  lemma LowXor(a: nat, b: nat)
    ensures (a + b) % 2 == 1 <==> (a % 2 == 1) != (b % 2 == 1)
  {
  }

  lemma {:induction false} XorBit(a: nat, b: nat, j: nat)
    ensures Bit(Xor(a, b), j) <==> Bit(a, j) != Bit(b, j)
    decreases j
  {
    XorParts(a, b);
    if j == 0 {
      LowXor(a, b);
    } else {
      XorBit(a / 2, b / 2, j - 1);
    }
  }
}
