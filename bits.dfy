/** Rust's unsigned bit operations (`>>`, `<<`, `&`, `|`, `!` on `u16`,
    `count_ones`) spelled out on natural numbers, and the facts about single
    bits that the candidate masks need. */
module Bits {
  import opened Primitives

  /** 2 to the power k: the value of `1 << k`. */
  function Pow2(k: nat): (r: nat)
    ensures r >= 1
  {
    if k == 0 then 1 else 2 * Pow2(k - 1)
  }

  /** `x >> k` on an unsigned value: k halvings. */
  function Shr(x: nat, k: nat): nat {
    if k == 0 then x else Shr(x / 2, k - 1)
  }

  /** Bit k of x (bit 0 is the least significant). */
  function BitAt(x: nat, k: nat): (r: nat)
    ensures r < 2
  {
    Shr(x, k) % 2
  }

  /** `a & b` */
  function And(a: nat, b: nat): nat
    decreases a
  {
    if a == 0 || b == 0 then 0
    else 2 * And(a / 2, b / 2) + (if a % 2 == 1 && b % 2 == 1 then 1 else 0)
  }

  /** `a | b` */
  function Or(a: nat, b: nat): nat
    decreases a + b
  {
    if a == 0 then b
    else if b == 0 then a
    else 2 * Or(a / 2, b / 2) + (if a % 2 == 1 || b % 2 == 1 then 1 else 0)
  }

  /** `!b` on a `u16` */
  function Not16(b: U16): U16 {
    0xFFFF - b
  }

  /** `x.count_ones()` */
  function CountOnes(x: nat): nat
    decreases x
  {
    if x == 0 then 0 else x % 2 + CountOnes(x / 2)
  }

  /** Whether the bit at 1-based position p of x is set. */
  predicate HasPosition(x: nat, p: int) {
    p >= 1 && BitAt(x, p - 1) == 1
  }

  /** The 1-based positions of the set bits of x below bit n. */
  function Ones(x: nat, n: nat): set<int> {
    set p | 1 <= p <= n && HasPosition(x, p)
  }

  /** The number of set bits of x below bit n, bit by bit. */
  function BitSum(x: nat, n: nat): nat {
    if n == 0 then 0 else BitSum(x, n - 1) + BitAt(x, n - 1)
  }

  lemma Pow2Sixteen()
    ensures Pow2(9) == 512 && Pow2(16) == 0x1_0000
  {
  }

  lemma {:induction false} AndBit(a: nat, b: nat, k: nat)
    ensures BitAt(And(a, b), k) == if BitAt(a, k) == 1 && BitAt(b, k) == 1 then 1 else 0
  {
    if k > 0 {
      assert And(a, b) / 2 == And(a / 2, b / 2);
      AndBit(a / 2, b / 2, k - 1);
    }
  }

  lemma {:induction false} Pow2Grows(j: nat, w: nat)
    requires j < w
    ensures Pow2(j) < Pow2(w)
  {
    if j < w - 1 {
      Pow2Grows(j, w - 1);
    }
  }

  /** `x & 1` is the lowest bit of x. */
  lemma AndOne(x: nat)
    ensures And(x, 1) == x % 2
  {
    if x != 0 {
      assert And(x / 2, 0) == 0;
    }
  }

  lemma {:induction false} AndBound(a: nat, b: nat)
    ensures And(a, b) <= a
    decreases a
  {
    if a != 0 && b != 0 {
      AndBound(a / 2, b / 2);
    }
  }

  lemma {:induction false} OrBit(a: nat, b: nat, k: nat)
    ensures BitAt(Or(a, b), k) == if BitAt(a, k) == 1 || BitAt(b, k) == 1 then 1 else 0
    decreases a + b
  {
    if k > 0 && a != 0 && b != 0 {
      assert Or(a, b) / 2 == Or(a / 2, b / 2);
      OrBit(a / 2, b / 2, k - 1);
    } else if k > 0 && a == 0 {
      ZeroBit(k);
    } else if k > 0 && b == 0 {
      ZeroBit(k);
    }
  }

  lemma {:induction false} OrBound(a: nat, b: nat, w: nat)
    requires a < Pow2(w) && b < Pow2(w)
    ensures Or(a, b) < Pow2(w)
    decreases a + b
  {
    if a != 0 && b != 0 {
      assert w > 0;
      OrBound(a / 2, b / 2, w - 1);
    }
  }

  lemma {:induction false} ZeroBit(k: nat)
    ensures BitAt(0, k) == 0
  {
    if k > 0 {
      ZeroBit(k - 1);
    }
  }

  /** Every bit at or above w of a value below 2^w is clear. */
  lemma {:induction false} HighBitZero(x: nat, w: nat, k: nat)
    requires x < Pow2(w) && w <= k
    ensures BitAt(x, k) == 0
  {
    if w == 0 {
      ZeroBit(k);
    } else {
      HighBitZero(x / 2, w - 1, k - 1);
    }
  }

  lemma {:induction false} NotBitWidth(b: nat, w: nat, k: nat)
    requires b < Pow2(w) && k < w
    ensures BitAt(Pow2(w) - 1 - b, k) == 1 - BitAt(b, k)
  {
    var c := Pow2(w) - 1 - b;
    assert Pow2(w) == 2 * Pow2(w - 1);
    if k > 0 {
      assert c / 2 == Pow2(w - 1) - 1 - b / 2;
      NotBitWidth(b / 2, w - 1, k - 1);
    }
  }

  lemma NotBit(b: U16, k: nat)
    requires k < 16
    ensures BitAt(Not16(b), k) == 1 - BitAt(b, k)
  {
    Pow2Sixteen();
    NotBitWidth(b, 16, k);
  }

  /** Two values below 2^w with the same bits below w are equal. */
  lemma {:induction false} BitsDetermine(a: nat, b: nat, w: nat)
    requires a < Pow2(w) && b < Pow2(w)
    requires forall k :: 0 <= k < w ==> BitAt(a, k) == BitAt(b, k)
    ensures a == b
  {
    if w > 0 {
      assert BitAt(a, 0) == BitAt(b, 0);
      forall k | 0 <= k < w - 1
        ensures BitAt(a / 2, k) == BitAt(b / 2, k)
      {
        assert BitAt(a, k + 1) == BitAt(b, k + 1);
      }
      BitsDetermine(a / 2, b / 2, w - 1);
    }
  }

  lemma {:induction false} PowBit(j: nat, k: nat)
    ensures BitAt(Pow2(j), k) == if j == k then 1 else 0
  {
    if j == 0 {
      if k > 0 {
        ZeroBit(k - 1);
      }
    } else if k > 0 {
      PowBit(j - 1, k - 1);
    }
  }

  /** Adding 2^j to a value whose bit j is clear sets bit j and no other. */
  lemma {:induction false} AddPowBit(a: nat, j: nat, k: nat)
    requires BitAt(a, j) == 0
    ensures BitAt(a + Pow2(j), k) == if k == j then 1 else BitAt(a, k)
  {
    if j == 0 {
      if k > 0 {
        assert (a + 1) / 2 == a / 2;
      }
    } else if k > 0 {
      assert (a + Pow2(j)) / 2 == a / 2 + Pow2(j - 1);
      AddPowBit(a / 2, j - 1, k - 1);
    }
  }

  /** Setting a clear bit j below w keeps a value below 2^w. */
  lemma {:induction false} AddPowBound(a: nat, j: nat, w: nat)
    requires a < Pow2(w) && j < w && BitAt(a, j) == 0
    ensures a + Pow2(j) < Pow2(w)
  {
    var half, top := a / 2, Pow2(w - 1);
    assert a == 2 * half + a % 2;
    assert Pow2(w) == 2 * top;
    if j == 0 {
      assert a % 2 == 0;
    } else {
      assert BitAt(half, j - 1) == BitAt(a, j);
      AddPowBound(half, j - 1, w - 1);
      assert half + Pow2(j - 1) < top;
      assert Pow2(j) == 2 * Pow2(j - 1);
    }
  }

  /** Adding 2^j to a `u16` whose bit j is clear adds position j + 1. */
  lemma OnesAddPow(a: nat, j: nat)
    requires j < 16 && BitAt(a, j) == 0
    ensures Ones(a + Pow2(j), 16) == Ones(a, 16) + {j + 1}
  {
    forall p | 1 <= p <= 16
      ensures HasPosition(a + Pow2(j), p) <==> HasPosition(a, p) || p == j + 1
    {
      AddPowBit(a, j, p - 1);
    }
  }

  /** OR-ing 2^j into a value adds position j + 1. */
  lemma OnesOrPow(a: nat, j: nat)
    requires j < 16
    ensures Ones(Or(a, Pow2(j)), 16) == Ones(a, 16) + {j + 1}
  {
    forall p | 1 <= p <= 16
      ensures HasPosition(Or(a, Pow2(j)), p) <==> HasPosition(a, p) || p == j + 1
    {
      OrBit(a, Pow2(j), p - 1);
      PowBit(j, p - 1);
    }
  }

  lemma {:induction false} BitSumShift(x: nat, n: nat)
    requires n >= 1
    ensures BitSum(x, n) == x % 2 + BitSum(x / 2, n - 1)
  {
    if n > 1 {
      BitSumShift(x, n - 1);
    }
  }

  lemma {:induction false} CountOnesIsBitSum(x: nat, n: nat)
    requires x < Pow2(n)
    ensures CountOnes(x) == BitSum(x, n)
  {
    if n > 0 {
      BitSumShift(x, n);
      CountOnesIsBitSum(x / 2, n - 1);
    }
  }

  lemma {:induction false} BitSumIsCard(x: nat, n: nat)
    ensures BitSum(x, n) == |Ones(x, n)|
  {
    if n > 0 {
      BitSumIsCard(x, n - 1);
      if BitAt(x, n - 1) == 1 {
        assert Ones(x, n) == Ones(x, n - 1) + {n};
      } else {
        assert Ones(x, n) == Ones(x, n - 1);
      }
    }
  }

  /** `count_ones` of a `u16` is the number of its set bit positions. */
  lemma CountOnesIsCard(x: U16)
    ensures CountOnes(x) == |Ones(x, 16)|
  {
    Pow2Sixteen();
    CountOnesIsBitSum(x, 16);
    BitSumIsCard(x, 16);
  }
}
