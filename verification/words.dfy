/**
 * Fixed-width unsigned words (C# uint and ulong) as natural numbers below
 * 2^width, with the bitwise operators the simulation uses defined bit by bit.
 */
module Words {

  const Word32 := 0x1_0000_0000
  const Word64 := 0x1_0000_0000_0000_0000

  function Pow2(n: nat): (p: nat)
    ensures p >= 1
  {
    if n == 0 then 1 else 2 * Pow2(n - 1)
  }

  lemma {:induction false} Pow2Add(a: nat, b: nat)
    ensures Pow2(a + b) == Pow2(a) * Pow2(b)
  {
    if a > 0 {
      Pow2Add(a - 1, b);
    }
  }

  lemma {:induction false} Pow2Monotone(a: nat, b: nat)
    requires a <= b
    ensures Pow2(a) <= Pow2(b)
  {
    if a < b {
      Pow2Monotone(a, b - 1);
    }
  }

  lemma Pow2Widths()
    ensures Pow2(32) == Word32
    ensures Pow2(64) == Word64
  {
    Pow2Width32();
    Pow2Add(32, 32);
  }

  lemma Pow2Width32()
    ensures Pow2(32) == Word32
  {
    assert Pow2(8) == 256;
    Pow2Add(8, 8);
    Pow2Add(16, 16);
  }

  /** Bit j of m. */
  predicate TestBit(m: nat, j: nat) {
    if j == 0 then m % 2 == 1 else TestBit(m / 2, j - 1)
  }

  /** m >> s: s halvings. */
  function Shr(m: nat, s: nat): nat {
    if s == 0 then m else Shr(m / 2, s - 1)
  }

  /** Bitwise exclusive or of the low `width` bits of a and b. */
  function Xor(a: nat, b: nat, width: nat): (r: nat)
    ensures r < Pow2(width)
  {
    if width == 0 then 0
    else (if a % 2 == b % 2 then 0 else 1) + 2 * Xor(a / 2, b / 2, width - 1)
  }

  /** Bitwise and of the low `width` bits of a and b. */
  function And(a: nat, b: nat, width: nat): (r: nat)
    ensures r < Pow2(width)
  {
    if width == 0 then 0
    else (if a % 2 == 1 && b % 2 == 1 then 1 else 0) + 2 * And(a / 2, b / 2, width - 1)
  }

  /** Bitwise complement of the low `width` bits of b. */
  function Not(b: nat, width: nat): (r: nat)
    ensures r < Pow2(width)
  {
    if width == 0 then 0
    else (1 - b % 2) + 2 * Not(b / 2, width - 1)
  }

  /** Exclusive or with a fixed word is injective on words of the given width. */
  lemma {:induction false} XorCancel(a: nat, x: nat, y: nat, width: nat)
    requires x < Pow2(width) && y < Pow2(width)
    ensures Xor(a, x, width) == Xor(a, y, width) <==> x == y
  {
    if width > 0 {
      XorCancel(a / 2, x / 2, y / 2, width - 1);
    }
  }

  lemma {:induction false} XorSymmetric(a: nat, b: nat, width: nat)
    ensures Xor(a, b, width) == Xor(b, a, width)
  {
    if width > 0 {
      XorSymmetric(a / 2, b / 2, width - 1);
    }
  }

  /** The bits of a & b are the bits set in both. */
  lemma {:induction false} AndBits(a: nat, b: nat, width: nat, j: nat)
    requires j < width
    ensures TestBit(And(a, b, width), j) <==> TestBit(a, j) && TestBit(b, j)
  {
    if j > 0 {
      AndBits(a / 2, b / 2, width - 1, j - 1);
    }
  }

  /** The bits of ~b are the bits not set in b. */
  lemma {:induction false} NotBits(b: nat, width: nat, j: nat)
    requires j < width
    ensures TestBit(Not(b, width), j) <==> !TestBit(b, j)
  {
    if j > 0 {
      NotBits(b / 2, width - 1, j - 1);
    }
  }

  /** 1 << i has exactly bit i set. */
  lemma {:induction false} SingleBit(i: nat, j: nat)
    ensures TestBit(Pow2(i), j) <==> i == j
  {
    if i > 0 && j > 0 {
      SingleBit(i - 1, j - 1);
    } else if j > 0 {
      ZeroHasNoBits(j - 1);
    }
  }

  lemma {:induction false} ZeroHasNoBits(j: nat)
    ensures !TestBit(0, j)
  {
    if j > 0 {
      ZeroHasNoBits(j - 1);
    }
  }

  /** A word of the given width with no bit set is zero. */
  lemma {:induction false} NoBitsIsZero(m: nat, width: nat)
    requires m < Pow2(width)
    requires forall j :: 0 <= j < width ==> !TestBit(m, j)
    ensures m == 0
  {
    if width > 0 {
      assert !TestBit(m, 0);
      forall j | 0 <= j < width - 1
        ensures !TestBit(m / 2, j)
      {
        assert !TestBit(m, j + 1);
      }
      NoBitsIsZero(m / 2, width - 1);
    }
  }

  /** Bits at or above the width of a word are clear. */
  lemma {:induction false} HighBitsClear(m: nat, width: nat, j: nat)
    requires m < Pow2(width) && width <= j
    ensures !TestBit(m, j)
  {
    if j > 0 {
      if width > 0 {
        HighBitsClear(m / 2, width - 1, j - 1);
      } else {
        ZeroHasNoBits(j - 1);
      }
    }
  }

  /** The bits of 2^n - 1 are exactly 0 .. n-1. */
  lemma {:induction false} AllOnesBits(n: nat, j: nat)
    ensures TestBit(Pow2(n) - 1, j) <==> j < n
  {
    if n == 0 {
      ZeroHasNoBits(j);
    } else if j > 0 {
      AllOnesBits(n - 1, j - 1);
    }
  }

  /** Bit j of m >> s is bit j + s of m. */
  lemma {:induction false} ShrBits(m: nat, s: nat, j: nat)
    ensures TestBit(Shr(m, s), j) <==> TestBit(m, j + s)
  {
    if s > 0 {
      ShrBits(m / 2, s - 1, j);
    }
  }

  /** m >> s never exceeds m. */
  lemma {:induction false} ShrNotGreater(m: nat, s: nat)
    ensures Shr(m, s) <= m
  {
    if s > 0 {
      ShrNotGreater(m / 2, s - 1);
    }
  }

  /** m & (1 << i) is non-zero exactly when bit i of m is set. */
  lemma AndWithBit(m: nat, i: nat, width: nat)
    requires i < width
    ensures And(m, Pow2(i), width) != 0 <==> TestBit(m, i)
  {
    if TestBit(m, i) {
      AndBits(m, Pow2(i), width, i);
      SingleBit(i, i);
      ZeroHasNoBits(i);
    } else {
      forall j | 0 <= j < width
        ensures !TestBit(And(m, Pow2(i), width), j)
      {
        AndBits(m, Pow2(i), width, j);
        SingleBit(i, j);
      }
      NoBitsIsZero(And(m, Pow2(i), width), width);
    }
  }

  /** m & ~(1 << i) keeps the bits of m below the width, except bit i. */
  lemma AndNotBit(m: nat, i: nat, width: nat, j: nat)
    requires i < width
    ensures TestBit(And(m, Not(Pow2(i), width), width), j) <==> TestBit(m, j) && j != i && j < width
  {
    if j < width {
      AndBits(m, Not(Pow2(i), width), width, j);
      NotBits(Pow2(i), width, j);
      SingleBit(i, j);
    } else {
      HighBitsClear(And(m, Not(Pow2(i), width), width), width, j);
    }
  }
}
