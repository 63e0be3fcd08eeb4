/** Unsigned machine words as integers, with the bitwise operators built bit by bit. */
module Bits {

  const WORD: int := 0x1_0000_0000

  type U8 = x: int | 0 <= x < 0x100
  type U16 = x: int | 0 <= x < 0x1_0000
  type U32 = x: int | 0 <= x < 0x1_0000_0000

  function Pow2(n: nat): (p: nat)
    ensures p > 0
  {
    if n == 0 then 1 else 2 * Pow2(n - 1)
  }

  lemma Pow2Values()
    ensures Pow2(0) == 0x1 && Pow2(1) == 0x2 && Pow2(2) == 0x4 && Pow2(3) == 0x8
    ensures Pow2(4) == 0x10 && Pow2(5) == 0x20 && Pow2(6) == 0x40 && Pow2(7) == 0x80
    ensures Pow2(8) == 0x100 && Pow2(9) == 0x200 && Pow2(10) == 0x400 && Pow2(11) == 0x800
    ensures Pow2(12) == 0x1000 && Pow2(13) == 0x2000 && Pow2(14) == 0x4000 && Pow2(15) == 0x8000
    ensures Pow2(16) == 0x1_0000 && Pow2(24) == 0x100_0000 && Pow2(31) == 0x8000_0000 && Pow2(32) == WORD
  {
    assert Pow2(18) == 0x4_0000 && Pow2(21) == 0x20_0000 && Pow2(24) == 0x100_0000;
    assert Pow2(27) == 0x800_0000 && Pow2(30) == 0x4000_0000;
  }

  datatype Gate = And | Or | Xor

  function Bit(g: Gate, a: int, b: int): (r: nat)
    requires 0 <= a <= 1 && 0 <= b <= 1
    ensures r <= 1
  {
    match g
    case And => if a == 1 && b == 1 then 1 else 0
    case Or => if a == 1 || b == 1 then 1 else 0
    case Xor => if a != b then 1 else 0
  }

  /** The low `n` bits of `a g b`. */
  function Bitwise(g: Gate, a: nat, b: nat, n: nat): (r: nat)
    ensures r < Pow2(n)
  {
    if n == 0 then 0 else Bit(g, a % 2, b % 2) + 2 * Bitwise(g, a / 2, b / 2, n - 1)
  }

  function And32(a: U32, b: U32): U32 { Pow2Values(); Bitwise(And, a, b, 32) }
  function Or32(a: U32, b: U32): U32 { Pow2Values(); Bitwise(Or, a, b, 32) }
  function Xor32(a: U32, b: U32): U32 { Pow2Values(); Bitwise(Xor, a, b, 32) }

  lemma MaskStep(a: nat, p: nat, n: nat)
    requires p > 0 && n > 0
    ensures Bitwise(And, a, 2 * p - 1, n) == a % 2 + 2 * Bitwise(And, a / 2, p - 1, n - 1)
  {
    var mask := 2 * p - 1;
    assert mask / 2 == p - 1 && mask % 2 == 1;
  }

  lemma {:induction false} MaskNothing(a: nat, n: nat)
    ensures Bitwise(And, a, 0, n) == 0
  {
    if n > 0 {
      MaskNothing(a / 2, n - 1);
    }
  }

  lemma {:induction false} MaskOfNothing(a: nat, n: nat)
    ensures Bitwise(And, 0, a, n) == 0
  {
    if n > 0 {
      MaskOfNothing(a / 2, n - 1);
    }
  }

  lemma {:induction false} MaskSelf(a: nat, n: nat)
    requires a < Pow2(n)
    ensures Bitwise(And, a, a, n) == a
  {
    if n > 0 {
      MaskSelf(a / 2, n - 1);
    }
  }

  function LowBits(a: nat, m: nat): nat {
    a % Pow2(m)
  }

  lemma LowBitsStep(a: nat, m: nat)
    ensures LowBits(a, 0) == 0
    ensures m > 0 ==> LowBits(a, m) == a % 2 + 2 * LowBits(a / 2, m - 1)
  {
    if m > 0 {
      RemainderSplit(a, Pow2(m - 1));
    }
  }

  lemma {:induction false} MaskIsLow(a: nat, m: nat, n: nat)
    requires m <= n
    ensures Bitwise(And, a, Pow2(m) - 1, n) == LowBits(a, m)
  {
    hide Bitwise, LowBits;
    LowBitsStep(a, m);
    if m == 0 {
      MaskNothing(a, n);
    } else {
      MaskIsLow(a / 2, m - 1, n - 1);
      MaskStep(a, Pow2(m - 1), n);
    }
  }

  /** Masking with all ones is the remainder. */
  lemma MaskIsRemainder(a: nat, m: nat, n: nat)
    requires m <= n
    ensures Bitwise(And, a, Pow2(m) - 1, n) == a % Pow2(m)
  {
    MaskIsLow(a, m, n);
  }

  lemma RemainderSplit(a: nat, p: nat)
    requires p > 0
    ensures a % (2 * p) == a % 2 + 2 * (a / 2 % p)
  {
    var h := a / 2;
    var q, r := h / p, h % p;
    assert a == 2 * (q * p + r) + a % 2;
    assert a == q * (2 * p) + (2 * r + a % 2);
    RemainderUnique(a, 2 * p, q, 2 * r + a % 2);
  }

  lemma RemainderUnique(a: int, d: int, q: int, r: int)
    requires d > 0 && 0 <= r < d && a == q * d + r
    ensures a % d == r && a / d == q
  {
    var q', r' := a / d, a % d;
    Multiple(q - q', d, r' - r);
  }

  lemma Multiple(x: int, d: int, y: int)
    requires d > 0 && x * d == y && -d < y < d
    ensures x == 0
  {
    assert x >= 1 ==> (x - 1) * d >= 0;
    assert x <= -1 ==> (-x - 1) * d >= 0;
  }

  // ----- what the operators do to each bit -----

  predicate IsSet(x: nat, j: nat) {
    x / Pow2(j) % 2 == 1
  }

  lemma HalfTwice(x: nat, p: nat)
    requires p > 0
    ensures x / (2 * p) == x / 2 / p
  {
    var h := x / 2;
    RemainderSplit(x, p);
    assert x == h / p * (2 * p) + (x % 2 + 2 * (h % p));
    RemainderUnique(x, 2 * p, h / p, x % 2 + 2 * (h % p));
  }

  lemma SetInHalf(x: nat, j: nat)
    ensures IsSet(x, 0) <==> x % 2 == 1
    ensures IsSet(x, j + 1) <==> IsSet(x / 2, j)
  {
    HalfTwice(x, Pow2(j));
  }

  lemma {:induction false} BitwiseAt(g: Gate, a: nat, b: nat, n: nat, j: nat)
    requires j < n
    ensures IsSet(Bitwise(g, a, b, n), j) <==>
            match g
            case And => IsSet(a, j) && IsSet(b, j)
            case Or => IsSet(a, j) || IsSet(b, j)
            case Xor => IsSet(a, j) != IsSet(b, j)
  {
    var bit, rest := Bit(g, a % 2, b % 2), Bitwise(g, a / 2, b / 2, n - 1);
    assert Bitwise(g, a, b, n) == bit + 2 * rest;
    hide IsSet, Bitwise, Pow2;
    SetInHalf(a, if j == 0 then 0 else j - 1);
    SetInHalf(b, if j == 0 then 0 else j - 1);
    SetInHalf(bit + 2 * rest, if j == 0 then 0 else j - 1);
    if j > 0 {
      BitwiseAt(g, a / 2, b / 2, n - 1, j - 1);
    }
  }

  /** Each bit of the result comes from the two bits in its place. */
  lemma GatesAt(a: U32, b: U32, j: nat)
    requires j < 32
    ensures IsSet(And32(a, b), j) <==> IsSet(a, j) && IsSet(b, j)
    ensures IsSet(Or32(a, b), j) <==> IsSet(a, j) || IsSet(b, j)
    ensures IsSet(Xor32(a, b), j) <==> IsSet(a, j) != IsSet(b, j)
  {
    hide IsSet, Bitwise;
    BitwiseAt(And, a, b, 32, j);
    BitwiseAt(Or, a, b, 32, j);
    BitwiseAt(Xor, a, b, 32, j);
  }

  /** A word is its bits. */
  lemma {:induction false} SameBits(a: nat, b: nat, n: nat)
    requires a < Pow2(n) && b < Pow2(n) && forall j: nat :: j < n ==> (IsSet(a, j) <==> IsSet(b, j))
    ensures a == b
  {
    if n > 0 {
      hide IsSet;
      forall j: nat | j < n - 1
        ensures IsSet(a / 2, j) <==> IsSet(b / 2, j)
      {
        SetInHalf(a, j);
        SetInHalf(b, j);
        assert IsSet(a, j + 1) <==> IsSet(b, j + 1);
      }
      SameBits(a / 2, b / 2, n - 1);
      SetInHalf(a, 0);
      SetInHalf(b, 0);
      assert IsSet(a, 0) <==> IsSet(b, 0);
    }
  }

  lemma {:induction false} RightAt(a: nat, n: nat, r: nat, j: nat)
    requires r == a / Pow2(n)
    ensures IsSet(r, j) <==> IsSet(a, n + j)
  {
    hide IsSet;
    if n > 0 {
      HalfTwice(a, Pow2(n - 1));
      RightAt(a / 2, n - 1, r, j);
      SetInHalf(a, n - 1 + j);
    }
  }

  lemma {:induction false} LeftAt(a: nat, n: nat, j: nat)
    ensures IsSet(a * Pow2(n), j) <==> j >= n && IsSet(a, j - n)
  {
    hide IsSet;
    if n > 0 {
      var b := a * Pow2(n - 1);
      assert a * Pow2(n) == 2 * b;
      SetInHalf(2 * b, if j == 0 then 0 else j - 1);
      if j > 0 {
        LeftAt(a, n - 1, j - 1);
      }
    }
  }

  lemma {:induction false} RemainderAt(a: nat, n: nat, j: nat)
    requires j < n
    ensures IsSet(a % Pow2(n), j) <==> IsSet(a, j)
  {
    hide IsSet;
    LowBitsStep(a, n);
    var r := LowBits(a / 2, n - 1);
    SetInHalf(a, if j == 0 then 0 else j - 1);
    SetInHalf(a % 2 + 2 * r, if j == 0 then 0 else j - 1);
    if j > 0 {
      RemainderAt(a / 2, n - 1, j - 1);
    }
  }
}
