/** Choosing one of several equal-cost paths for a flow, from src/ecmp.c and the selection that
    uses it in src/nh_common.c. */
module Ecmp {
  import opened Bits

  const TOP: U32 := 0xffff_ffff
  const HALF := 0x8000_0000
  const A := 1103515245
  const B := 12345

  // ----- the weight of a path -----

  function Stretch(x: nat): U32 {
    (A * x + B) % WORD
  }

  /** The low 31 bits of a linear congruence of the key, mixed with the index, twice over. */
  function Weight(key: U32, i: U32): U32 {
    And32(Stretch(Xor32(Stretch(And32(key, HALF - 1)), i)), HALF - 1)
  }

  lemma {:induction false} KeptBits(g: Gate, a: nat, b: nat, n: nat)
    ensures Bitwise(g, a, b, n + 1) % Pow2(n) == Bitwise(g, a, b, n)
  {
    if n > 0 {
      KeptBits(g, a / 2, b / 2, n - 1);
      var r, bit := Bitwise(g, a / 2, b / 2, n), Bit(g, a % 2, b % 2);
      RemainderSplit(bit + 2 * r, Pow2(n - 1));
      assert (bit + 2 * r) / 2 == r && (bit + 2 * r) % 2 == bit;
    } else {
      assert Pow2(0) == 1;
    }
  }

  /** Exclusive or with the same word keeps different words different. */
  lemma {:induction false} XorCancels(c: nat, a: nat, b: nat, n: nat)
    ensures Bitwise(Xor, c, a, n) == Bitwise(Xor, c, b, n) <==> a % Pow2(n) == b % Pow2(n)
  {
    if n > 0 {
      XorCancels(c / 2, a / 2, b / 2, n - 1);
      RemainderSplit(a, Pow2(n - 1));
      RemainderSplit(b, Pow2(n - 1));
      Halves(Bit(Xor, c % 2, a % 2), Bitwise(Xor, c / 2, a / 2, n - 1),
             Bit(Xor, c % 2, b % 2), Bitwise(Xor, c / 2, b / 2, n - 1));
      Halves(a % 2, a / 2 % Pow2(n - 1), b % 2, b / 2 % Pow2(n - 1));
    }
  }

  lemma Halves(b: int, h: int, b': int, h': int)
    requires 0 <= b <= 1 && 0 <= b' <= 1
    ensures b + 2 * h == b' + 2 * h' <==> b == b' && h == h'
  {
  }

  /** The multiplier is odd, so it has an inverse among the 31-bit words. */
  lemma StretchCancels(x: nat, y: nat)
    ensures Stretch(x) % HALF == Stretch(y) % HALF <==> x % HALF == y % HALF
  {
    StretchLow(x);
    StretchLow(y);
    if Stretch(x) % HALF == Stretch(y) % HALF {
      var k := (A * x + B) / HALF - (A * y + B) / HALF;
      assert A * (x - y) == k * HALF;
      assert A * 1857678181 == 1 + 954594553 * HALF;
      var m := 1857678181 * k - 954594553 * (x - y);
      Shifted(x, y, m);
    }
    if x % HALF == y % HALF {
      var k := x / HALF - y / HALF;
      assert (A * x + B) - (A * y + B) == (A * k) * HALF;
      Shifted(A * x + B, A * y + B, A * k);
    }
  }

  lemma StretchLow(x: nat)
    ensures Stretch(x) % HALF == (A * x + B) % HALF
  {
    var y := A * x + B;
    Shifted(y, y % WORD, y / WORD * 2);
  }

  lemma Shifted(x: int, y: int, m: int)
    requires x - y == m * HALF
    ensures x % HALF == y % HALF
  {
  }

  lemma Masked(x: U32)
    ensures And32(x, HALF - 1) == x % HALF
  {
    Pow2Values();
    MaskIsRemainder(x, 31, 32);
  }

  lemma XorLow(c: U32, i: U32)
    ensures Xor32(c, i) % HALF == Bitwise(Xor, c, i, 31)
  {
    Pow2Values();
    KeptBits(Xor, c, i, 31);
  }

  lemma XorCancels31(c: U32, i: U32, j: U32)
    ensures Xor32(c, i) % HALF == Xor32(c, j) % HALF <==> i % HALF == j % HALF
  {
    hide Bitwise, Xor32;
    XorLow(c, i);
    XorLow(c, j);
    Pow2Values();
    XorCancels(c, i, j, 31);
  }

  /** Two paths weigh the same for a key only when their indices agree in 31 bits. */
  lemma WeightsDiffer(key: U32, i: U32, j: U32)
    ensures Weight(key, i) == Weight(key, j) <==> i % HALF == j % HALF
  {
    hide Bitwise, And32, Xor32, Stretch;
    var c := Stretch(And32(key, HALF - 1));
    var x, y := Xor32(c, i), Xor32(c, j);
    Masked(Stretch(x));
    Masked(Stretch(y));
    StretchCancels(x, y);
    XorCancels31(c, i, j);
  }

  lemma {:induction false} XorSwaps(a: nat, b: nat, n: nat)
    ensures Bitwise(Xor, a, b, n) == Bitwise(Xor, b, a, n)
  {
    if n > 0 {
      XorSwaps(a / 2, b / 2, n - 1);
    }
  }

  /** Two keys give a path the same weight only when they agree in 31 bits. */
  lemma KeysDiffer(key: U32, key': U32, i: U32)
    ensures Weight(key, i) == Weight(key', i) <==> key % HALF == key' % HALF
  {
    hide Bitwise, And32, Stretch;
    var c, d := Stretch(And32(key, HALF - 1)), Stretch(And32(key', HALF - 1));
    XorSwaps(c, i, 32);
    XorSwaps(d, i, 32);
    hide Xor32;
    Masked(Stretch(Xor32(c, i)));
    Masked(Stretch(Xor32(d, i)));
    StretchCancels(Xor32(c, i), Xor32(d, i));
    XorCancels31(i, c, d);
    Masked(key);
    Masked(key');
    StretchCancels(And32(key, HALF - 1), And32(key', HALF - 1));
  }

  // ----- highest random weight -----

  /** The first of the paths with the highest weight. */
  ghost predicate Best(key: U32, size: U32, s: U32) {
    && s < size
    && (forall j: U32 :: j < s ==> Weight(key, j) < Weight(key, s))
    && (forall j: U32 :: s < j < size ==> Weight(key, j) <= Weight(key, s))
  }

  method HighestWeight(key: U32, size: U32) returns (selected: U32)
    ensures if size == 0 then selected == 0 else Best(key, size, selected)
  {
    hide Weight;
    selected := 0;
    var hweight := Weight(key, 0);
    var nxt: U32 := 1;
    while nxt < size
      invariant 1 <= nxt && (nxt <= size || nxt == 1)
      invariant Best(key, nxt, selected) && hweight == Weight(key, selected)
    {
      var weight := Weight(key, nxt);
      if weight > hweight {
        hweight, selected := weight, nxt;
      }
      nxt := nxt + 1;
    }
  }

  lemma BestIsUnique(key: U32, size: U32, s: U32, s': U32)
    requires Best(key, size, s) && Best(key, size, s')
    ensures s == s'
  {
    hide Weight;
    var w, w' := Weight(key, s), Weight(key, s');
    assert w <= w' && w' <= w;
  }

  /** There are no ties, so every other path weighs less. */
  lemma BestIsStrict(key: U32, size: U32, s: U32, j: U32)
    requires Best(key, size, s) && size <= HALF && j < size && j != s
    ensures Weight(key, j) < Weight(key, s)
  {
    WeightsDiffer(key, j, s);
    hide Weight;
  }

  /** When the paths past `n` go, a flow moves only if its own path went; when paths are added,
      a flow moves only to a new one. */
  lemma LeastDisruption(key: U32, n: U32, m: U32, before: U32, after: U32)
    requires 0 < n <= m && Best(key, m, before) && Best(key, n, after)
    ensures before < n <==> before == after
  {
    hide Weight;
    if before < n {
      assert Best(key, n, before);
      BestIsUnique(key, n, before, after);
    }
  }

  // ----- hash threshold -----

  function Threshold(size: U32, key: U32): nat
    requires 0 < size
  {
    key / (TOP / size)
  }

  lemma Quotient(x: nat, d: nat, r: nat)
    requires d > 0
    ensures x / d == r <==> r * d <= x < (r + 1) * d
  {
    assert (r + 1) * d == r * d + d;
    if r * d <= x < (r + 1) * d {
      RemainderUnique(x, d, r, x - r * d);
    }
  }

  /** Every path owns an equal run of keys. What is left at the top, at least one key whatever
      the size, is given the index one past the last path. */
  lemma ThresholdRegions(size: U32, key: U32)
    requires 0 < size <= 0xffff
    ensures var q, r := TOP / size, Threshold(size, key);
            && q > 0 && r <= size && r * q <= key < (r + 1) * q
            && (r < size <==> key < size * q)
            && size * q <= TOP < size * q + size && TOP - size * q == TOP % size
  {
    var q, r := TOP / size, Threshold(size, key);
    Quotient(TOP, size, q);
    Scale(size, 0xffff, q + 1);
    assert q >= 0x1_0000;
    Quotient(key, q, r);
    assert (q + 1) * size == size * q + size;
    assert (size + 1) * q == size * q + q;
    Unscale(r, size + 1, q);
    if r < size {
      Scale(r + 1, size, q);
    }
  }

  lemma Unscale(a: nat, b: nat, c: nat)
    requires a * c < b * c
    ensures a < b
  {
    if a >= b {
      Scale(b, a, c);
    }
  }

  lemma Scale(a: nat, b: nat, c: nat)
    requires a <= b
    ensures a * c <= b * c
  {
  }

  // ----- the selection -----

  datatype Mode = HashThreshold | Hrw | ModuloN | Disabled

  /** The path a flow hashes to. */
  ghost predicate Chosen(mode: Mode, size: U32, key: U32, path: nat)
    requires 0 < size
  {
    match mode
    case HashThreshold => path * (TOP / size) <= key < (path + 1) * (TOP / size)
    case Hrw => path < size && Best(key, size, path)
    case ModuloN => path < size && (key - path) % size == 0
    case Disabled => path == 0
  }

  lemma ChosenIsUnique(mode: Mode, size: U32, key: U32, p: nat, p': nat)
    requires 0 < size <= 0xffff && Chosen(mode, size, key, p) && Chosen(mode, size, key, p')
    ensures p == p'
  {
    hide Weight, Best;
    match mode
    case HashThreshold =>
      ThresholdRegions(size, key);
      Quotient(key, TOP / size, p);
      Quotient(key, TOP / size, p');
    case Hrw =>
      BestIsUnique(key, size, p, p');
    case ModuloN =>
      RemainderUnique(key, size, (key - p) / size, p);
      RemainderUnique(key, size, (key - p') / size, p');
    case Disabled =>
  }

  lemma ModuloLeaves(key: nat, size: nat)
    requires size > 0
    ensures (key - key % size) % size == 0
  {
    RemainderUnique(key - key % size, size, key / size, 0);
  }

  method Lookup(mode: Mode, size: U32, key: U32) returns (path: nat)
    requires 0 < size <= 0xffff
    ensures Chosen(mode, size, key, path) && path <= size
    ensures path < size <==> !(mode == HashThreshold && key >= size * (TOP / size))
  {
    hide Weight;
    match mode
    case HashThreshold =>
      ThresholdRegions(size, key);
      path := key / (TOP / size);
    case Hrw =>
      path := HighestWeight(key, size);
    case ModuloN =>
      ModuloLeaves(key, size);
      path := key % size;
    case Disabled =>
      path := 0;
  }

  datatype Choice = Path(index: nat) | NoPath | PastEnd

  /** The path the flow hashes to, or where that is dead the first that is not. Only the hash
      threshold looks past the end of the list, and exactly for the keys left at the top. */
  method Select(mode: Mode, dead: seq<bool>, key: U32) returns (choice: Choice)
    requires 0 < |dead| <= 0xffff
    ensures choice == PastEnd <==> mode == HashThreshold && key >= |dead| * (TOP / |dead|)
    ensures choice == NoPath ==> forall i :: 0 <= i < |dead| ==> dead[i]
    ensures choice.Path? ==> choice.index < |dead| && !dead[choice.index]
    ensures choice.Path? && !Chosen(mode, |dead|, key, choice.index) ==>
      forall i :: 0 <= i < choice.index || (0 <= i < |dead| && Chosen(mode, |dead|, key, i)) ==> dead[i]
  {
    hide Best;
    var path := Lookup(mode, |dead|, key);
    if path == |dead| {
      return PastEnd;
    }
    if dead[path] {
      ghost var first := path;
      path := 0;
      while path < |dead| && dead[path]
        invariant path <= |dead|
        invariant forall i :: 0 <= i < path ==> dead[i]
      {
        path := path + 1;
      }
      if path == |dead| {
        return NoPath;
      }
      forall i | 0 <= i < |dead| && Chosen(mode, |dead|, key, i)
        ensures dead[i]
      {
        ChosenIsUnique(mode, |dead|, key, i, first);
      }
    }
    return Path(path);
  }
}
