/** `m_xword` and `m_xhalf` of `src/bpf_filter.c`: big-endian reads across a chain of
    segments, compared with reads of the chain laid end to end. */
module MbufChain {
  import opened Bits
  import opened BpfMachine

  type Chain = seq<seq<U8>>

  /** `Overrun`: a byte was taken past the end of the data of its segment. */
  datatype Read = Got(v: int) | Bad | Overrun

  function Flat(c: Chain): seq<U8> {
    if c == [] then [] else Flat(c[..|c| - 1]) + c[|c| - 1]
  }

  /** Where segment `i` begins in the flattened chain. */
  function Start(c: Chain, i: nat): nat
    requires i <= |c|
  {
    if i == 0 then 0 else Start(c, i - 1) + |c[i - 1]|
  }

  /** Byte `k` of the chain lies in segment `i`. */
  predicate Holds(c: Chain, i: nat, k: nat) {
    i < |c| && Start(c, i) <= k < Start(c, i + 1)
  }

  /** Where the segment after `i` ends, or segment `i` itself when it is the last. */
  function EndOfTwo(c: Chain, i: nat): nat
    requires i < |c|
  {
    if i + 1 < |c| then Start(c, i + 2) else Start(c, i + 1)
  }

  lemma StartOfPrefix(c: Chain, n: nat, i: nat)
    requires i <= n <= |c|
    ensures Start(c[..n], i) == Start(c, i)
  {
    if i > 0 {
      StartOfPrefix(c, n, i - 1);
    }
  }

  lemma {:induction false} FlatLength(c: Chain)
    ensures |Flat(c)| == Start(c, |c|)
  {
    if c != [] {
      FlatLength(c[..|c| - 1]);
      StartOfPrefix(c, |c| - 1, |c| - 1);
    }
  }

  lemma {:induction false} FlatAt(c: Chain, i: nat, j: nat)
    requires i < |c| && j < |c[i]|
    ensures Start(c, i) + j < |Flat(c)| && Flat(c)[Start(c, i) + j] == c[i][j]
  {
    var init := c[..|c| - 1];
    FlatLength(c);
    FlatLength(init);
    StartOfPrefix(c, |c| - 1, |c| - 1);
    StartOfPrefix(c, |c| - 1, if i < |c| - 1 then i else 0);
    if i < |c| - 1 {
      FlatAt(init, i, j);
    }
  }

  lemma StartMonotone(c: Chain, i: nat, j: nat)
    requires i <= j <= |c|
    ensures Start(c, i) <= Start(c, j)
  {
    if i < j {
      StartMonotone(c, i, j - 1);
    }
  }

  lemma HolderIsUnique(c: Chain, i: nat, j: nat, k: nat)
    requires Holds(c, i, k) && Holds(c, j, k)
    ensures i == j
  {
    if i < j {
      StartMonotone(c, i + 1, j);
    } else if j < i {
      StartMonotone(c, j + 1, i);
    }
  }

  /** Walk to the segment that holds byte `k`; `i == |c|` when the chain is too short. */
  method Locate(c: Chain, k: nat) returns (i: nat, off: nat)
    requires c != []
    ensures i <= |c| && Start(c, i) + off == k
    ensures i < |c| ==> off < |c[i]| && Holds(c, i, k)
    ensures i == |c| <==> k >= |Flat(c)|
    ensures forall j: nat :: Holds(c, j, k) ==> j == i < |c|
  {
    FlatLength(c);
    i, off := 0, k;
    while off >= |c[i]|
      invariant i < |c| && Start(c, i) + off == k
      decreases |c| - i
    {
      off := off - |c[i]|;
      i := i + 1;
      if i == |c| {
        forall j: nat | j < i
          ensures !Holds(c, j, k)
        {
          StartMonotone(c, j + 1, i);
        }
        return;
      }
    }
    StartMonotone(c, i + 1, |c|);
    forall j: nat | Holds(c, j, k)
      ensures j == i
    {
      HolderIsUnique(c, i, j, k);
    }
  }

  /** What is left of segment `i` from `off` on, and the segment after it, if there is one. */
  function Ahead(c: Chain, i: nat, off: nat): seq<U8>
    requires i < |c| && off <= |c[i]|
  {
    c[i][off..] + if i + 1 < |c| then c[i + 1] else []
  }

  lemma AheadEnds(c: Chain, i: nat, off: nat)
    requires i < |c| && off < |c[i]|
    ensures EndOfTwo(c, i) == Start(c, i) + off + |Ahead(c, i, off)|
    ensures Start(c, i + 1) == Start(c, i) + |c[i]|
  {
    assert i + 1 < |c| ==> Start(c, i + 2) == Start(c, i + 1) + |c[i + 1]|;
  }

  lemma AheadAt(c: Chain, i: nat, off: nat, j: nat)
    requires i < |c| && off <= |c[i]| && j < |Ahead(c, i, off)|
    ensures var k := Start(c, i) + off; k + j < |Flat(c)| && Flat(c)[k + j] == Ahead(c, i, off)[j]
  {
    hide Flat;
    if off + j < |c[i]| {
      FlatAt(c, i, off + j);
    } else {
      FlatAt(c, i + 1, off + j - |c[i]|);
    }
  }

  /** Bytes of the chain that lie in segment `i` or the one after it. */
  lemma TwoSegments(c: Chain, i: nat, off: nat, n: nat)
    requires i < |c| && off < |c[i]| && 0 < n <= |Ahead(c, i, off)|
    ensures var k := Start(c, i) + off;
            k + n <= |Flat(c)| && Flat(c)[k..k + n] == Ahead(c, i, off)[..n]
  {
    hide Flat, Start, Ahead;
    var k, b := Start(c, i) + off, Ahead(c, i, off);
    forall j | 0 <= j < n
      ensures k + j < |Flat(c)| && Flat(c)[k + j] == b[j]
    {
      AheadAt(c, i, off, j);
    }
    AheadAt(c, i, off, n - 1);
  }

  lemma HalfValue(s: seq<U8>)
    requires |s| >= 2
    ensures BigEndian(s[..2]) == ExtractShort(s[0], s[1])
  {
    hide ExtractLong, ExtractShort;
    ExtractIsSum(s[0], s[1], 0, 0);
    BigEndianBytes(s[..2]);
  }

  lemma WordValue(s: seq<U8>)
    requires |s| >= 4
    ensures BigEndian(s[..4]) == ExtractLong(s[0], s[1], s[2], s[3])
  {
    hide ExtractLong, ExtractShort;
    ExtractIsSum(s[0], s[1], s[2], s[3]);
    BigEndianBytes(s[..4]);
  }

  /** Up to three bytes of one segment and the rest from the next. */
  function Straddling(cp: seq<U8>, np: seq<U8>): U32
    requires 0 < |cp| < 4 <= |cp| + |np|
  {
    match |cp|
    case 1 => ExtractLong(cp[0], np[0], np[1], np[2])
    case 2 => ExtractLong(cp[0], cp[1], np[0], np[1])
    case _ => ExtractLong(cp[0], cp[1], cp[2], np[0])
  }

  lemma StraddlingIs(cp: seq<U8>, np: seq<U8>)
    requires 0 < |cp| < 4 <= |cp| + |np|
    ensures var s := cp + np; Straddling(cp, np) == ExtractLong(s[0], s[1], s[2], s[3])
  {
    hide ExtractLong;
  }

  /** A word read succeeds exactly when its four bytes exist in at most two adjacent
      segments, and then it is the big-endian read of the flattened chain. */
  method XWord(c: Chain, k: U32) returns (r: Read)
    requires c != []
    ensures r.Got? || r.Bad?
    ensures r.Got? <==> exists i: nat :: Holds(c, i, k) && k + 4 <= EndOfTwo(c, i)
    ensures r.Got? ==> k + 4 <= |Flat(c)| && r.v == BigEndian(Flat(c)[k..k + 4])
  {
    hide Flat, Holds, Start, EndOfTwo, BigEndian, Word, ExtractLong, Straddling;
    var i, off := Locate(c, k);
    if i == |c| {
      return Bad;
    }
    AheadEnds(c, i, off);
    var cp := c[i][off..];
    if |cp| < 4 && (i + 1 == |c| || |c[i + 1]| + |cp| < 4) {
      return Bad;
    }
    TwoSegments(c, i, off, 4);
    WordValue(Ahead(c, i, off));
    if |cp| >= 4 {
      return Got(ExtractLong(cp[0], cp[1], cp[2], cp[3]));
    }
    StraddlingIs(cp, c[i + 1]);
    return Got(Straddling(cp, c[i + 1]));
  }

  /** A halfword read does not look at the length of the next segment: it is right exactly
      when the two bytes exist in at most two adjacent segments, and when its second byte
      should come from an empty segment it takes a byte that is not in the packet. */
  method XHalf(c: Chain, k: U32) returns (r: Read)
    requires c != []
    ensures r.Got? <==> exists i: nat :: Holds(c, i, k) && k + 2 <= EndOfTwo(c, i)
    ensures r.Got? ==> k + 2 <= |Flat(c)| && r.v == BigEndian(Flat(c)[k..k + 2])
    ensures r.Overrun? <==>
      exists i: nat :: Holds(c, i, k) && k + 1 == Start(c, i + 1) && i + 1 < |c| && c[i + 1] == []
  {
    hide Flat, Holds, Start, EndOfTwo, BigEndian, ExtractShort;
    var i, off := Locate(c, k);
    if i == |c| {
      return Bad;
    }
    AheadEnds(c, i, off);
    var cp := c[i][off..];
    if |cp| < 2 && i + 1 == |c| {
      return Bad;
    }
    if |cp| < 2 && c[i + 1] == [] {
      return Overrun;
    }
    TwoSegments(c, i, off, 2);
    HalfValue(Ahead(c, i, off));
    r := Got(if |cp| >= 2 then ExtractShort(cp[0], cp[1]) else ExtractShort(cp[0], c[i + 1][0]));
  }

  // ----- the interpreter's loads from a chain -----

  /** Bytes `k` to `k + n` exist in at most two adjacent segments. */
  ghost predicate Adjacent(c: Chain, k: nat, n: nat) {
    exists i: nat :: Holds(c, i, k) && k + n <= EndOfTwo(c, i)
  }

  /** Byte `k` ends its segment and the next one is empty. */
  ghost predicate BeforeEmpty(c: Chain, k: nat) {
    exists i: nat :: Holds(c, i, k) && k + 1 == Start(c, i + 1) && i + 1 < |c| && c[i + 1] == []
  }

  datatype ChainLoad = GoOn(a: int) | NoMatch | PastSegment

  /** The loads of the switch when the buffer length is zero and the packet is a chain. The
      offset of an indexed load wraps. A word or byte that cannot be had ends the program with
      no match, but an absolute halfword that cannot be had counts as zero: its error is not
      looked at. */
  method LoadFromChain(c: Chain, width: nat, indexed: bool, x: U32, k: U32) returns (r: ChainLoad)
    requires c != [] && width in {1, 2, 4}
    ensures var off := if indexed then (x + k) % WORD else k;
            && (Adjacent(c, off, width) ==>
                  off + width <= |Flat(c)| && r == GoOn(BigEndian(Flat(c)[off..off + width])))
            && (!Adjacent(c, off, width) ==>
                  r == if width != 2 then NoMatch
                       else if BeforeEmpty(c, off) then PastSegment
                       else if indexed then NoMatch else GoOn(0))
  {
    var off := if indexed then (x + k) % WORD else k;
    if width == 4 {
      var v := XWord(c, off);
      r := if v.Got? then GoOn(v.v) else NoMatch;
    } else if width == 2 {
      var v := XHalf(c, off);
      r := if v.Got? then GoOn(v.v) else if v.Overrun? then PastSegment else if indexed then NoMatch else GoOn(0);
    } else {
      var i, at := Locate(c, off);
      if i < |c| {
        OneByte(c, i, at);
        r := GoOn(c[i][at]);
      } else {
        r := NoMatch;
      }
    }
  }

  lemma OneByte(c: Chain, i: nat, off: nat)
    requires i < |c| && off < |c[i]|
    ensures var k := Start(c, i) + off;
            && k + 1 <= EndOfTwo(c, i) && k + 1 <= |Flat(c)| && BigEndian(Flat(c)[k..k + 1]) == c[i][off]
  {
    var k := Start(c, i) + off;
    AheadEnds(c, i, off);
    FlatAt(c, i, off);
    assert Flat(c)[k..k + 1] == [c[i][off]];
    BigEndianBytes([c[i][off]]);
  }
}
