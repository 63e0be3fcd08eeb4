/** What the instructions of `src/bpf_filter.c` compute, and what whole filters accept, stated on
    the bits of registers and the bytes of packets. */
module BpfPrograms {
  import opened Bits
  import opened BpfMachine
  import opened BpfFilter
  import opened BpfValidate

  // ----- arithmetic and tests -----

  /** `v` is what operation `op` gives for `a` and `b`: sums and products up to multiples of the
      word, quotients and remainders by their bounds, the others bit by bit. */
  ghost predicate Gives(op: nat, a: U32, b: U32, v: U32) {
    match op
    case 0 => (v - b) % WORD == a
    case 1 => (v + b) % WORD == a
    case 2 => (a * b - v) % WORD == 0
    case 3 => v * b <= a < v * b + b
    case 4 => forall j: nat :: j < 32 ==> (IsSet(v, j) <==> IsSet(a, j) || IsSet(b, j))
    case 5 => forall j: nat :: j < 32 ==> (IsSet(v, j) <==> IsSet(a, j) && IsSet(b, j))
    case 6 => forall j: nat :: j < 32 ==> (IsSet(v, j) <==> IsSetBelow(a, b, j))
    case 7 => forall j: nat {:trigger IsSet(v, j)} :: j < 32 ==> (IsSet(v, j) <==> IsSet(a, b + j))
    case 9 => v < b && exists q: nat :: a == q * b + v
    case 10 => forall j: nat :: j < 32 ==> (IsSet(v, j) <==> IsSet(a, j) != IsSet(b, j))
    case _ => false
  }

  lemma SameWord(a: U32, b: U32)
    ensures a == b <==> forall j: nat :: j < 32 ==> (IsSet(a, j) <==> IsSet(b, j))
  {
    Pow2Values();
    hide IsSet;
    if forall j: nat :: j < 32 ==> (IsSet(a, j) <==> IsSet(b, j)) {
      SameBits(a, b, 32);
    }
  }

  lemma GateGives(op: nat, a: U32, b: U32, v: U32)
    requires op in {4, 5, 6, 7, 10}
    ensures Alu(op, a, b) == Value(v) <==> Gives(op, a, b, v)
  {
    hide IsSet, IsSetBelow, And32, Or32, Xor32, Shl32, Shr32;
    forall j: nat | j < 32
      ensures IsSet(And32(a, b), j) <==> IsSet(a, j) && IsSet(b, j)
      ensures IsSet(Or32(a, b), j) <==> IsSet(a, j) || IsSet(b, j)
      ensures IsSet(Xor32(a, b), j) <==> IsSet(a, j) != IsSet(b, j)
      ensures IsSet(Shl32(a, b), j) <==> IsSetBelow(a, b, j)
      ensures IsSet(Shr32(a, b), j) <==> IsSet(a, b + j)
    {
      GatesAt(a, b, j);
      ShlAt(a, b, j);
      ShrAt(a, b, j);
    }
    match op
    case 4 => SameWord(Or32(a, b), v);
    case 5 => SameWord(And32(a, b), v);
    case 6 => SameWord(Shl32(a, b), v);
    case 7 => SameWord(Shr32(a, b), v);
    case _ => SameWord(Xor32(a, b), v);
  }

  lemma QuotientGives(a: U32, b: U32, v: U32)
    requires b != 0
    ensures a / b == v <==> v * b <= a < v * b + b
    ensures a % b == v <==> v < b && exists q: nat :: a == q * b + v
  {
    if v * b <= a < v * b + b {
      RemainderUnique(a, b, v, a - v * b);
    }
    if q: nat :| v < b && a == q * b + v {
      RemainderUnique(a, b, q, v);
    }
    assert a == a / b * b + a % b;
  }

  lemma SumGives(a: U32, b: U32, v: U32)
    ensures (a + b) % WORD == v <==> (v - b) % WORD == a
    ensures (a - b) % WORD == v <==> (v + b) % WORD == a
  {
    WrapsOnce(a + b);
    WrapsOnce(v + b);
    WrapsOnce(a - b);
    WrapsOnce(v - b);
  }

  lemma WrapsOnce(x: int)
    requires -WORD <= x < 2 * WORD
    ensures x % WORD == if x < 0 then x + WORD else if x < WORD then x else x - WORD
  {
  }

  /** The arithmetic instructions compute what they are named for. */
  lemma AluGives(op: nat, a: U32, b: U32, v: U32)
    ensures Alu(op, a, b) == Value(v) <==> Gives(op, a, b, v)
  {
    if op in {4, 5, 6, 7, 10} {
      GateGives(op, a, b, v);
    } else {
      hide IsSet, And32, Or32, Xor32, Shl32, Shr32;
      match op
      case 2 => Congruent(a * b, v);
      case 3 => if b != 0 { QuotientGives(a, b, v); }
      case 9 => if b != 0 { QuotientGives(a, b, v); }
      case _ => SumGives(a, b, v);
    }
  }

  lemma Congruent(x: nat, v: U32)
    ensures x % WORD == v <==> (x - v) % WORD == 0
  {
  }

  /** A bit test succeeds exactly when the words share a bit. */
  lemma SharedBit(a: U32, b: U32)
    ensures Test(4, a, b) <==> exists j: nat :: j < 32 && IsSet(a, j) && IsSet(b, j)
  {
    hide IsSet, And32;
    SameWord(And32(a, b), 0);
    forall j: nat | j < 32
      ensures IsSet(And32(a, b), j) <==> IsSet(a, j) && IsSet(b, j)
      ensures !IsSet(0, j)
    {
      GatesAt(a, b, j);
      NoBit(j);
    }
  }

  lemma NoBit(j: nat)
    ensures !IsSet(0, j)
  {
    assert 0 / Pow2(j) == 0;
  }

  // ----- single instructions on a packet whose captured part is there -----

  predicate Whole(pkt: Packet) {
    pkt.caplen <= |pkt.bytes|
  }

  lemma LoadsHalf(pkt: Packet, off: nat)
    requires Whole(pkt)
    ensures Load(pkt, off, 2) ==
            if off + 2 <= pkt.caplen then Bytes(Half(pkt.bytes[off], pkt.bytes[off + 1])) else Outside
  {
    if off + 2 <= pkt.caplen {
      BigEndianBytes(pkt.bytes[off..off + 2]);
    }
  }

  lemma LoadsByte(pkt: Packet, off: nat)
    requires Whole(pkt)
    ensures Load(pkt, off, 1) == if off < pkt.caplen then Bytes(pkt.bytes[off]) else Outside
  {
    if off < pkt.caplen {
      BigEndianBytes(pkt.bytes[off..off + 1]);
    }
  }

  function Answer(prog: seq<Insn>, pkt: Packet, pc: nat, regs: Regs): Outcome {
    Run(prog, pkt, pc, regs).outcome
  }

  /** An absolute halfword load of a program, and what follows. */
  lemma LdhThen(prog: seq<Insn>, pkt: Packet, pc: nat, regs: Regs, k: U32)
    requires pc < |prog| && prog[pc] == Insn(0x28, 0, 0, k) && Whole(pkt)
    ensures Answer(prog, pkt, pc, regs) ==
            if k + 2 <= pkt.caplen
            then Answer(prog, pkt, pc + 1, regs.(a := Half(pkt.bytes[k], pkt.bytes[k + 1]))) else Returned(0)
  {
    LoadsHalf(pkt, k);
  }

  lemma LdbThen(prog: seq<Insn>, pkt: Packet, pc: nat, regs: Regs, k: U32)
    requires pc < |prog| && prog[pc] == Insn(0x30, 0, 0, k) && Whole(pkt)
    ensures Answer(prog, pkt, pc, regs) ==
            if k < pkt.caplen then Answer(prog, pkt, pc + 1, regs.(a := pkt.bytes[k])) else Returned(0)
  {
    LoadsByte(pkt, k);
  }

  lemma LdxbThen(prog: seq<Insn>, pkt: Packet, pc: nat, regs: Regs, k: U32)
    requires pc < |prog| && prog[pc] == Insn(0xb1, 0, 0, k) && Whole(pkt)
    ensures Answer(prog, pkt, pc, regs) ==
            if k < pkt.caplen then Answer(prog, pkt, pc + 1, regs.(x := pkt.bytes[k] % 16 * 4)) else Returned(0)
  {
    LoadsByte(pkt, k);
  }

  lemma LdhxThen(prog: seq<Insn>, pkt: Packet, pc: nat, regs: Regs, k: U32)
    requires pc < |prog| && prog[pc] == Insn(0x48, 0, 0, k) && Whole(pkt)
    ensures var off := regs.x + k;
            Answer(prog, pkt, pc, regs) ==
            if off + 2 <= pkt.caplen
            then Answer(prog, pkt, pc + 1, regs.(a := Half(pkt.bytes[off], pkt.bytes[off + 1]))) else Returned(0)
  {
    LoadsHalf(pkt, regs.x + k);
  }

  lemma JeqThen(prog: seq<Insn>, pkt: Packet, pc: nat, regs: Regs, jt: U8, jf: U8, k: U32)
    requires pc < |prog| && prog[pc] == Insn(0x15, jt, jf, k)
    ensures Answer(prog, pkt, pc, regs) ==
            Answer(prog, pkt, pc + 1 + (if regs.a == k then jt else jf), regs)
  {
  }

  lemma JgtThen(prog: seq<Insn>, pkt: Packet, pc: nat, regs: Regs, jt: U8, jf: U8, k: U32)
    requires pc < |prog| && prog[pc] == Insn(0x25, jt, jf, k)
    ensures Answer(prog, pkt, pc, regs) ==
            Answer(prog, pkt, pc + 1 + (if regs.a > k then jt else jf), regs)
  {
  }

  lemma JgeThen(prog: seq<Insn>, pkt: Packet, pc: nat, regs: Regs, jt: U8, jf: U8, k: U32)
    requires pc < |prog| && prog[pc] == Insn(0x35, jt, jf, k)
    ensures Answer(prog, pkt, pc, regs) ==
            Answer(prog, pkt, pc + 1 + (if regs.a >= k then jt else jf), regs)
  {
  }

  lemma JsetThen(prog: seq<Insn>, pkt: Packet, pc: nat, regs: Regs, jt: U8, jf: U8, k: U32)
    requires pc < |prog| && prog[pc] == Insn(0x45, jt, jf, k)
    ensures Answer(prog, pkt, pc, regs) ==
            Answer(prog, pkt, pc + 1 + (if And32(regs.a, k) != 0 then jt else jf), regs)
  {
    hide And32;
  }

  lemma HasOp(op: nat, a: U32, b: U32)
    requires op in {0, 1, 2, 3, 4, 5, 6, 7, 9, 10}
    ensures !Alu(op, a, b).NoSuchOp? && (Alu(op, a, b).ZeroDivisor? <==> op in {3, 9} && b == 0)
  {
    hide And32, Or32, Xor32, Shl32, Shr32;
  }

  lemma AluCode(op: nat)
    requires op in {0, 1, 2, 3, 4, 5, 6, 7, 9, 10}
    ensures var code := op * 16 + 4; Class(code) == ALU && Op(code) == op && !UsesX(code) && Known(code)
  {
    var code := op * 16 + 4;
    assert Upper(code) == 2 * op;
  }

  lemma AluThen(prog: seq<Insn>, pkt: Packet, pc: nat, regs: Regs, op: nat, k: U32)
    requires op in {0, 1, 2, 3, 4, 5, 6, 7, 9, 10}
    requires pc < |prog| && prog[pc] == Insn(op * 16 + 4, 0, 0, k)
    ensures match Alu(op, regs.a, k)
            case Value(v) => Answer(prog, pkt, pc, regs) == Answer(prog, pkt, pc + 1, regs.(a := v))
            case _ => Answer(prog, pkt, pc, regs) == DividedByZero
  {
    HasOp(op, regs.a, k);
    AluCode(op);
    hide Alu, Known, Class, Op, UsesX;
  }

  lemma RetThen(prog: seq<Insn>, pkt: Packet, pc: nat, regs: Regs, k: U32)
    requires pc < |prog| && prog[pc] == Insn(0x06, 0, 0, k)
    ensures Answer(prog, pkt, pc, regs) == Returned(k)
  {
  }

  // ----- whole filters -----

  const ALL: U32 := 65535

  /** `proto[off] op m = v`: a byte, an operation on it, a comparison. */
  function ByteTest(off: U32, op: nat, m: U32, v: U32): seq<Insn>
    requires op in {0, 1, 2, 3, 4, 5, 6, 7, 9, 10}
  {
    [Insn(0x30, 0, 0, off), Insn(op * 16 + 4, 0, 0, m), Insn(0x15, 0, 1, v), Insn(0x06, 0, 0, ALL), Insn(0x06, 0, 0, 0)]
  }

  /** It accepts exactly the packets that have the byte, with the operation giving the value. */
  lemma ByteTestAccepts(off: U32, op: nat, m: U32, v: U32, pkt: Packet)
    requires op in {0, 1, 2, 3, 4, 5, 6, 7, 9, 10} && Whole(pkt) && (op in {3, 9} ==> m != 0)
    ensures Verdict(Code(ByteTest(off, op, m, v)), pkt) ==
            Returned(if off < pkt.caplen && Gives(op, pkt.bytes[off], m, v) then ALL else 0)
  {
    hide Run, Exec, Alu, Gives, Bit;
    var prog := ByteTest(off, op, m, v);
    assert Verdict(Code(prog), pkt) == Answer(prog, pkt, 0, BLANK);
    LdbThen(prog, pkt, 0, BLANK, off);
    if off < pkt.caplen {
      var r := BLANK.(a := pkt.bytes[off]);
      AluThen(prog, pkt, 1, r, op, m);
      HasOp(op, r.a, m);
      var w := Alu(op, r.a, m).v;
      var r' := r.(a := w);
      JeqThen(prog, pkt, 2, r', 0, 1, v);
      RetThen(prog, pkt, 3, r', ALL);
      RetThen(prog, pkt, 4, r', 0);
      AluGives(op, r.a, m, v);
    }
  }

  /** A halfword within bounds, as for a range of ports. */
  function RangeTest(off: U32, lo: U32, hi: U32): seq<Insn> {
    [Insn(0x28, 0, 0, off), Insn(0x35, 0, 2, lo), Insn(0x25, 1, 0, hi), Insn(0x06, 0, 0, ALL), Insn(0x06, 0, 0, 0)]
  }

  lemma RangeTestAccepts(off: U32, lo: U32, hi: U32, pkt: Packet)
    requires Whole(pkt)
    ensures Verdict(Code(RangeTest(off, lo, hi)), pkt) ==
            Returned(if off + 2 <= pkt.caplen && lo <= Half(pkt.bytes[off], pkt.bytes[off + 1]) <= hi then ALL else 0)
  {
    hide Run, Exec;
    var prog := RangeTest(off, lo, hi);
    assert Verdict(Code(prog), pkt) == Answer(prog, pkt, 0, BLANK);
    LdhThen(prog, pkt, 0, BLANK, off);
    if off + 2 <= pkt.caplen {
      var r := BLANK.(a := Half(pkt.bytes[off], pkt.bytes[off + 1]));
      JgeThen(prog, pkt, 1, r, 0, 2, lo);
      JgtThen(prog, pkt, 2, r, 1, 0, hi);
      RetThen(prog, pkt, 3, r, ALL);
      RetThen(prog, pkt, 4, r, 0);
    }
  }

  /** `tcp dst port p` over Ethernet and IPv4: type, protocol, first fragment, header length and
      port. */
  function TcpTo(port: U16): seq<Insn> {
    [Insn(0x28, 0, 0, 12), Insn(0x15, 0, 8, 0x800), Insn(0x30, 0, 0, 23), Insn(0x15, 0, 6, 6),
     Insn(0x28, 0, 0, 20), Insn(0x45, 4, 0, 0x1fff), Insn(0xb1, 0, 0, 14), Insn(0x48, 0, 0, 16),
     Insn(0x15, 0, 1, port), Insn(0x06, 0, 0, ALL), Insn(0x06, 0, 0, 0)]
  }

  /** The packet is IPv4 and TCP, not a later fragment, and its header is followed by a port
      that was captured and is `port`. */
  predicate IsTcpTo(port: U16, pkt: Packet)
    requires Whole(pkt)
  {
    var b := pkt.bytes;
    && pkt.caplen >= 24 && Half(b[12], b[13]) == 0x800 && b[23] == 6 && Half(b[20], b[21]) % 0x2000 == 0
    && var at := 14 + 4 * (b[14] % 16) + 2;
       at + 2 <= pkt.caplen && Half(b[at], b[at + 1]) == port
  }

  lemma FragmentBits(a: U32)
    ensures And32(a, 0x1fff) == a % 0x2000
  {
    Pow2Values();
    MaskIsRemainder(a, 13, 32);
  }

  lemma TcpToIsAcceptable(port: U16)
    ensures Acceptable(TcpTo(port))
  {
    var prog := TcpTo(port);
    assert Sound(prog[0], 0, 11) && Sound(prog[1], 1, 11) && Sound(prog[2], 2, 11) && Sound(prog[3], 3, 11);
    assert Sound(prog[4], 4, 11) && Sound(prog[5], 5, 11) && Sound(prog[6], 6, 11) && Sound(prog[7], 7, 11);
    assert Sound(prog[8], 8, 11) && Sound(prog[9], 9, 11) && Sound(prog[10], 10, 11);
    hide Sound;
  }

  /** The validator lets it through and it accepts exactly those packets. */
  lemma TcpToAccepts(port: U16, pkt: Packet)
    requires Whole(pkt)
    ensures Acceptable(TcpTo(port))
    ensures Verdict(Code(TcpTo(port)), pkt) == Returned(if IsTcpTo(port, pkt) then ALL else 0)
  {
    TcpToIsAcceptable(port);
    var prog := TcpTo(port);
    hide Run, Exec, And32, Acceptable;
    assert Verdict(Code(prog), pkt) == Answer(prog, pkt, 0, BLANK);
    LdhThen(prog, pkt, 0, BLANK, 12);
    if pkt.caplen >= 14 {
      var r := BLANK.(a := Half(pkt.bytes[12], pkt.bytes[13]));
      JeqThen(prog, pkt, 1, r, 0, 8, 0x800);
      RetThen(prog, pkt, 10, r, 0);
      if r.a == 0x800 {
        TcpProtocol(port, pkt, r);
      }
    }
  }

  lemma TcpProtocol(port: U16, pkt: Packet, r: Regs)
    requires Whole(pkt) && pkt.caplen >= 14 && Half(pkt.bytes[12], pkt.bytes[13]) == 0x800
    ensures Answer(TcpTo(port), pkt, 2, r) == Returned(if IsTcpTo(port, pkt) then ALL else 0)
  {
    var prog := TcpTo(port);
    hide Run, Exec, And32;
    LdbThen(prog, pkt, 2, r, 23);
    if pkt.caplen >= 24 {
      var r1 := r.(a := pkt.bytes[23]);
      JeqThen(prog, pkt, 3, r1, 0, 6, 6);
      RetThen(prog, pkt, 10, r1, 0);
      LdhThen(prog, pkt, 4, r1, 20);
      var r2 := r1.(a := Half(pkt.bytes[20], pkt.bytes[21]));
      JsetThen(prog, pkt, 5, r2, 4, 0, 0x1fff);
      FragmentBits(r2.a);
      RetThen(prog, pkt, 10, r2, 0);
      TcpPort(port, pkt, r2);
    }
  }

  lemma TcpPort(port: U16, pkt: Packet, r: Regs)
    requires Whole(pkt) && pkt.caplen >= 24
    ensures var at := 14 + 4 * (pkt.bytes[14] % 16) + 2;
            Answer(TcpTo(port), pkt, 6, r) ==
            Returned(if at + 2 <= pkt.caplen && Half(pkt.bytes[at], pkt.bytes[at + 1]) == port then ALL else 0)
  {
    var prog := TcpTo(port);
    hide Run, Exec;
    LdxbThen(prog, pkt, 6, r, 14);
    var r1 := r.(x := pkt.bytes[14] % 16 * 4);
    LdhxThen(prog, pkt, 7, r1, 16);
    var at := r1.x + 16;
    if at + 2 <= pkt.caplen {
      var r2 := r1.(a := Half(pkt.bytes[at], pkt.bytes[at + 1]));
      JeqThen(prog, pkt, 8, r2, 0, 1, port);
      RetThen(prog, pkt, 9, r2, ALL);
      RetThen(prog, pkt, 10, r2, 0);
    }
  }
}
