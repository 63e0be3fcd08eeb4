/** `bpf_validate` of `src/bpf_filter.c`, and what its acceptance buys: an accepted program
    cannot get stuck, whatever the packet. */
module BpfValidate {
  import opened Bits
  import opened BpfMachine
  import opened BpfFilter

  // ----- the bitmap of valid codes -----

  function CodeMap(row: nat): nat {
    match row
    case 0 => 0x10ff
    case 1 => 0x3070
    case 2 => 0x3131
    case 3 => 0x3031
    case 4 => 0x3131
    case 5 => 0x1011
    case 6 => 0x1013
    case 7 => 0x1010
    case 8 => 0x0093
    case 9 => 0x1010
    case 10 => 0x1010
    case 11 => 0x0002
    case _ => 0x0000
  }

  /** `w & (1 << bit)` is not zero. */
  predicate HasBit(w: nat, bit: nat) {
    match bit
    case 0 => w % 2 == 1
    case 1 => w / 0x2 % 2 == 1
    case 2 => w / 0x4 % 2 == 1
    case 3 => w / 0x8 % 2 == 1
    case 4 => w / 0x10 % 2 == 1
    case 5 => w / 0x20 % 2 == 1
    case 6 => w / 0x40 % 2 == 1
    case 7 => w / 0x80 % 2 == 1
    case 8 => w / 0x100 % 2 == 1
    case 9 => w / 0x200 % 2 == 1
    case 10 => w / 0x400 % 2 == 1
    case 11 => w / 0x800 % 2 == 1
    case 12 => w / 0x1000 % 2 == 1
    case 13 => w / 0x2000 % 2 == 1
    case 14 => w / 0x4000 % 2 == 1
    case 15 => w / 0x8000 % 2 == 1
    case _ => false
  }

  predicate InRow(row: nat, bit: nat) {
    HasBit(CodeMap(row), bit)
  }

  predicate ValidCode(c: U16) {
    c <= 0xff && InRow(c / 16, c % 16)
  }

  lemma RowsLow(row: nat, bit: nat)
    requires row < 2 && bit < 16
    ensures InRow(row, bit) <==> Listed(16 * row + bit)
  {
  }

  lemma RowsLoad(row: nat, bit: nat)
    requires 2 <= row < 4 && bit < 16
    ensures InRow(row, bit) <==> Listed(16 * row + bit)
  {
  }

  lemma RowsMiddle(row: nat, bit: nat)
    requires 4 <= row < 7 && bit < 16
    ensures InRow(row, bit) <==> Listed(16 * row + bit)
  {
  }

  lemma RowsHigh(row: nat, bit: nat)
    requires 7 <= row < 16 && bit < 16
    ensures InRow(row, bit) <==> Listed(16 * row + bit)
  {
  }

  /** The sixteen hexadecimal rows admit exactly the codes that have a meaning. */
  lemma BitmapIsExact(c: U16)
    ensures ValidCode(c) <==> Known(c)
  {
    KnownIsListed(c);
    if c <= 0xff {
      var row, bit := c / 16, c % 16;
      assert c == 16 * row + bit;
      if row < 2 {
        RowsLow(row, bit);
      } else if row < 4 {
        RowsLoad(row, bit);
      } else if row < 7 {
        RowsMiddle(row, bit);
      } else {
        RowsHigh(row, bit);
      }
    }
  }

  // ----- what acceptance means -----

  predicate TouchesScratch(i: Insn) {
    Class(i.code) in {ST, STX} || (Class(i.code) in {LD, LDX} && Mode(i.code) == 3)
  }

  predicate DividesByK(i: Insn) {
    Class(i.code) == ALU && Op(i.code) in {3, 9} && !UsesX(i.code)
  }

  /** Wherever a jump can go, it lands inside a program of `len` instructions. */
  predicate LandsInside(i: Insn, pc: nat, len: nat) {
    if Op(i.code) == 0 then pc + 1 + i.k < len else pc + 1 + i.jt < len && pc + 1 + i.jf < len
  }

  predicate Sound(i: Insn, pc: nat, len: nat) {
    && Known(i.code)
    && (Class(i.code) == JMP ==> LandsInside(i, pc, len))
    && (TouchesScratch(i) ==> i.k < MEMWORDS)
    && (DividesByK(i) ==> i.k != 0)
  }

  /** An empty filter is accepted; any other must be sound everywhere and end in a return. */
  ghost predicate Acceptable(prog: seq<Insn>) {
    prog != [] ==>
      && (forall pc :: 0 <= pc < |prog| ==> Sound(prog[pc], pc, |prog|))
      && Class(prog[|prog| - 1].code) == RET
  }

  /** The body of the validator's loop, with the source's numeric codes. */
  method CheckInsn(p: Insn, i: nat, len: nat) returns (ok: bool)
    requires i < len < 0x8000_0000
    ensures ok <==> Sound(p, i, len)
  {
    BitmapIsExact(p.code);
    KnownIsListed(p.code);
    if !ValidCode(p.code) {
      return false;
    }
    if p.code % 8 == 5 {
      var offset := if p.code == 0x05 then p.k else if p.jt > p.jf then p.jt else p.jf;
      return offset < len - i - 1;
    }
    if p.code == 0x02 || p.code == 0x03 || p.code == 0x60 || p.code == 0x61 {
      return p.k < MEMWORDS;
    }
    return !((p.code == 0x34 || p.code == 0x94) && p.k == 0);
  }

  /** `bpf_validate`: an `int` length, negative ones refused. */
  method Validate(f: seq<Insn>, len: int) returns (ok: bool)
    requires len <= |f| && len < 0x8000_0000
    ensures ok <==> len >= 0 && Acceptable(f[..len])
  {
    if len < 0 {
      return false;
    }
    if len == 0 {
      return true;
    }
    var i := 0;
    while i < len
      invariant 0 <= i <= len
      invariant forall pc :: 0 <= pc < i ==> Sound(f[pc], pc, len)
    {
      ok := CheckInsn(f[i], i, len);
      if !ok {
        assert !Sound(f[..len][i], i, len);
        return;
      }
      i := i + 1;
    }
    ok := f[len - 1].code % 8 == 6;
  }

  // ----- what acceptance buys -----

  /** One instruction of an accepted program either returns or stays inside the program, unless
      it is told to read more than the buffer holds. */
  lemma SoundStep(prog: seq<Insn>, pc: nat, regs: Regs, pkt: Packet)
    requires Acceptable(prog) && pc < |prog| && WellFormed(regs)
    ensures match Exec(prog[pc], regs, pkt)
            case Stop(o) => o.Returned? || (o == PastBuffer && pkt.caplen > |pkt.bytes|)
            case Go(regs', skip) => WellFormed(regs') && pc + 1 + skip < |prog|
  {
    assert pc == |prog| - 1 ==> Class(prog[pc].code) == RET;
  }

  /** For these registers and this packet, whose captured part is there, the instruction ends
      the program without an answer or leaves it. */
  ghost predicate Stuck(i: Insn, pc: nat, len: nat, regs: Regs, pkt: Packet) {
    && WellFormed(regs) && pkt.caplen <= |pkt.bytes|
    && match Exec(i, regs, pkt)
       case Stop(o) => !o.Returned?
       case Go(_, skip) => pc + 1 + skip >= len
  }

  /** A test that can never succeed, or never fail, whatever the accumulator. */
  predicate NeverTrue(i: Insn) {
    !UsesX(i.code) && ((Op(i.code) == 2 && i.k == WORD - 1) || (Op(i.code) == 4 && i.k == 0))
  }

  predicate NeverFalse(i: Insn) {
    !UsesX(i.code) && Op(i.code) == 3 && i.k == 0
  }

  /** A conditional jump that leaves the program only by a side it never takes. */
  predicate Harmless(i: Insn, pc: nat, len: nat) {
    && Known(i.code) && Class(i.code) == JMP && Op(i.code) != 0
    && (pc + 1 + i.jt < len || NeverTrue(i)) && (pc + 1 + i.jf < len || NeverFalse(i))
  }

  predicate Succeeds(i: Insn, regs: Regs) {
    Test(Op(i.code), regs.a, if UsesX(i.code) then regs.x else i.k)
  }

  lemma CanSucceed(i: Insn) returns (regs: Regs)
    requires Op(i.code) in {1, 2, 3, 4} && !NeverTrue(i)
    ensures WellFormed(regs) && Succeeds(i, regs)
  {
    Pow2Values();
    var b := if UsesX(i.code) then 1 else i.k;
    MaskSelf(b, 32);
    hide Bitwise, Pow2;
    regs := BLANK.(a := if Op(i.code) == 2 then b + 1 else b, x := 1);
  }

  lemma CanFail(i: Insn) returns (regs: Regs)
    requires Op(i.code) in {1, 2, 3, 4} && !NeverFalse(i)
    ensures WellFormed(regs) && !Succeeds(i, regs)
  {
    var b := if UsesX(i.code) then 1 else i.k;
    MaskOfNothing(b, 32);
    hide Bitwise, Pow2;
    regs := BLANK.(a := if Op(i.code) == 1 && b == 0 then 1 else 0, x := 1);
  }

  lemma NeverDoes(i: Insn, regs: Regs)
    requires Op(i.code) in {1, 2, 3, 4}
    ensures NeverTrue(i) ==> !Succeeds(i, regs)
    ensures NeverFalse(i) ==> Succeeds(i, regs)
  {
    MaskNothing(regs.a, 32);
    hide Bitwise, Pow2;
  }

  /** One packet is as good as another: the empty one. */
  const NOTHING: Packet := Packet([], 0, 0)

  lemma JumpGetsStuck(i: Insn, pc: nat, len: nat) returns (regs: Regs)
    requires Known(i.code) && Class(i.code) == JMP && !LandsInside(i, pc, len) && !Harmless(i, pc, len)
    ensures Stuck(i, pc, len, regs, NOTHING)
  {
    if Op(i.code) == 0 {
      regs := BLANK;
    } else if pc + 1 + i.jt >= len && !NeverTrue(i) {
      regs := CanSucceed(i);
    } else {
      regs := CanFail(i);
    }
    hide Test;
  }

  lemma GetsStuck(i: Insn, pc: nat, len: nat) returns (regs: Regs)
    requires !Sound(i, pc, len) && !Harmless(i, pc, len)
    ensures Stuck(i, pc, len, regs, NOTHING)
  {
    if Known(i.code) && Class(i.code) == JMP {
      regs := JumpGetsStuck(i, pc, len);
    } else {
      regs := BLANK;
    }
  }

  lemma NeverStuck(i: Insn, pc: nat, len: nat, regs: Regs, pkt: Packet)
    requires pc + 1 < len && (Sound(i, pc, len) || Harmless(i, pc, len))
    ensures !Stuck(i, pc, len, regs, pkt)
  {
    if Known(i.code) && Class(i.code) == JMP && Op(i.code) != 0 {
      NeverDoes(i, regs);
      hide Test;
    }
  }

  /** The validator refuses no instruction without need: one before the last is refused exactly
      when it gets stuck for some registers, or is a jump whose bad side is never taken. */
  lemma RefusedExactly(i: Insn, pc: nat, len: nat)
    requires pc + 1 < len
    ensures (exists regs, pkt :: Stuck(i, pc, len, regs, pkt)) <==> !Sound(i, pc, len) && !Harmless(i, pc, len)
  {
    if !Sound(i, pc, len) && !Harmless(i, pc, len) {
      var regs := GetsStuck(i, pc, len);
    } else {
      forall regs, pkt
        ensures !Stuck(i, pc, len, regs, pkt)
      {
        NeverStuck(i, pc, len, regs, pkt);
      }
    }
  }

  /** Safety over whole runs: from any reachable point an accepted program reaches a return,
      having executed each instruction at most once. It never aborts, runs off its end,
      leaves scratch memory or divides by zero, and reads past the buffer only when it is
      told that more may be read than there is. */
  lemma {:induction false} AcceptedPrograms(prog: seq<Insn>, pkt: Packet, pc: nat, regs: Regs)
    requires Acceptable(prog) && pc < |prog| && WellFormed(regs)
    ensures var o := Run(prog, pkt, pc, regs).outcome;
            o.Returned? || (o == PastBuffer && pkt.caplen > |pkt.bytes|)
    ensures 1 <= Run(prog, pkt, pc, regs).steps <= |prog| - pc
    decreases |prog| - pc
  {
    SoundStep(prog, pc, regs, pkt);
    match Exec(prog[pc], regs, pkt)
    case Stop(_) =>
    case Go(regs', skip) =>
      AcceptedPrograms(prog, pkt, pc + 1 + skip, regs');
  }

  /** Whatever the program, it reads past the buffer only then. */
  lemma {:induction false} ReadsInside(prog: seq<Insn>, pkt: Packet, pc: nat, regs: Regs)
    requires pkt.caplen <= |pkt.bytes|
    ensures Run(prog, pkt, pc, regs).outcome != PastBuffer
    decreases |prog| - pc
  {
    if pc < |prog| {
      StepInside(prog[pc], regs, pkt);
      match Exec(prog[pc], regs, pkt)
      case Stop(_) =>
      case Go(regs', skip) =>
        ReadsInside(prog, pkt, pc + 1 + skip, regs');
    }
  }

  lemma StepInside(i: Insn, regs: Regs, pkt: Packet)
    requires pkt.caplen <= |pkt.bytes|
    ensures Exec(i, regs, pkt) != Stop(PastBuffer)
  {
    hide BigEndian, Alu;
  }

  /** Loads the byte at `k` and accepts. */
  function LoadByte(k: U32): seq<Insn> {
    [Insn(0x30, 0, 0, k), Insn(0x06, 0, 0, WORD - 1)]
  }

  /** And then an accepted program of two instructions does: the byte after the buffer. */
  lemma ReadsOutside(pkt: Packet)
    requires |pkt.bytes| < pkt.caplen && |pkt.bytes| < WORD
    ensures Acceptable(LoadByte(|pkt.bytes|)) && Run(LoadByte(|pkt.bytes|), pkt, 0, BLANK).outcome == PastBuffer
  {
    var prog := LoadByte(|pkt.bytes|);
    assert Exec(prog[0], BLANK, pkt) == Stop(PastBuffer);
    assert Sound(prog[0], 0, 2) && Sound(prog[1], 1, 2);
  }

  /** The interpreter on a program the validator let through. */
  method ValidatedFilter(f: seq<Insn>, len: int, p: seq<U8>, wirelen: U32, buflen: U32)
    returns (ok: bool, r: Outcome, n: nat)
    requires len <= |f| && len < 0x8000_0000
    ensures ok <==> len >= 0 && Acceptable(f[..len])
    ensures ok && len > 0 ==> (r.Returned? || (r == PastBuffer && buflen > |p|)) && 1 <= n <= len
  {
    r, n := Returned(0), 0;
    ok := Validate(f, len);
    if ok && len > 0 {
      r, n := Interpret(f[..len], p, wirelen, buflen);
      AcceptedPrograms(f[..len], Packet(p, buflen, wirelen), 0, BLANK);
    }
  }
}
