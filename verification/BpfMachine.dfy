/**
 The packet-filter machine, read off the bit fields of its instruction codes.

 `src/bpf_filter.c` writes the machine as one flat switch over fifty codes. This
 module is the reference that switch is compared with: a code is taken apart into
 class, size, mode, operation and source, each field has one meaning, and every
 packet load is stated on unbounded integers, where no offset can wrap.
 */
module BpfMachine {

  import opened Bits

  const MEMWORDS: int := 16

  datatype Insn = Insn(code: U16, jt: U8, jf: U8, k: U32)

  /** Accumulator, index register and scratch memory. */
  datatype Regs = Regs(a: U32, x: U32, mem: seq<U32>)

  /** The bytes of the buffer, how many of them the filter is told it may read, and the length
      the packet had on the wire. */
  datatype Packet = Packet(bytes: seq<U8>, caplen: nat, wirelen: U32)

  /** How a program can end. Only the first is an answer: the others are the `abort()`
      of the switch and the four ways C leaves the meaning undefined. */
  datatype Outcome = Returned(value: U32) | Aborted | RanOff | BadScratch | DividedByZero | PastBuffer

  /** What one instruction does: stop, or go on `skip` instructions past the next one. */
  datatype Effect = Stop(outcome: Outcome) | Go(regs: Regs, skip: nat)

  ghost predicate WellFormed(regs: Regs) {
    |regs.mem| == MEMWORDS
  }

  const BLANK: Regs := Regs(0, 0, [0, 0, 0, 0, 0, 0, 0, 0, 0, 0, 0, 0, 0, 0, 0, 0])

  // ----- fields of an instruction code -----

  function Class(code: U16): nat { code % 8 }
  function Upper(code: U16): nat { code / 8 }
  function Size(code: U16): nat { Upper(code) % 4 }
  function Mode(code: U16): nat { Upper(code) / 4 }
  function Op(code: U16): nat { Upper(code) / 2 }
  predicate UsesX(code: U16) { Upper(code) % 2 == 1 }

  const LD: nat := 0
  const LDX: nat := 1
  const ST: nat := 2
  const STX: nat := 3
  const ALU: nat := 4
  const JMP: nat := 5
  const RET: nat := 6

  /** Width in bytes of a load, or 0 for a size no load has. */
  function Width(size: nat): nat {
    if size == 0 then 4 else if size == 1 then 2 else if size == 2 then 1 else 0
  }

  // ----- arithmetic on 32-bit registers -----

  /** Shifts as multiplication and division by a power of two. C gives counts of 32 and
      more no meaning; here they shift every bit out. */
  function Shl32(a: U32, n: U32): U32 { a * Pow2(n) % WORD }
  function Shr32(a: U32, n: U32): (r: U32) {
    ShrBound(a, Pow2(n));
    a / Pow2(n)
  }

  lemma ShrBound(a: U32, d: nat)
    requires d > 0
    ensures 0 <= a / d <= a
  {
    assert a / d * d <= a;
  }

  /** The bit `n` places below `j`. */
  predicate IsSetBelow(a: nat, n: nat, j: nat) {
    j >= n && IsSet(a, j - n)
  }

  /** Shifting moves every bit by its count; what leaves the word is gone. */
  lemma ShlAt(a: U32, n: U32, j: nat)
    requires j < 32
    ensures IsSet(Shl32(a, n), j) <==> IsSetBelow(a, n, j)
  {
    assert Pow2(32) == WORD by {
      Pow2Values();
    }
    hide IsSet, Pow2;
    LeftAt(a, n, j);
    RemainderAt(a * Pow2(n), 32, j);
  }

  lemma ShrAt(a: U32, n: U32, j: nat)
    ensures IsSet(Shr32(a, n), j) <==> IsSet(a, n + j)
    ensures a == Shr32(a, n) * Pow2(n) + a % Pow2(n)
  {
    hide IsSet, Pow2;
    RightAt(a, n, Shr32(a, n), j);
  }

  datatype AluResult = Value(v: U32) | ZeroDivisor | NoSuchOp

  function Alu(op: nat, a: U32, b: U32): AluResult {
    match op
    case 0 => Value((a + b) % WORD)
    case 1 => Value((a - b) % WORD)
    case 2 => Value(a * b % WORD)
    case 3 => if b == 0 then ZeroDivisor else (ShrBound(a, b); Value(a / b))
    case 4 => Value(Or32(a, b))
    case 5 => Value(And32(a, b))
    case 6 => Value(Shl32(a, b))
    case 7 => Value(Shr32(a, b))
    case 9 => if b == 0 then ZeroDivisor else Value(a % b)
    case 10 => Value(Xor32(a, b))
    case _ => NoSuchOp
  }

  predicate Test(op: nat, a: U32, b: U32) {
    match op
    case 1 => a == b
    case 2 => a > b
    case 3 => a >= b
    case _ => And32(a, b) != 0
  }

  // ----- packet loads -----

  /** The bytes of `s` read as one big-endian number. */
  function BigEndian(s: seq<U8>): nat {
    if s == [] then 0 else 256 * BigEndian(s[..|s| - 1]) + s[|s| - 1]
  }

  function Half(b0: int, b1: int): int { 0x100 * b0 + b1 }
  function Word(b0: int, b1: int, b2: int, b3: int): int {
    0x1000000 * b0 + 0x10000 * b1 + 0x100 * b2 + b3
  }

  /** The macros that extract two and four bytes by shifts and ors. */
  function ExtractShort(b0: U8, b1: U8): U32 {
    Or32(Shl32(b0, 8), b1)
  }

  function ExtractLong(b0: U8, b1: U8, b2: U8, b3: U8): U32 {
    Or32(Or32(Or32(Shl32(b0, 24), Shl32(b1, 16)), Shl32(b2, 8)), b3)
  }

  /** Or adds when the lower word fits below the lowest bit of the other. */
  lemma {:induction false} OrAdds(a: nat, b: nat, m: nat, n: nat)
    requires b < Pow2(m) && a * Pow2(m) < Pow2(n) && m <= n
    ensures Bitwise(Or, a * Pow2(m), b, n) == a * Pow2(m) + b
  {
    if m == 0 {
      OrZero(a, n);
    } else {
      var p := Pow2(m - 1);
      assert a * Pow2(m) == 2 * (a * p);
      OrAdds(a, b / 2, m - 1, n - 1);
    }
  }

  lemma {:induction false} OrZero(a: nat, n: nat)
    requires a < Pow2(n)
    ensures Bitwise(Or, a, 0, n) == a
  {
    if n > 0 {
      OrZero(a / 2, n - 1);
    }
  }

  lemma ExtractIsSum(b0: U8, b1: U8, b2: U8, b3: U8)
    ensures ExtractShort(b0, b1) == Half(b0, b1)
    ensures ExtractLong(b0, b1, b2, b3) == Word(b0, b1, b2, b3)
  {
    Pow2Values();
    hide Bitwise, Pow2;
    OrAdds(b0, b1, 8, 32);
    OrAdds(b0, 0x10000 * b1, 24, 32);
    OrAdds(0x100 * b0 + b1, 0x100 * b2, 16, 32);
    OrAdds(0x10000 * b0 + 0x100 * b1 + b2, b3, 8, 32);
  }

  lemma BigEndianBytes(s: seq<U8>)
    ensures |s| == 1 ==> BigEndian(s) == s[0]
    ensures |s| == 2 ==> BigEndian(s) == Half(s[0], s[1])
    ensures |s| == 4 ==> BigEndian(s) == Word(s[0], s[1], s[2], s[3])
  {
    if |s| == 2 {
      assert s[..1] == [s[0]];
      assert [s[0]][..0] == [];
    } else if |s| == 4 {
      BigEndianBytes(s[..2]);
      assert s[..3][..2] == s[..2];
    } else if |s| == 1 {
      assert s[..0] == [];
    }
  }

  datatype Loaded = Bytes(v: U32) | Outside | Past

  /** Read `width` bytes at an integer offset: outside what may be read, past the buffer, or
      the number they make. */
  function Load(pkt: Packet, off: nat, width: nat): Loaded
    requires width in {1, 2, 4}
  {
    if off + width > pkt.caplen then Outside
    else if off + width > |pkt.bytes| then Past
    else
      BigEndianBytes(pkt.bytes[off..off + width]);
      Bytes(BigEndian(pkt.bytes[off..off + width]))
  }

  // ----- one instruction -----

  /** Is there an instruction with this code? */
  predicate Known(code: U16) {
    var size, mode, op := Size(code), Mode(code), Op(code);
    match Class(code)
    case 0 => (mode in {1, 2} && size != 3) || (mode in {0, 3, 4} && size == 0)
    case 1 => (mode in {0, 3, 4} && size == 0) || (mode == 5 && size == 2)
    case 2 => code == ST
    case 3 => code == STX
    case 4 => op <= 10 && (op == 8 ==> !UsesX(code))
    case 5 => op <= 4 && (op == 0 ==> !UsesX(code))
    case 6 => mode == 0 && size in {0, 2}
    case _ => Upper(code) in {0, 16}
  }

  /** The same question as a list: the forty-nine codes the switch has an arm for. */
  predicate Listed(code: U16) {
    code in {
      0x00, 0x01, 0x02, 0x03, 0x04, 0x05, 0x06, 0x07, 0x0c, 0x14, 0x15, 0x16, 0x1c, 0x1d, 0x20, 0x24, 0x25,
      0x28, 0x2c, 0x2d, 0x30, 0x34, 0x35, 0x3c, 0x3d, 0x40, 0x44, 0x45, 0x48, 0x4c, 0x4d, 0x50, 0x54, 0x5c,
      0x60, 0x61, 0x64, 0x6c, 0x74, 0x7c, 0x80, 0x81, 0x84, 0x87, 0x94, 0x9c, 0xa4, 0xac, 0xb1
    }
  }

  lemma KnownIsListed(code: U16)
    ensures Known(code) <==> Listed(code)
  {
  }

  function LoadA(pkt: Packet, off: nat, width: nat, regs: Regs): Effect
    requires width in {1, 2, 4}
  {
    match Load(pkt, off, width)
    case Outside => Stop(Returned(0))
    case Past => Stop(PastBuffer)
    case Bytes(v) => Go(regs.(a := v), 0)
  }

  function ExecLd(i: Insn, regs: Regs, pkt: Packet): Effect
    requires Known(i.code) && Class(i.code) == LD
  {
    match Mode(i.code)
    case 0 => Go(regs.(a := i.k), 0)
    case 1 => LoadA(pkt, i.k, Width(Size(i.code)), regs)
    case 2 => LoadA(pkt, regs.x + i.k, Width(Size(i.code)), regs)
    case 3 => if i.k < |regs.mem| then Go(regs.(a := regs.mem[i.k]), 0) else Stop(BadScratch)
    case _ => Go(regs.(a := pkt.wirelen), 0)
  }

  function ExecLdx(i: Insn, regs: Regs, pkt: Packet): Effect
    requires Known(i.code) && Class(i.code) == LDX
  {
    match Mode(i.code)
    case 0 => Go(regs.(x := i.k), 0)
    case 3 => if i.k < |regs.mem| then Go(regs.(x := regs.mem[i.k]), 0) else Stop(BadScratch)
    case 4 => Go(regs.(x := pkt.wirelen), 0)
    case _ =>
      // four times the low nibble: the length in bytes an IPv4 header declares
      match Load(pkt, i.k, 1)
      case Outside => Stop(Returned(0))
      case Past => Stop(PastBuffer)
      case Bytes(v) => Go(regs.(x := v % 16 * 4), 0)
  }

  function ExecStore(i: Insn, regs: Regs, v: U32): Effect {
    if i.k < |regs.mem| then Go(regs.(mem := regs.mem[i.k := v]), 0) else Stop(BadScratch)
  }

  function ExecAlu(i: Insn, regs: Regs): Effect
    requires Known(i.code) && Class(i.code) == ALU
  {
    if Op(i.code) == 8 then
      Go(regs.(a := (WORD - regs.a) % WORD), 0)
    else
      match Alu(Op(i.code), regs.a, if UsesX(i.code) then regs.x else i.k)
      case Value(v) => Go(regs.(a := v), 0)
      case ZeroDivisor => Stop(if UsesX(i.code) then Returned(0) else DividedByZero)
      case NoSuchOp => Stop(Aborted)
  }

  function ExecJmp(i: Insn, regs: Regs): Effect
    requires Known(i.code) && Class(i.code) == JMP
  {
    if Op(i.code) == 0 then
      Go(regs, i.k)
    else if Test(Op(i.code), regs.a, if UsesX(i.code) then regs.x else i.k) then
      Go(regs, i.jt)
    else
      Go(regs, i.jf)
  }

  function Exec(i: Insn, regs: Regs, pkt: Packet): Effect {
    if !Known(i.code) then
      Stop(Aborted)
    else
      match Class(i.code)
      case 0 => ExecLd(i, regs, pkt)
      case 1 => ExecLdx(i, regs, pkt)
      case 2 => ExecStore(i, regs, regs.a)
      case 3 => ExecStore(i, regs, regs.x)
      case 4 => ExecAlu(i, regs)
      case 5 => ExecJmp(i, regs)
      case 6 => Stop(Returned(if Size(i.code) == 0 then i.k else regs.a))
      case _ => if Upper(i.code) == 0 then Go(regs.(x := regs.a), 0) else Go(regs.(a := regs.x), 0)
  }

  // ----- whole programs -----

  datatype Finish = Finish(outcome: Outcome, steps: nat)

  /** Run from `pc`. Jumps only go forward, so the program counter is the measure. */
  function Run(prog: seq<Insn>, pkt: Packet, pc: nat, regs: Regs): Finish
    decreases |prog| - pc
  {
    if pc >= |prog| then
      Finish(RanOff, 0)
    else
      match Exec(prog[pc], regs, pkt)
      case Stop(o) => Finish(o, 1)
      case Go(regs', skip) =>
        var rest := Run(prog, pkt, pc + 1 + skip, regs');
        Finish(rest.outcome, rest.steps + 1)
  }
}
