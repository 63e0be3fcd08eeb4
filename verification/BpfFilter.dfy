/** `bpf_filter` of `src/bpf_filter.c`: the flat interpreter, run in place on two
    registers and a scratch array. */
module BpfFilter {
  import opened Bits
  import opened BpfMachine

  /** What one arm of the switch assigns before it continues. */
  datatype Act = SetA(v: U32) | SetX(v: U32) | Store(slot: nat, v: U32) | Jump(skip: nat)
               | Done(outcome: Outcome) | NoArm

  // The arms of the switch, one a code and grouped by what they assign, with the source's
  // own 32-bit range tests. C's undefined steps (a scratch slot past the array, a constant
  // zero divisor) are outcomes.

  /** Four, two or one bytes of the buffer, once the range test let them through. */
  function LongAt(p: seq<U8>, k: nat): (act: Act)
    ensures act.SetA? || act == Done(PastBuffer)
  {
    if k + 4 > |p| then Done(PastBuffer) else SetA(ExtractLong(p[k], p[k + 1], p[k + 2], p[k + 3]))
  }

  function ShortAt(p: seq<U8>, k: nat): (act: Act)
    ensures act.SetA? || act == Done(PastBuffer)
  {
    if k + 2 > |p| then Done(PastBuffer) else SetA(ExtractShort(p[k], p[k + 1]))
  }

  function ByteAt(p: seq<U8>, k: nat): (act: Act)
    ensures act.SetA? || act == Done(PastBuffer)
  {
    if k >= |p| then Done(PastBuffer) else SetA(p[k])
  }

  predicate LoadCode(c: U16) { c in {0x20, 0x28, 0x30, 0x40, 0x48, 0x50} }

  function LoadArms(i: Insn, x: U32, p: seq<U8>, buflen: U32): (act: Act)
    ensures act.NoArm? <==> !LoadCode(i.code)
  {
    match i.code
    case 0x20 => // LD|W|ABS
      if i.k > buflen || 4 > buflen - i.k then Done(Returned(0)) else LongAt(p, i.k)
    case 0x28 => // LD|H|ABS
      if i.k > buflen || 2 > buflen - i.k then Done(Returned(0)) else ShortAt(p, i.k)
    case 0x30 => if i.k >= buflen then Done(Returned(0)) else ByteAt(p, i.k) // LD|B|ABS
    case 0x40 => // LD|W|IND
      var k := (x + i.k) % WORD;
      if i.k > buflen || x > buflen - i.k || 4 > (buflen - k) % WORD then Done(Returned(0)) else LongAt(p, k)
    case 0x48 => // LD|H|IND
      var k := (x + i.k) % WORD;
      if x > buflen || i.k > buflen - x || 2 > (buflen - k) % WORD then Done(Returned(0)) else ShortAt(p, k)
    case 0x50 => // LD|B|IND
      var k := (x + i.k) % WORD;
      if i.k >= buflen || x >= buflen - i.k then Done(Returned(0)) else ByteAt(p, k)
    case _ => NoArm
  }

  predicate IndexCode(c: U16) { c in {0x01, 0x61, 0x81, 0xb1} }

  function IndexArms(i: Insn, mem: seq<U32>, p: seq<U8>, wirelen: U32, buflen: U32): (act: Act)
    requires |mem| == MEMWORDS
    ensures act.NoArm? <==> !IndexCode(i.code)
  {
    match i.code
    case 0x81 => SetX(wirelen) // LDX|W|LEN
    case 0xb1 => // LDX|MSH|B
      if i.k >= buflen then Done(Returned(0))
      else if i.k >= |p| then Done(PastBuffer)
      else SetX(And32(p[i.k], 0xf) * 4 % WORD)
    case 0x01 => SetX(i.k) // LDX|IMM
    case 0x61 => if i.k >= MEMWORDS then Done(BadScratch) else SetX(mem[i.k]) // LDX|MEM
    case _ => NoArm
  }

  predicate JumpCode(c: U16) { c in {0x05, 0x15, 0x1d, 0x25, 0x2d, 0x35, 0x3d, 0x45, 0x4d} }

  function JumpArms(i: Insn, a: U32, x: U32): (act: Act)
    ensures act.NoArm? <==> !JumpCode(i.code)
  {
    match i.code
    case 0x05 => Jump(i.k) // JMP|JA
    case 0x25 => Jump(if a > i.k then i.jt else i.jf) // JMP|JGT|K
    case 0x35 => Jump(if a >= i.k then i.jt else i.jf) // JMP|JGE|K
    case 0x15 => Jump(if a == i.k then i.jt else i.jf) // JMP|JEQ|K
    case 0x45 => Jump(if And32(a, i.k) != 0 then i.jt else i.jf) // JMP|JSET|K
    case 0x2d => Jump(if a > x then i.jt else i.jf) // JMP|JGT|X
    case 0x3d => Jump(if a >= x then i.jt else i.jf) // JMP|JGE|X
    case 0x1d => Jump(if a == x then i.jt else i.jf) // JMP|JEQ|X
    case 0x4d => Jump(if And32(a, x) != 0 then i.jt else i.jf) // JMP|JSET|X
    case _ => NoArm
  }

  predicate ArithCode(c: U16) { c in {0x04, 0x0c, 0x14, 0x1c, 0x24, 0x2c, 0x34, 0x3c, 0x84, 0x94, 0x9c} }

  function ArithArms(i: Insn, a: U32, x: U32): (act: Act)
    ensures act.NoArm? <==> !ArithCode(i.code)
  {
    match i.code
    case 0x0c => SetA((a + x) % WORD) // ALU|ADD|X
    case 0x1c => SetA((a - x) % WORD) // ALU|SUB|X
    case 0x2c => SetA(a * x % WORD) // ALU|MUL|X
    case 0x3c => // ALU|DIV|X
      if x == 0 then Done(Returned(0))
      else (ShrBound(a, x); SetA(a / x))
    case 0x9c => if x == 0 then Done(Returned(0)) else SetA(a % x) // ALU|MOD|X
    case 0x04 => SetA((a + i.k) % WORD) // ALU|ADD|K
    case 0x14 => SetA((a - i.k) % WORD) // ALU|SUB|K
    case 0x24 => SetA(a * i.k % WORD) // ALU|MUL|K
    case 0x34 => // ALU|DIV|K
      if i.k == 0 then Done(DividedByZero)
      else (ShrBound(a, i.k); SetA(a / i.k))
    case 0x94 => if i.k == 0 then Done(DividedByZero) else SetA(a % i.k) // ALU|MOD|K
    case 0x84 => SetA((WORD - a) % WORD) // ALU|NEG
    case _ => NoArm
  }

  predicate BitCode(c: U16) { c in {0x44, 0x4c, 0x54, 0x5c, 0x64, 0x6c, 0x74, 0x7c, 0xa4, 0xac} }

  function BitArms(i: Insn, a: U32, x: U32): (act: Act)
    ensures act.NoArm? <==> !BitCode(i.code)
  {
    match i.code
    case 0x5c => SetA(And32(a, x)) // ALU|AND|X
    case 0x4c => SetA(Or32(a, x)) // ALU|OR|X
    case 0xac => SetA(Xor32(a, x)) // ALU|XOR|X
    case 0x6c => SetA(Shl32(a, x)) // ALU|LSH|X
    case 0x7c => SetA(Shr32(a, x)) // ALU|RSH|X
    case 0x54 => SetA(And32(a, i.k)) // ALU|AND|K
    case 0x44 => SetA(Or32(a, i.k)) // ALU|OR|K
    case 0xa4 => SetA(Xor32(a, i.k)) // ALU|XOR|K
    case 0x64 => SetA(Shl32(a, i.k)) // ALU|LSH|K
    case 0x74 => SetA(Shr32(a, i.k)) // ALU|RSH|K
    case _ => NoArm
  }

  predicate OtherCode(c: U16) { c in {0x00, 0x02, 0x03, 0x06, 0x07, 0x16, 0x60, 0x80, 0x87} }

  function OtherArms(i: Insn, a: U32, x: U32, mem: seq<U32>, wirelen: U32): (act: Act)
    requires |mem| == MEMWORDS
    ensures act.NoArm? <==> !OtherCode(i.code)
  {
    match i.code
    case 0x06 => Done(Returned(i.k)) // RET|K
    case 0x16 => Done(Returned(a)) // RET|A
    case 0x80 => SetA(wirelen) // LD|W|LEN
    case 0x00 => SetA(i.k) // LD|IMM
    case 0x60 => if i.k >= MEMWORDS then Done(BadScratch) else SetA(mem[i.k]) // LD|MEM
    case 0x02 => if i.k >= MEMWORDS then Done(BadScratch) else Store(i.k, a) // ST
    case 0x03 => if i.k >= MEMWORDS then Done(BadScratch) else Store(i.k, x) // STX
    case 0x07 => SetX(a) // MISC|TAX
    case 0x87 => SetA(x) // MISC|TXA
    case _ => NoArm
  }

  ghost predicate Means(act: Act, regs: Regs, e: Effect)
    requires WellFormed(regs)
  {
    match act
    case SetA(v) => e == Go(regs.(a := v), 0)
    case SetX(v) => e == Go(regs.(x := v), 0)
    case Store(slot, v) => slot < MEMWORDS && e == Go(regs.(mem := regs.mem[slot := v]), 0)
    case Jump(skip) => e == Go(regs, skip)
    case Done(o) => e == Stop(o)
    case NoArm => false
  }

  /** The 32-bit tests let an indirect load through exactly when the bytes exist, although
      `x + k` may wrap. */
  lemma GuardsAreBounds(x: U32, k: U32, buflen: U32)
    ensures var at := (x + k) % WORD;
            && (k > buflen || x > buflen - k || 4 > (buflen - at) % WORD <==> x + k + 4 > buflen)
            && (x > buflen || k > buflen - x || 2 > (buflen - at) % WORD <==> x + k + 2 > buflen)
            && (k >= buflen || x >= buflen - k <==> x + k + 1 > buflen)
            && (x + k <= buflen ==> at == x + k)
  {
    if x + k <= buflen {
      assert (x + k) % WORD == x + k;
      assert (buflen - (x + k)) % WORD == buflen - (x + k);
    }
  }

  /** A load of the switch is a load of the machine, unless the range test ends the program. */
  predicate Reads(act: Act, l: Loaded) {
    match l
    case Bytes(v) => act == SetA(v)
    case Past => act == Done(PastBuffer)
    case Outside => false
  }

  lemma LoadsAgree(p: seq<U8>, k: nat, buflen: nat, wirelen: U32)
    ensures var pkt := Packet(p, buflen, wirelen);
            && (if k + 4 <= buflen then Reads(LongAt(p, k), Load(pkt, k, 4)) else Load(pkt, k, 4) == Outside)
            && (if k + 2 <= buflen then Reads(ShortAt(p, k), Load(pkt, k, 2)) else Load(pkt, k, 2) == Outside)
            && (if k + 1 <= buflen then Reads(ByteAt(p, k), Load(pkt, k, 1)) else Load(pkt, k, 1) == Outside)
  {
    hide ExtractLong, ExtractShort;
    if k + 4 <= |p| {
      BigEndianBytes(p[k..k + 4]);
      ExtractIsSum(p[k], p[k + 1], p[k + 2], p[k + 3]);
    }
    if k + 2 <= |p| {
      BigEndianBytes(p[k..k + 2]);
      ExtractIsSum(p[k], p[k + 1], 0, 0);
    }
    if k + 1 <= |p| {
      BigEndianBytes(p[k..k + 1]);
    }
  }

  function CodeWidth(code: U16): nat {
    if code in {0x20, 0x40} then 4 else if code in {0x28, 0x48} then 2 else 1
  }

  lemma LoadExec(i: Insn, regs: Regs, pkt: Packet)
    requires LoadCode(i.code)
    ensures Known(i.code)
    ensures Exec(i, regs, pkt) == LoadA(pkt, if i.code < 0x40 then i.k else regs.x + i.k, CodeWidth(i.code), regs)
  {
    hide LoadA;
  }

  lemma LoadArmsMean(i: Insn, regs: Regs, p: seq<U8>, wirelen: U32, buflen: U32)
    requires WellFormed(regs) && LoadCode(i.code)
    ensures Known(i.code) && Means(LoadArms(i, regs.x, p, buflen), regs, Exec(i, regs, Packet(p, buflen, wirelen)))
  {
    hide Exec, Known, LongAt, ShortAt, ByteAt, Load;
    LoadExec(i, regs, Packet(p, buflen, wirelen));
    GuardsAreBounds(regs.x, i.k, buflen);
    LoadsAgree(p, if i.code < 0x40 then i.k else regs.x + i.k, buflen, wirelen);
  }

  lemma HeaderExec(i: Insn, regs: Regs, pkt: Packet)
    requires i.code == 0xb1
    ensures Exec(i, regs, pkt) == match Load(pkt, i.k, 1)
                                  case Outside => Stop(Returned(0))
                                  case Past => Stop(PastBuffer)
                                  case Bytes(v) => Go(regs.(x := v % 16 * 4), 0)
  {
    hide Load;
  }

  lemma ByteLoad(pkt: Packet, k: nat)
    ensures Load(pkt, k, 1) == if k >= pkt.caplen then Outside else if k >= |pkt.bytes| then Past
                               else Bytes(pkt.bytes[k])
  {
    if k < |pkt.bytes| {
      BigEndianBytes(pkt.bytes[k..k + 1]);
    }
  }

  lemma Quadruple(v: U8)
    ensures And32(v, 0xf) * 4 % WORD == v % 16 * 4
  {
    hide And32;
    LowNibble(v);
  }

  lemma HeaderArmMeans(i: Insn, regs: Regs, p: seq<U8>, wirelen: U32, buflen: U32)
    requires WellFormed(regs) && i.code == 0xb1
    ensures Means(IndexArms(i, regs.mem, p, wirelen, buflen), regs, Exec(i, regs, Packet(p, buflen, wirelen)))
  {
    hide Exec, Load, And32;
    HeaderExec(i, regs, Packet(p, buflen, wirelen));
    ByteLoad(Packet(p, buflen, wirelen), i.k);
    if i.k < |p| {
      Quadruple(p[i.k]);
    }
  }

  lemma IndexArmsMean(i: Insn, regs: Regs, p: seq<U8>, wirelen: U32, buflen: U32)
    requires WellFormed(regs) && IndexCode(i.code)
    ensures Known(i.code)
    ensures Means(IndexArms(i, regs.mem, p, wirelen, buflen), regs, Exec(i, regs, Packet(p, buflen, wirelen)))
  {
    if i.code == 0xb1 {
      HeaderArmMeans(i, regs, p, wirelen, buflen);
    }
    hide Load, And32;
  }

  lemma LowNibble(v: U8)
    ensures And32(v, 0xf) == v % 16
  {
    Pow2Values();
    MaskIsRemainder(v, 4, 32);
  }

  lemma JumpArmsMean(i: Insn, regs: Regs, pkt: Packet)
    requires WellFormed(regs) && JumpCode(i.code)
    ensures Known(i.code) && Means(JumpArms(i, regs.a, regs.x), regs, Exec(i, regs, pkt))
  {
  }

  lemma ArithArmsMean(i: Insn, regs: Regs, pkt: Packet)
    requires WellFormed(regs) && ArithCode(i.code)
    ensures Known(i.code) && Means(ArithArms(i, regs.a, regs.x), regs, Exec(i, regs, pkt))
  {
  }

  lemma BitArmsMean(i: Insn, regs: Regs, pkt: Packet)
    requires WellFormed(regs) && BitCode(i.code)
    ensures Known(i.code) && Means(BitArms(i, regs.a, regs.x), regs, Exec(i, regs, pkt))
  {
    hide And32, Or32, Xor32, Shl32, Shr32;
  }

  lemma OtherArmsMean(i: Insn, regs: Regs, pkt: Packet)
    requires WellFormed(regs) && OtherCode(i.code)
    ensures Known(i.code) && Means(OtherArms(i, regs.a, regs.x, regs.mem, pkt.wirelen), regs, Exec(i, regs, pkt))
  {
  }

  /** The switch has an arm for exactly the codes the fields allow, and each arm does what
      the fields of its code say. */
  method Switch(i: Insn, a: U32, x: U32, mem: array<U32>, p: seq<U8>, wirelen: U32, buflen: U32)
    returns (act: Act)
    requires mem.Length == MEMWORDS
    ensures var regs := Regs(a, x, mem[..]);
            if Known(i.code) then Means(act, regs, Exec(i, regs, Packet(p, buflen, wirelen)))
            else act == Done(Aborted)
  {
    ghost var regs, pkt := Regs(a, x, mem[..]), Packet(p, buflen, wirelen);
    if LoadCode(i.code) {
      LoadArmsMean(i, regs, p, wirelen, buflen);
      act := LoadArms(i, x, p, buflen);
    } else if IndexCode(i.code) {
      IndexArmsMean(i, regs, p, wirelen, buflen);
      act := IndexArms(i, mem[..], p, wirelen, buflen);
    } else if JumpCode(i.code) {
      JumpArmsMean(i, regs, pkt);
      act := JumpArms(i, a, x);
    } else if ArithCode(i.code) {
      ArithArmsMean(i, regs, pkt);
      act := ArithArms(i, a, x);
    } else if BitCode(i.code) {
      BitArmsMean(i, regs, pkt);
      act := BitArms(i, a, x);
    } else if OtherCode(i.code) {
      OtherArmsMean(i, regs, pkt);
      act := OtherArms(i, a, x, mem[..], wirelen);
    } else {
      KnownIsListed(i.code);
      act := Done(Aborted);
    }
  }

  /** One turn of the loop: the registers and the scratch array are assigned in place. */
  method Step(i: Insn, a: U32, x: U32, mem: array<U32>, p: seq<U8>, wirelen: U32, buflen: U32)
    returns (a': U32, x': U32, skip: nat, act: Act)
    requires mem.Length == MEMWORDS
    modifies mem
    ensures Exec(i, Regs(a, x, old(mem[..])), Packet(p, buflen, wirelen))
            == if act.Done? then Stop(act.outcome) else Go(Regs(a', x', mem[..]), skip)
  {
    act := Switch(i, a, x, mem, p, wirelen, buflen);
    a', x', skip := a, x, 0;
    match act
    case SetA(v) => a' := v;
    case SetX(v) => x' := v;
    case Store(slot, v) => mem[slot] := v;
    case Jump(d) => skip := d;
    case Done(_) =>
  }

  /** The interpreter of the user-space build. On every program, valid or not, it ends as
      the field-by-field reference ends, after as many instructions. */
  method Interpret(prog: seq<Insn>, p: seq<U8>, wirelen: U32, buflen: U32) returns (r: Outcome, n: nat)
    ensures Finish(r, n) == Run(prog, Packet(p, buflen, wirelen), 0, BLANK)
  {
    hide Exec;
    ghost var pkt := Packet(p, buflen, wirelen);
    var a: U32, x: U32 := 0, 0;
    var mem := new U32[MEMWORDS](_ => 0);
    var pc: nat := 0;
    n := 0;
    assert mem[..] == BLANK.mem;
    while pc < |prog|
      invariant mem.Length == MEMWORDS
      invariant var rest := Run(prog, pkt, pc, Regs(a, x, mem[..]));
                Run(prog, pkt, 0, BLANK) == Finish(rest.outcome, rest.steps + n)
      decreases |prog| - pc
    {
      var skip, act;
      a, x, skip, act := Step(prog[pc], a, x, mem, p, wirelen, buflen);
      n := n + 1;
      if act.Done? {
        return act.outcome, n;
      }
      pc := pc + 1 + skip;
    }
    r := RanOff;
  }

  /** A filter pointer: null accepts every packet. */
  datatype Program = Null | Code(insns: seq<Insn>)

  /** Without a program every packet is accepted whole. */
  function Verdict(f: Program, pkt: Packet): Outcome {
    match f
    case Null => Returned(WORD - 1)
    case Code(insns) => Run(insns, pkt, 0, BLANK).outcome
  }

  method Filter(f: Program, p: seq<U8>, wirelen: U32, buflen: U32) returns (r: Outcome)
    ensures r == Verdict(f, Packet(p, buflen, wirelen))
  {
    if f.Null? {
      return Returned(WORD - 1);
    }
    ghost var n;
    r, n := Interpret(f.insns, p, wirelen, buflen);
  }
}
