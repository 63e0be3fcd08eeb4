/** How a captured packet is laid out in a message, from src/capture.c: its segments, with the
    VLAN tag the hardware took out put back, cut at the snap length. */
module Capture {
  import opened Bits
  import opened BpfMachine
  import opened BpfFilter
  import opened BpfValidate
  import opened MbufChain

  datatype Vlan = Untagged | Tag(tpid: U16, tci: U16)

  const TAG_LEN := 4
  const ADDRS_LEN := 12
  const ETHER_LEN := 14

  function Bytes2(v: U16): seq<U8> {
    [v / 0x100, v % 0x100]
  }

  /** The packet as it was on the wire: the tag follows the two addresses. */
  function OnWire(packet: seq<U8>, vlan: Vlan): seq<U8>
    requires vlan.Tag? ==> |packet| >= ADDRS_LEN
  {
    match vlan
    case Untagged => packet
    case Tag(tpid, tci) => packet[..ADDRS_LEN] + Bytes2(tpid) + Bytes2(tci) + packet[ADDRS_LEN..]
  }

  /** The tag reads back from its place, and without it the packet is as before. */
  lemma TagIsInserted(packet: seq<U8>, tpid: U16, tci: U16)
    requires |packet| >= ADDRS_LEN
    ensures var w := OnWire(packet, Tag(tpid, tci));
            && |w| == |packet| + TAG_LEN
            && BigEndian(w[12..14]) == tpid && BigEndian(w[14..16]) == tci
            && w[..12] + w[16..] == packet
  {
    var w := OnWire(packet, Tag(tpid, tci));
    assert w[12..14] == Bytes2(tpid) && w[14..16] == Bytes2(tci);
    BigEndianBytes(w[12..14]);
    BigEndianBytes(w[14..16]);
    assert w[..12] == packet[..12] && w[16..] == packet[12..];
  }

  lemma FlatNext(c: Chain, i: nat)
    requires i < |c|
    ensures Flat(c[..i + 1]) == Flat(c[..i]) + c[i]
  {
    assert c[..i + 1][..i] == c[..i];
  }

  lemma FlatSnoc(c: Chain, s: seq<U8>)
    ensures Flat(c + [s]) == Flat(c) + s
  {
    assert (c + [s])[..|c|] == c;
  }

  /** Appends what there is space for. */
  method AddIfSpace(msg: Chain, data: seq<U8>, space: nat) returns (msg': Chain, left: nat)
    ensures left == if |data| > space then 0 else space - |data|
    ensures Flat(msg') == Flat(msg) + data[..if |data| > space then space else |data|]
  {
    var n := if |data| > space then space else |data|;
    msg', left := msg + [data[..n]], space - n;
    FlatSnoc(msg, data[..n]);
  }

  /** The message holds the first `snaplen` bytes of what was offered, or all with space left. */
  ghost predicate Written(msg: Chain, offered: seq<U8>, snaplen: nat, space: nat) {
    && space == (if |offered| < snaplen then snaplen - |offered| else 0)
    && Flat(msg) == offered[..snaplen - space]
  }

  lemma WriteMore(msg: Chain, msg': Chain, offered: seq<U8>, data: seq<U8>, snaplen: nat, space: nat)
    requires Written(msg, offered, snaplen, space)
    requires Flat(msg') == Flat(msg) + data[..if |data| > space then space else |data|]
    ensures Written(msg', offered + data, snaplen, if |data| > space then 0 else space - |data|)
  {
    hide Flat;
    var n := if |data| > space then space else |data|;
    var left := if |data| > space then 0 else space - |data|;
    if space == 0 {
      assert data[..0] == [] && (offered + data)[..snaplen] == offered[..snaplen];
    } else {
      assert offered[..|offered|] == offered;
      assert (offered + data)[..snaplen - left] == offered + data[..n];
    }
  }

  /** The packet in the pieces it is written in. */
  function Pieces(segs: Chain, vlan: Vlan): Chain
    requires |segs| > 0 && (vlan.Tag? ==> |segs[0]| >= ETHER_LEN)
  {
    match vlan
    case Untagged => segs
    case Tag(tpid, tci) => [TagHeader(segs[0], tpid, tci), segs[0][ETHER_LEN..]] + segs[1..]
  }

  function TagHeader(head: seq<U8>, tpid: U16, tci: U16): seq<U8>
    requires |head| >= ETHER_LEN
  {
    head[..ADDRS_LEN] + Bytes2(tpid) + Bytes2(tci) + head[ADDRS_LEN..ETHER_LEN]
  }

  lemma {:induction false} FlatConcat(a: Chain, b: Chain)
    ensures Flat(a + b) == Flat(a) + Flat(b)
  {
    if b == [] {
      assert a + b == a;
    } else {
      var init, s := b[..|b| - 1], b[|b| - 1];
      FlatConcat(a, init);
      hide Flat;
      assert a + b == (a + init) + [s];
      FlatSnoc(a + init, s);
      FlatSnoc(init, s);
      assert b == init + [s];
      assert Flat(a) + Flat(init) + s == Flat(a) + (Flat(init) + s);
    }
  }

  lemma FlatOne(s: seq<U8>)
    ensures Flat([s]) == s
  {
    assert [s][..0] == [];
    assert [] + s == s;
  }

  lemma HeadFirst(segs: Chain)
    requires |segs| > 0
    ensures Flat(segs) == segs[0] + Flat(segs[1..])
  {
    hide Flat;
    assert segs == [segs[0]] + segs[1..];
    FlatConcat([segs[0]], segs[1..]);
    FlatOne(segs[0]);
  }

  lemma PiecesOnWire(segs: Chain, vlan: Vlan)
    requires |segs| > 0 && (vlan.Tag? ==> |segs[0]| >= ETHER_LEN)
    ensures vlan.Tag? ==> |Flat(segs)| >= ETHER_LEN
    ensures Flat(Pieces(segs, vlan)) == OnWire(Flat(segs), vlan)
  {
    HeadFirst(segs);
    if vlan.Tag? {
      hide Flat, TagHeader, OnWire;
      var ps := Pieces(segs, vlan);
      HeadFirst(ps);
      HeadFirst(ps[1..]);
      assert ps[1..][1..] == segs[1..];
      TagSplits(segs[0], Flat(segs[1..]), vlan.tpid, vlan.tci);
    }
  }

  lemma TagSplits(head: seq<U8>, rest: seq<U8>, tpid: U16, tci: U16)
    requires |head| >= ETHER_LEN
    ensures TagHeader(head, tpid, tci) + (head[ETHER_LEN..] + rest) == OnWire(head + rest, Tag(tpid, tci))
  {
    var a, t := head[..ADDRS_LEN], Bytes2(tpid) + Bytes2(tci);
    assert (head + rest)[..ADDRS_LEN] == a;
    assert head[ADDRS_LEN..ETHER_LEN] + (head[ETHER_LEN..] + rest) == (head + rest)[ADDRS_LEN..];
  }

  lemma {:induction false} FlatPrefix(c: Chain, k: nat)
    requires k <= |c|
    ensures Flat(c[..k]) <= Flat(c)
  {
    assert c == c[..k] + c[k..];
    FlatConcat(c[..k], c[k..]);
  }

  /** Once there is no space left, the rest would not have been written either. */
  lemma Full(msg: Chain, c: Chain, k: nat, snaplen: nat)
    requires k <= |c| && Written(msg, Flat(c[..k]), snaplen, 0)
    ensures Written(msg, Flat(c), snaplen, 0)
  {
    FlatPrefix(c, k);
    hide Flat;
    assert Flat(c[..k]) == Flat(c)[..|Flat(c[..k])|];
  }

  method AddPiece(msg: Chain, data: seq<U8>, space: nat, ghost c: Chain, ghost k: nat, ghost snaplen: nat)
    returns (msg': Chain, left: nat)
    requires k < |c| && c[k] == data && Written(msg, Flat(c[..k]), snaplen, space)
    ensures Written(msg', Flat(c[..k + 1]), snaplen, left)
    ensures left == 0 ==> Written(msg', Flat(c), snaplen, 0)
  {
    hide Flat, Written;
    msg', left := AddIfSpace(msg, data, space);
    FlatNext(c, k);
    WriteMore(msg, msg', Flat(c[..k]), data, snaplen, space);
    if left == 0 {
      Full(msg', c, k + 1, snaplen);
    }
  }

  /** The frames that carry the packet's bytes. */
  method Frames(segs: Chain, vlan: Vlan, snaplen: nat) returns (frames: Chain)
    requires |segs| > 0 && (vlan.Tag? ==> |segs[0]| >= ETHER_LEN)
    ensures exists space :: Written(frames, Flat(Pieces(segs, vlan)), snaplen, space)
  {
    hide Flat, TagHeader;
    ghost var c := Pieces(segs, vlan);
    frames := [];
    var space, i := snaplen, 0;
    ghost var k := 0;
    NothingYet(c, snaplen);
    if vlan.Tag? {
      frames, space := AddPiece(frames, TagHeader(segs[0], vlan.tpid, vlan.tci), space, c, 0, snaplen);
      if space == 0 {
        return;
      }
      frames, space := AddPiece(frames, segs[0][ETHER_LEN..], space, c, 1, snaplen);
      if space == 0 {
        return;
      }
      i, k := 1, 2;
    }
    while i < |segs|
      invariant i <= |segs| && k - i == |c| - |segs|
      invariant Written(frames, Flat(c[..k]), snaplen, space)
    {
      frames, space := AddPiece(frames, segs[i], space, c, k, snaplen);
      if space == 0 {
        return;
      }
      i, k := i + 1, k + 1;
    }
    assert c[..k] == c;
  }

  lemma NothingYet(c: Chain, snaplen: nat)
    ensures Written([], Flat(c[..0]), snaplen, snaplen)
  {
    assert c[..0] == [];
  }

  /** The bytes sent are the first `caplen` of the packet as it was on the wire, and the header
      says so: `caplen` is the snap length or the whole length, and `len` the whole length. */
  method Write(segs: Chain, pktLen: nat, vlan: Vlan, snaplen: U32)
    returns (caplen: U32, len: U32, frames: Chain)
    requires |segs| > 0 && (vlan.Tag? ==> |segs[0]| >= ETHER_LEN) && pktLen == |Flat(segs)| < WORD - TAG_LEN
    ensures vlan.Tag? ==> |Flat(segs)| >= ETHER_LEN
    ensures var w := OnWire(Flat(segs), vlan);
            && len == |w| && caplen == (if |w| < snaplen then |w| else snaplen)
            && Flat(frames) == w[..caplen]
  {
    PiecesOnWire(segs, vlan);
    len := pktLen;
    caplen := if len < snaplen then len else snaplen;
    if vlan.Tag? {
      caplen := caplen + TAG_LEN;
      if caplen > snaplen {
        caplen := snaplen;
      }
      len := len + TAG_LEN;
      TagIsInserted(Flat(segs), vlan.tpid, vlan.tci);
    }
    frames := Frames(segs, vlan, snaplen);
  }

  // ----- which captures get it -----

  /** A filter serves the captures whose bits are in its mask. */
  datatype CapFilter = CapFilter(mask: set<nat>, program: Program)

  /** How many bytes the filters are told they may read. */
  function Readable(pktLen: U32, snaplen: U32): U32 {
    if pktLen < snaplen then pktLen else snaplen
  }

  /** What a filter makes of the packet: it is given the length of the whole packet and the
      bytes of the first segment. */
  function Opinion(f: Program, segs: Chain, pktLen: U32, snaplen: U32): Outcome
    requires |segs| > 0
  {
    Verdict(f, Packet(segs[0], Readable(pktLen, snaplen), pktLen))
  }

  /** A capture gets the packet when it is on and no filter of its own turned the packet down,
      as long as every filter returns. */
  method Mask(captures: set<nat>, fs: seq<CapFilter>, segs: Chain, pktLen: U32, snaplen: U32)
    returns (ok: bool, mask: set<nat>)
    requires |segs| > 0
    ensures ok <==> forall i :: 0 <= i < |fs| ==> Opinion(fs[i].program, segs, pktLen, snaplen).Returned?
    ensures ok ==> forall slot :: slot in mask <==>
              slot in captures && forall i :: 0 <= i < |fs| && slot in fs[i].mask ==>
                                   Opinion(fs[i].program, segs, pktLen, snaplen) != Returned(0)
  {
    ok, mask := true, captures;
    for n := 0 to |fs|
      invariant ok <==> forall i :: 0 <= i < n ==> Opinion(fs[i].program, segs, pktLen, snaplen).Returned?
      invariant ok ==> forall slot :: slot in mask <==>
                  slot in captures && forall i :: 0 <= i < n && slot in fs[i].mask ==>
                                       Opinion(fs[i].program, segs, pktLen, snaplen) != Returned(0)
    {
      var r := Filter(fs[n].program, segs[0], pktLen, Readable(pktLen, snaplen));
      assert r == Opinion(fs[n].program, segs, pktLen, snaplen);
      hide Opinion;
      if !r.Returned? {
        ok := false;
      } else if r.value == 0 {
        mask := mask - fs[n].mask;
      }
    }
  }

  /** A program the validator let through. For an empty one, which it also lets through, the
      allocator gives no memory and nothing is installed. */
  ghost predicate Installed(f: Program) {
    f.Code? && f.insns != [] && Acceptable(f.insns)
  }

  /** Every filter that can be installed reads inside the first segment, and returns, exactly
      when what may be read lies in it. A longer packet in several segments has more. */
  lemma FiltersReturn(segs: Chain, pktLen: U32, snaplen: U32)
    requires |segs| > 0
    ensures (forall f :: Installed(f) ==> Opinion(f, segs, pktLen, snaplen).Returned?)
            <==> Readable(pktLen, snaplen) <= |segs[0]|
  {
    var pkt := Packet(segs[0], Readable(pktLen, snaplen), pktLen);
    if pkt.caplen <= |pkt.bytes| {
      forall f | Installed(f)
        ensures Opinion(f, segs, pktLen, snaplen).Returned?
      {
        AcceptedPrograms(f.insns, pkt, 0, BLANK);
      }
    } else {
      ReadsOutside(pkt);
      var f := Code(LoadByte(|pkt.bytes|));
      hide Run, Acceptable;
      assert Installed(f) && Opinion(f, segs, pktLen, snaplen) == PastBuffer;
    }
  }

  /** Sixty bytes in two segments: a filter on the IP header after the Ethernet header reads
      past the first. */
  lemma TwoSegmentsExample(segs: Chain)
    requires |segs| == 2 && |segs[0]| == 14 && |segs[1]| == 46
    ensures Installed(Code(LoadByte(14))) && Opinion(Code(LoadByte(14)), segs, 60, 65535) == PastBuffer
  {
    ReadsOutside(Packet(segs[0], 60, 60));
    hide Run, Acceptable;
  }

  lemma {:induction false} SameCaptured(prog: seq<Insn>, pkt: Packet, pkt': Packet, pc: nat, regs: Regs)
    requires pkt.caplen == pkt'.caplen <= |pkt.bytes| && pkt.wirelen == pkt'.wirelen
    requires pkt.caplen <= |pkt'.bytes| && pkt.bytes[..pkt.caplen] == pkt'.bytes[..pkt.caplen]
    ensures Run(prog, pkt, pc, regs) == Run(prog, pkt', pc, regs)
    decreases |prog| - pc
  {
    if pc < |prog| {
      SameEffect(prog[pc], pkt, pkt', regs);
      match Exec(prog[pc], regs, pkt)
      case Stop(_) =>
      case Go(regs', skip) => SameCaptured(prog, pkt, pkt', pc + 1 + skip, regs');
    }
  }

  lemma SameLoad(pkt: Packet, pkt': Packet, off: nat, width: nat)
    requires width in {1, 2, 4} && pkt.caplen == pkt'.caplen <= |pkt.bytes|
    requires pkt.caplen <= |pkt'.bytes| && pkt.bytes[..pkt.caplen] == pkt'.bytes[..pkt.caplen]
    ensures Load(pkt, off, width) == Load(pkt', off, width)
  {
    if off + width <= pkt.caplen {
      assert pkt.bytes[off..off + width] == pkt.bytes[..pkt.caplen][off..off + width];
      assert pkt'.bytes[off..off + width] == pkt'.bytes[..pkt.caplen][off..off + width];
    }
  }

  lemma SameEffect(i: Insn, pkt: Packet, pkt': Packet, regs: Regs)
    requires pkt.caplen == pkt'.caplen <= |pkt.bytes| && pkt.wirelen == pkt'.wirelen
    requires pkt.caplen <= |pkt'.bytes| && pkt.bytes[..pkt.caplen] == pkt'.bytes[..pkt.caplen]
    ensures Exec(i, regs, pkt) == Exec(i, regs, pkt')
  {
    hide Load, Alu, Test;
    if Known(i.code) && Class(i.code) == LD && Mode(i.code) in {1, 2} {
      SameLoad(pkt, pkt', if Mode(i.code) == 1 then i.k else regs.x + i.k, Width(Size(i.code)));
    } else if Known(i.code) && Class(i.code) == LDX {
      SameLoad(pkt, pkt', i.k, 1);
    }
  }

  /** No filter sees what lies behind the snap length. */
  lemma BehindTheSnap(f: Program, segs: Chain, segs': Chain, pktLen: U32, snaplen: U32)
    requires |segs| > 0 && |segs'| > 0 && snaplen <= |segs[0]| && snaplen <= |segs'[0]|
    requires segs[0][..snaplen] == segs'[0][..snaplen]
    ensures Opinion(f, segs, pktLen, snaplen) == Opinion(f, segs', pktLen, snaplen)
  {
    var n := Readable(pktLen, snaplen);
    var pkt, pkt' := Packet(segs[0], n, pktLen), Packet(segs'[0], n, pktLen);
    assert segs[0][..n] == segs[0][..snaplen][..n] && segs'[0][..n] == segs'[0][..snaplen][..n];
    if f.Code? {
      SameCaptured(f.insns, pkt, pkt', 0, BLANK);
    }
  }

  /** And a filter sees every byte before it that the packet has, when the first segment does. */
  lemma BeforeTheSnap(segs: Chain, pktLen: U32, snaplen: U32, k: U32)
    requires |segs| > 0 && k < |segs[0]|
    ensures Opinion(Code(LoadByte(k)), segs, pktLen, snaplen) ==
            Returned(if k < pktLen && k < snaplen then WORD - 1 else 0)
  {
    var pkt, prog := Packet(segs[0], Readable(pktLen, snaplen), pktLen), LoadByte(k);
    if k < pktLen && k < snaplen {
      BigEndianBytes(pkt.bytes[k..k + 1]);
      assert Exec(prog[0], BLANK, pkt) == Go(BLANK.(a := pkt.bytes[k]), 0);
      assert Run(prog, pkt, 1, BLANK.(a := pkt.bytes[k])).outcome == Returned(WORD - 1);
    } else {
      assert Exec(prog[0], BLANK, pkt) == Stop(Returned(0));
    }
    hide Exec;
    assert Run(prog, pkt, 0, BLANK).outcome == Returned(if k < pktLen && k < snaplen then WORD - 1 else 0);
  }
}
