/** Address resolution, from src/arp.c and the updates and deletions of src/if_ether.c and
    src/if_llatbl.c that run beside it. One address of one interface is modelled. Threads look
    the entry up without its lock; each section under the lock is one step. */
module Arp {
  import opened Options

  type Packet = nat
  type Addr = nat

  const MAX_HOLD := 8
  const BYTE := 256

  // ----- one entry -----

  datatype Entry = Entry(valid: bool, deleted: bool, fixed: bool, held: seq<Packet>, asked: nat, addr: Addr)

  function NewEntry(fixed: bool): Entry {
    Entry(false, false, fixed, [], 0, 0)
  }

  function Hold(e: Entry, p: Packet): Entry {
    e.(held := (if |e.held| >= MAX_HOLD then e.held[1..] else e.held) + [p], asked := (e.asked + 1) % BYTE)
  }

  /** The oldest packet, when there is no place for another. */
  function Oldest(e: Entry): seq<Packet> {
    if |e.held| >= MAX_HOLD then [e.held[0]] else []
  }

  /** A fixed entry takes no update that is not itself fixed. */
  function Updated(e: Entry, fixed: bool, addr: Addr): Entry {
    if e.fixed && !fixed then e
    else e.(valid := true, fixed := e.fixed || fixed, held := if e.valid then e.held else [], addr := addr)
  }

  function Released(e: Entry, fixed: bool): seq<Packet> {
    if (e.fixed && !fixed) || e.valid then [] else e.held
  }

  function Destroyed(e: Entry): Entry {
    e.(deleted := true, held := [])
  }

  method ShiftDown(a: array<Packet>)
    requires a.Length > 0
    modifies a
    ensures a[..a.Length - 1] == old(a[1..])
  {
    for i := 0 to a.Length - 1
      invariant a[..i] == old(a[1..i + 1]) && a[i..] == old(a[i..])
    {
      a[i] := a[i + 1];
    }
  }

  /** Copies out the first `n` packets and clears their places. */
  method TakeOut(a: array<Packet>, n: nat) returns (taken: seq<Packet>)
    requires n <= a.Length
    modifies a
    ensures taken == old(a[..n]) && a[n..] == old(a[n..])
  {
    taken := [];
    for i := 0 to n
      invariant taken == old(a[..i]) && a[i..] == old(a[i..])
    {
      taken := taken + [a[i]];
      a[i] := 0;
    }
  }

  /** The entry as it lies in memory. */
  class Llentry {
    var valid: bool
    var deleted: bool
    var fixed: bool
    var held: array<Packet>
    var numheld: nat
    var asked: nat
    var addr: Addr

    ghost predicate Valid()
      reads this
    {
      held.Length == MAX_HOLD && numheld <= MAX_HOLD && asked < BYTE
    }

    ghost function View(): Entry
      requires Valid()
      reads this, held
    {
      Entry(valid, deleted, fixed, held[..numheld], asked, addr)
    }

    constructor (fixed: bool)
      ensures Valid() && View() == NewEntry(fixed) && fresh(held)
    {
      valid, deleted, this.fixed := false, false, fixed;
      held, numheld, asked, addr := new Packet[MAX_HOLD], 0, 0, 0;
    }

    /** Queues a packet under the lock, dropping the oldest when full. */
    method Enqueue(p: Packet) returns (dropped: seq<Packet>, ask: bool)
      requires Valid()
      modifies this, held
      ensures Valid() && held == old(held)
      ensures View() == Hold(old(View()), p) && dropped == Oldest(old(View()))
      ensures ask <==> (old(asked) + 1) % BYTE == 1
    {
      if numheld >= MAX_HOLD {
        dropped := [held[0]];
        ShiftDown(held);
        held[MAX_HOLD - 1] := p;
        assert held[..MAX_HOLD - 1] == old(held[1..]) == old(held[..numheld])[1..];
        assert held[..numheld] == held[..MAX_HOLD - 1] + [p];
      } else {
        dropped := [];
        held[numheld] := p;
        numheld := numheld + 1;
      }
      asked := (asked + 1) % BYTE;
      ask := asked == 1;
    }

    /** Makes the entry valid under the lock and takes out what it held. */
    method Update(asFixed: bool, newAddr: Addr) returns (taken: seq<Packet>)
      requires Valid()
      modifies this, held
      ensures Valid() && held == old(held)
      ensures View() == Updated(old(View()), asFixed, newAddr) && taken == Released(old(View()), asFixed)
    {
      taken := [];
      var wasValid := valid;
      if fixed && !asFixed {
        return;
      }
      if !wasValid || addr != newAddr {
        addr := newAddr;
      }
      valid, fixed := true, fixed || asFixed;
      if !wasValid {
        taken := TakeOut(held, numheld);
        numheld := 0;
      }
    }

    method Destroy() returns (freed: seq<Packet>)
      requires Valid()
      modifies this
      ensures Valid() && held == old(held)
      ensures View() == Destroyed(old(View())) && freed == old(View()).held
    {
      deleted := true;
      freed := held[..numheld];
      numheld := 0;
    }
  }

  // ----- what an entry holds -----

  function HoldAll(e: Entry, ps: seq<Packet>): Entry {
    if ps == [] then e else Hold(HoldAll(e, ps[..|ps| - 1]), ps[|ps| - 1])
  }

  function DroppedAll(e: Entry, ps: seq<Packet>): seq<Packet> {
    if ps == [] then []
    else DroppedAll(e, ps[..|ps| - 1]) + Oldest(HoldAll(e, ps[..|ps| - 1]))
  }

  /** How many of `n` packets there was no place for. */
  function Spilt(n: nat): nat {
    if n < MAX_HOLD then 0 else n - MAX_HOLD
  }

  lemma Slides(ps: seq<Packet>)
    requires ps != []
    ensures var init, n := ps[..|ps| - 1], Spilt(|ps| - 1);
            && (if |init| >= MAX_HOLD then init[n..][1..] else init[n..]) + [ps[|ps| - 1]] == ps[Spilt(|ps|)..]
            && init[..n] + (if |init| >= MAX_HOLD then [init[n]] else []) == ps[..Spilt(|ps|)]
  {
    var init, n := ps[..|ps| - 1], Spilt(|ps| - 1);
    if |init| >= MAX_HOLD {
      assert init[n..][1..] == init[n + 1..];
      assert init[n + 1..] + [ps[|ps| - 1]] == ps[n + 1..];
      assert init[..n] + [init[n]] == ps[..n + 1];
    } else {
      assert init[0..] == init && ps[0..] == ps == init + [ps[|ps| - 1]];
    }
  }

  /** Packets queued on an empty entry: the last eight are held, the others were dropped, both
      in order. */
  lemma {:induction false} HoldsTheLatest(e: Entry, ps: seq<Packet>)
    requires e.held == []
    ensures HoldAll(e, ps).held == ps[Spilt(|ps|)..]
    ensures DroppedAll(e, ps) == ps[..Spilt(|ps|)]
  {
    if ps != [] {
      var init, n := ps[..|ps| - 1], Spilt(|ps| - 1);
      HoldsTheLatest(e, init);
      Slides(ps);
      assert |init[n..]| >= MAX_HOLD <==> |init| >= MAX_HOLD;
      assert |init| >= MAX_HOLD ==> init[n..][0] == init[n];
    }
  }

  /** How many of the queued packets made the resolver send a request. */
  function Asks(e: Entry, ps: seq<Packet>): nat {
    if ps == [] then 0
    else Asks(e, ps[..|ps| - 1]) + if HoldAll(e, ps).asked == 1 then 1 else 0
  }

  lemma NextAsk(n: nat)
    ensures (n % BYTE + 1) % BYTE == (n + 1) % BYTE
    ensures (n + BYTE) / BYTE == (n + BYTE - 1) / BYTE + if (n + 1) % BYTE == 1 then 1 else 0
  {
  }

  /** The first packet asks; the count of questions is a byte, so every 256th after it does too. */
  lemma {:induction false} AsksOnce(e: Entry, ps: seq<Packet>)
    requires e.asked == 0
    ensures HoldAll(e, ps).asked == |ps| % BYTE
    ensures Asks(e, ps) == (|ps| + BYTE - 1) / BYTE
    ensures Asks(e, ps) <= 1 <==> |ps| <= BYTE
  {
    if ps != [] {
      AsksOnce(e, ps[..|ps| - 1]);
      NextAsk(|ps| - 1);
    }
  }

  /** How many expiries of the timer ask again before the one that deletes the entry. */
  function Probes(e: Entry, retries: nat): nat
    requires e.asked < BYTE && retries < BYTE - 1
    decreases if e.asked == BYTE - 1 then BYTE else BYTE - 1 - e.asked
  {
    var e' := e.(asked := (e.asked + 1) % BYTE);
    if e'.asked <= retries then 1 + Probes(e', retries) else 0
  }

  lemma {:induction false} ProbesLeft(e: Entry, retries: nat)
    requires e.asked < BYTE - 1 && retries < BYTE - 1
    ensures Probes(e, retries) == if e.asked < retries then retries - e.asked else 0
    decreases BYTE - e.asked
  {
    if e.asked < retries {
      ProbesLeft(e.(asked := e.asked + 1), retries);
    }
  }

  /** Queued packets are counted with the retries, so a burst uses them up: after `retries`
      packets the first expiry deletes the entry without having asked again. */
  lemma BurstUsesRetries(e: Entry, ps: seq<Packet>, retries: nat)
    requires e.asked == 0 && retries < BYTE - 1
    ensures var n := |ps| % BYTE;
            HoldAll(e, ps).asked < BYTE &&
            Probes(HoldAll(e, ps), retries) ==
              if n == BYTE - 1 then 1 + retries else if n < retries then retries - n else 0
  {
    AsksOnce(e, ps);
    var e' := HoldAll(e, ps);
    if e'.asked == BYTE - 1 {
      ProbesLeft(e'.(asked := 0), retries);
    } else {
      ProbesLeft(e', retries);
    }
  }

  // ----- the threads -----

  datatype Thread =
    | Idle
    | Looking(p: Packet)
    | Checking(p: Packet, id: nat)
    | Creating(p: Packet)
    | Locking(p: Packet, id: nat)

  /** `table` is the linked entry. `taken` are the packets each update has yet to send, `given` the
      addresses that the resolved packets got. */
  datatype World = World(
    table: Option<nat>, entries: seq<Entry>, threads: seq<Thread>, taken: seq<seq<Packet>>,
    resolved: seq<Packet>, given: seq<Addr>, refused: seq<Packet>, dropped: seq<Packet>, sent: seq<Packet>,
    requests: nat)

  datatype Step =
    | Arrive(t: nat, p: Packet)
    | Own(t: nat, room: bool)
    | Insert(fixed: bool)
    | Update(id: nat, fixed: bool, addr: Addr)
    | Send(j: nat)
    | Delete(id: nat, main: bool)
    | Unlink(id: nat)
    | Timeout(id: nat, retries: nat)

  function Became(w: World, t: nat, th: Thread): World
    requires t < |w.threads|
  {
    w.(threads := w.threads[t := th])
  }

  function Wrote(w: World, id: nat, e: Entry): World
    requires id < |w.entries|
  {
    w.(entries := w.entries[id := e])
  }

  /** A new entry, unless one is linked already. */
  function Linked(w: World, fixed: bool): World {
    if w.table.Some? then w
    else w.(table := Some(|w.entries|), entries := w.entries + [NewEntry(fixed)])
  }

  function Gone(w: World, id: nat, main: bool): World
    requires id < |w.entries|
  {
    var e := w.entries[id];
    var w' := Wrote(w, id, Destroyed(e)).(dropped := w.dropped + e.held);
    if main && w.table == Some(id) then w'.(table := None) else w'
  }

  /** The section of the resolver under the lock. */
  function Locked(w: World, t: nat, p: Packet, id: nat): World
    requires t < |w.threads| && id < |w.entries|
  {
    var e := w.entries[id];
    if e.deleted then Became(w, t, Looking(p))
    else if e.valid then Became(w, t, Idle).(resolved := w.resolved + [p], given := w.given + [e.addr])
    else
      var e' := Hold(e, p);
      Became(Wrote(w, id, e'), t, Idle).(
        dropped := w.dropped + Oldest(e), requests := w.requests + if e'.asked == 1 then 1 else 0)
  }

  /** One step of a resolver. `room` is whether an entry can be made. */
  function Resolve(w: World, t: nat, room: bool): World
    requires t < |w.threads|
  {
    match w.threads[t]
    case Idle => w
    case Looking(p) =>
      if w.table == None then Became(w, t, Creating(p)) else Became(w, t, Checking(p, w.table.value))
    case Checking(p, id) =>
      if id < |w.entries| && w.entries[id].valid then
        Became(w, t, Idle).(resolved := w.resolved + [p], given := w.given + [w.entries[id].addr])
      else Became(w, t, Locking(p, id))
    case Creating(p) =>
      if w.table.Some? || room then
        var w' := Linked(w, false);
        Became(w', t, Locking(p, w'.table.value))
      else Became(w, t, Idle).(refused := w.refused + [p])
    case Locking(p, id) =>
      if id < |w.entries| then Locked(w, t, p, id) else w
  }

  /** Steps that cannot be taken change nothing. */
  function Next(w: World, s: Step): World {
    match s
    case Arrive(t, p) =>
      if t < |w.threads| && w.threads[t] == Idle then Became(w, t, Looking(p)) else w
    case Own(t, room) => if t < |w.threads| then Resolve(w, t, room) else w
    case Insert(fixed) => Linked(w, fixed)
    case Update(id, fixed, addr) =>
      if id < |w.entries| then
        Wrote(w, id, Updated(w.entries[id], fixed, addr)).(taken := w.taken + [Released(w.entries[id], fixed)])
      else w
    case Send(j) =>
      if j < |w.taken| && w.taken[j] != [] then
        w.(taken := w.taken[j := w.taken[j][1..]], sent := w.sent + [w.taken[j][0]])
      else w
    case Delete(id, main) => if id < |w.entries| then Gone(w, id, main) else w
    case Unlink(id) =>
      if id < |w.entries| && w.entries[id].deleted && w.table == Some(id) then w.(table := None) else w
    case Timeout(id, retries) =>
      if id < |w.entries| && !w.entries[id].deleted then
        var e := w.entries[id];
        var e' := e.(asked := (e.asked + 1) % BYTE);
        if e'.asked <= retries then Wrote(w, id, e').(requests := w.requests + 1)
        else Gone(Wrote(w, id, e'), id, true)
      else w
  }

  // ----- safety -----

  /** An entry with an address, or on its way out, holds no packet. */
  predicate EntryGood(e: Entry) {
    |e.held| <= MAX_HOLD && e.asked < BYTE && (e.held != [] ==> !e.valid && !e.deleted)
  }

  predicate ThreadGood(th: Thread, n: nat) {
    th.Checking? || th.Locking? ==> th.id < n
  }

  predicate Good(w: World) {
    && (w.table.Some? ==> w.table.value < |w.entries|)
    && (forall i :: 0 <= i < |w.entries| ==> EntryGood(w.entries[i]))
    && (forall i :: 0 <= i < |w.entries| ==> w.table != Some(i) ==> w.entries[i].deleted)
    && (forall t :: 0 <= t < |w.threads| ==> ThreadGood(w.threads[t], |w.entries|))
  }

  lemma LinkedKeeps(w: World, fixed: bool)
    requires Good(w)
    ensures Good(Linked(w, fixed)) && Linked(w, fixed).table.Some?
  {
  }

  lemma LockedKeeps(w: World, t: nat, p: Packet, id: nat)
    requires Good(w) && t < |w.threads| && id < |w.entries|
    ensures Good(Locked(w, t, p, id))
  {
  }

  lemma ResolveKeeps(w: World, t: nat, room: bool)
    requires Good(w) && t < |w.threads|
    ensures Good(Resolve(w, t, room))
  {
    assert ThreadGood(w.threads[t], |w.entries|);
    match w.threads[t]
    case Creating(p) =>
      LinkedKeeps(w, false);
    case Locking(p, id) =>
      LockedKeeps(w, t, p, id);
    case _ =>
  }

  lemma GoneKeeps(w: World, id: nat, main: bool)
    requires Good(w) && id < |w.entries|
    ensures Good(Gone(w, id, main))
  {
  }

  lemma WroteKeeps(w: World, id: nat, e: Entry)
    requires Good(w) && id < |w.entries| && EntryGood(e) && (w.entries[id].deleted ==> e.deleted)
    ensures Good(Wrote(w, id, e))
  {
  }

  lemma NextKeeps(w: World, s: Step)
    requires Good(w)
    ensures Good(Next(w, s))
  {
    match s
    case Own(t, room) =>
      if t < |w.threads| {
        ResolveKeeps(w, t, room);
      }
    case Insert(fixed) =>
      LinkedKeeps(w, fixed);
    case Update(id, fixed, addr) =>
      if id < |w.entries| {
        WroteKeeps(w, id, Updated(w.entries[id], fixed, addr));
      }
    case Delete(id, main) =>
      if id < |w.entries| {
        GoneKeeps(w, id, main);
      }
    case Timeout(id, retries) =>
      if id < |w.entries| && !w.entries[id].deleted {
        var e' := w.entries[id].(asked := (w.entries[id].asked + 1) % BYTE);
        WroteKeeps(w, id, e');
        GoneKeeps(Wrote(w, id, e'), id, true);
      }
    case _ =>
  }

  // ----- no packet is lost or sent twice -----

  function Count(ps: seq<Packet>, p: Packet): nat {
    if ps == [] then 0 else Count(ps[..|ps| - 1], p) + if ps[|ps| - 1] == p then 1 else 0
  }

  function Sum<T>(f: T -> nat, s: seq<T>): nat {
    if s == [] then 0 else Sum(f, s[..|s| - 1]) + f(s[|s| - 1])
  }

  function HeldCount(p: Packet): Entry -> nat {
    (e: Entry) => Count(e.held, p)
  }

  function CarriedCount(p: Packet): Thread -> nat {
    (th: Thread) => if th != Idle && th.p == p then 1 else 0
  }

  function TakenCount(p: Packet): seq<Packet> -> nat {
    (ps: seq<Packet>) => Count(ps, p)
  }

  /** How often a packet is found anywhere. */
  function Total(w: World, p: Packet): nat {
    Sum(CarriedCount(p), w.threads) + Sum(HeldCount(p), w.entries) + Sum(TakenCount(p), w.taken)
    + Count(w.resolved, p) + Count(w.refused, p) + Count(w.dropped, p) + Count(w.sent, p)
  }

  lemma {:induction false} CountConcat(a: seq<Packet>, b: seq<Packet>, p: Packet)
    ensures Count(a + b, p) == Count(a, p) + Count(b, p)
  {
    if b == [] {
      assert a + b == a;
    } else {
      assert (a + b)[..|a + b| - 1] == a + b[..|b| - 1];
      CountConcat(a, b[..|b| - 1], p);
    }
  }

  lemma CountOne(x: Packet, p: Packet)
    ensures Count([x], p) == if x == p then 1 else 0
  {
    assert [x][..0] == [];
  }

  lemma {:induction false} SumSet<T>(f: T -> nat, s: seq<T>, i: nat, x: T)
    requires i < |s|
    ensures Sum(f, s[i := x]) + f(s[i]) == Sum(f, s) + f(x)
  {
    var s', n := s[i := x], |s| - 1;
    if i == n {
      assert s'[..n] == s[..n];
    } else {
      SumSet(f, s[..n], i, x);
      assert s'[..n] == s[..n][i := x];
    }
  }

  lemma SumSnoc<T>(f: T -> nat, s: seq<T>, x: T)
    ensures Sum(f, s + [x]) == Sum(f, s) + f(x)
  {
    assert (s + [x])[..|s|] == s;
  }

  lemma HoldCounts(e: Entry, x: Packet, p: Packet)
    ensures Count(Hold(e, x).held, p) + Count(Oldest(e), p) == Count(e.held, p) + if x == p then 1 else 0
  {
    CountOne(x, p);
    if |e.held| >= MAX_HOLD {
      CountConcat(e.held[1..], [x], p);
      CountConcat([e.held[0]], e.held[1..], p);
      assert [e.held[0]] + e.held[1..] == e.held;
    } else {
      CountConcat(e.held, [x], p);
    }
  }

  lemma BecameCounts(w: World, t: nat, th: Thread, p: Packet)
    requires t < |w.threads|
    ensures Total(Became(w, t, th), p) + CarriedCount(p)(w.threads[t]) == Total(w, p) + CarriedCount(p)(th)
  {
    hide Count, Sum;
    SumSet(CarriedCount(p), w.threads, t, th);
  }

  lemma WroteCounts(w: World, id: nat, e: Entry, p: Packet)
    requires id < |w.entries|
    ensures Total(Wrote(w, id, e), p) + Count(w.entries[id].held, p) == Total(w, p) + Count(e.held, p)
  {
    hide Count, Sum;
    SumSet(HeldCount(p), w.entries, id, e);
  }

  lemma LinkedCounts(w: World, fixed: bool, p: Packet)
    ensures Total(Linked(w, fixed), p) == Total(w, p)
  {
    hide Sum;
    SumSnoc(HeldCount(p), w.entries, NewEntry(fixed));
  }

  lemma GoneCounts(w: World, id: nat, main: bool, p: Packet)
    requires id < |w.entries|
    ensures Total(Gone(w, id, main), p) == Total(w, p)
  {
    var e := w.entries[id];
    hide Sum;
    WroteCounts(w, id, Destroyed(e), p);
    CountConcat(w.dropped, e.held, p);
  }

  lemma LockedCounts(w: World, t: nat, x: Packet, id: nat, p: Packet)
    requires t < |w.threads| && id < |w.entries| && w.threads[t] == Locking(x, id)
    ensures Total(Locked(w, t, x, id), p) == Total(w, p)
  {
    hide Sum, Count;
    var e := w.entries[id];
    CountOne(x, p);
    BecameCounts(w, t, Looking(x), p);
    BecameCounts(w, t, Idle, p);
    CountConcat(w.resolved, [x], p);
    WroteCounts(w, id, Hold(e, x), p);
    BecameCounts(Wrote(w, id, Hold(e, x)), t, Idle, p);
    HoldCounts(e, x, p);
    CountConcat(w.dropped, Oldest(e), p);
  }

  lemma CheckedCounts(w: World, t: nat, room: bool, p: Packet)
    requires t < |w.threads| && w.threads[t].Checking?
    ensures Total(Resolve(w, t, room), p) == Total(w, p)
  {
    hide Sum, Count;
    var x := w.threads[t].p;
    BecameCounts(w, t, Resolve(w, t, room).threads[t], p);
    CountOne(x, p);
    CountConcat(w.resolved, [x], p);
  }

  lemma CreatedCounts(w: World, t: nat, room: bool, p: Packet)
    requires t < |w.threads| && w.threads[t].Creating?
    ensures Total(Resolve(w, t, room), p) == Total(w, p)
  {
    hide Sum, Count;
    var x := w.threads[t].p;
    if w.table.Some? || room {
      LinkedCounts(w, false, p);
      BecameCounts(Linked(w, false), t, Resolve(w, t, room).threads[t], p);
    } else {
      BecameCounts(w, t, Idle, p);
      CountOne(x, p);
      CountConcat(w.refused, [x], p);
    }
  }

  lemma ResolveCounts(w: World, t: nat, room: bool, p: Packet)
    requires t < |w.threads|
    ensures Total(Resolve(w, t, room), p) == Total(w, p)
  {
    hide Total;
    match w.threads[t]
    case Idle =>
    case Looking(x) =>
      BecameCounts(w, t, Resolve(w, t, room).threads[t], p);
    case Checking(x, id) =>
      CheckedCounts(w, t, room, p);
    case Creating(x) =>
      CreatedCounts(w, t, room, p);
    case Locking(x, id) =>
      if id < |w.entries| {
        LockedCounts(w, t, x, id, p);
      }
  }

  lemma UpdateCounts(w: World, id: nat, fixed: bool, addr: Addr, p: Packet)
    ensures Total(Next(w, Update(id, fixed, addr)), p) == Total(w, p)
  {
    if id < |w.entries| {
      var e := w.entries[id];
      WroteCounts(w, id, Updated(e, fixed, addr), p);
      SumSnoc(TakenCount(p), w.taken, Released(e, fixed));
    }
  }

  lemma SendCounts(w: World, j: nat, p: Packet)
    ensures Total(Next(w, Send(j)), p) == Total(w, p)
  {
    if j < |w.taken| && w.taken[j] != [] {
      var ps := w.taken[j];
      SumSet(TakenCount(p), w.taken, j, ps[1..]);
      CountConcat([ps[0]], ps[1..], p);
      assert [ps[0]] + ps[1..] == ps;
      CountConcat(w.sent, [ps[0]], p);
    }
  }

  /** Whether a packet comes in with a step. */
  function Comes(w: World, s: Step, p: Packet): nat {
    if s.Arrive? && s.t < |w.threads| && w.threads[s.t] == Idle && s.p == p then 1 else 0
  }

  /** Every step keeps every packet, and in one place. */
  lemma NextCounts(w: World, s: Step, p: Packet)
    ensures Total(Next(w, s), p) == Total(w, p) + Comes(w, s, p)
  {
    hide Sum, Count;
    match s
    case Arrive(t, x) =>
      if t < |w.threads| && w.threads[t] == Idle {
        BecameCounts(w, t, Looking(x), p);
      }
    case Own(t, room) =>
      if t < |w.threads| {
        ResolveCounts(w, t, room, p);
      }
    case Insert(fixed) =>
      LinkedCounts(w, fixed, p);
    case Update(id, fixed, addr) =>
      UpdateCounts(w, id, fixed, addr, p);
    case Send(j) =>
      SendCounts(w, j, p);
    case Delete(id, main) =>
      if id < |w.entries| {
        GoneCounts(w, id, main, p);
      }
    case Unlink(id) =>
    case Timeout(id, retries) =>
      if id < |w.entries| && !w.entries[id].deleted {
        var e' := w.entries[id].(asked := (w.entries[id].asked + 1) % BYTE);
        WroteCounts(w, id, e', p);
        GoneCounts(Wrote(w, id, e'), id, true, p);
      }
  }

  // ----- whole runs -----

  function Start(threads: nat): World {
    World(None, [], seq(threads, _ => Idle), [], [], [], [], [], [], 0)
  }

  function After(w: World, run: seq<Step>): World {
    if run == [] then w else Next(After(w, run[..|run| - 1]), run[|run| - 1])
  }

  function Came(w: World, run: seq<Step>, p: Packet): nat {
    if run == [] then 0
    else Came(w, run[..|run| - 1], p) + Comes(After(w, run[..|run| - 1]), run[|run| - 1], p)
  }

  lemma {:induction false} RunKeeps(w: World, run: seq<Step>)
    requires Good(w)
    ensures Good(After(w, run))
  {
    if run != [] {
      RunKeeps(w, run[..|run| - 1]);
      NextKeeps(After(w, run[..|run| - 1]), run[|run| - 1]);
    }
  }

  lemma {:induction false} RunCounts(w: World, run: seq<Step>, p: Packet)
    ensures Total(After(w, run), p) == Total(w, p) + Came(w, run, p)
  {
    if run != [] {
      RunCounts(w, run[..|run| - 1], p);
      NextCounts(After(w, run[..|run| - 1]), run[|run| - 1], p);
    }
  }

  lemma {:induction false} StartCounts(threads: nat, p: Packet)
    ensures Total(Start(threads), p) == 0
  {
    IdleCounts(seq(threads, _ => Idle), p);
  }

  lemma {:induction false} IdleCounts(ts: seq<Thread>, p: Packet)
    requires forall t :: 0 <= t < |ts| ==> ts[t] == Idle
    ensures Sum(CarriedCount(p), ts) == 0
  {
    if ts != [] {
      IdleCounts(ts[..|ts| - 1], p);
    }
  }

  /** Over any interleaving: an entry that is valid, deleted or no longer linked holds no
      packet, at most one entry is live, and each packet is in as many places as it came in. */
  lemma Reachable(threads: nat, run: seq<Step>, p: Packet)
    ensures var w := After(Start(threads), run);
            && (forall i :: 0 <= i < |w.entries| ==>
                  w.entries[i].valid || w.entries[i].deleted || w.table != Some(i) ==> w.entries[i].held == [])
            && (forall i, j :: 0 <= i < j < |w.entries| ==> w.entries[i].deleted || w.entries[j].deleted)
            && Total(w, p) == Came(Start(threads), run, p)
  {
    hide Total, Came, Sum, Count;
    RunKeeps(Start(threads), run);
    RunCounts(Start(threads), run, p);
    StartCounts(threads, p);
    var w := After(Start(threads), run);
    assert forall i :: 0 <= i < |w.entries| ==> EntryGood(w.entries[i]);
  }

  // ----- what an entry holds, over a run -----

  predicate Queues(w: World, s: Step, id: nat) {
    && s.Own? && s.t < |w.threads| && w.threads[s.t].Locking? && w.threads[s.t].id == id < |w.entries|
    && !w.entries[id].deleted && !w.entries[id].valid
  }

  /** An update that the entry does not refuse. */
  predicate Accepts(w: World, s: Step, id: nat) {
    s.Update? && s.id == id < |w.entries| && (s.fixed || !w.entries[id].fixed)
  }

  /** The entry is deleted, by request or because its retries are used up. */
  predicate Deletes(w: World, s: Step, id: nat) {
    id < |w.entries| &&
    match s
    case Delete(i, _) => i == id
    case Timeout(i, retries) => i == id && !w.entries[id].deleted && (w.entries[id].asked + 1) % BYTE > retries
    case _ => false
  }

  predicate Empties(w: World, s: Step, id: nat) {
    (Accepts(w, s, id) && !w.entries[id].valid) || Deletes(w, s, id)
  }

  /** The packets queued on entry `id` since it was last emptied. */
  function Queued(w: World, run: seq<Step>, id: nat): seq<Packet> {
    if run == [] then []
    else
      var before, s := run[..|run| - 1], run[|run| - 1];
      var now := After(w, before);
      if Queues(now, s, id) then Queued(w, before, id) + [now.threads[s.t].p]
      else if Empties(now, s, id) then []
      else Queued(w, before, id)
  }

  lemma ResolveHolds(w: World, t: nat, room: bool, id: nat)
    requires Good(w) && id < |w.entries| && t < |w.threads|
    ensures id < |Resolve(w, t, room).entries|
    ensures var e, e' := w.entries[id], Resolve(w, t, room).entries[id];
            e'.held == if Queues(w, Own(t, room), id) then Hold(e, w.threads[t].p).held else e.held
  {
    hide Good;
  }

  /** A step changes what an entry holds only by queueing on it or emptying it. */
  lemma NextHolds(w: World, s: Step, id: nat)
    requires Good(w) && id < |w.entries|
    ensures id < |Next(w, s).entries|
    ensures var e, e' := w.entries[id], Next(w, s).entries[id];
            e'.held == if Queues(w, s, id) then Hold(e, w.threads[s.t].p).held
                       else if Empties(w, s, id) then [] else e.held
  {
    if s.Own? {
      hide Resolve, Good;
      if s.t < |w.threads| {
        ResolveHolds(w, s.t, s.room, id);
      }
    } else {
      hide Good;
    }
  }

  lemma NextNew(w: World, s: Step, id: nat)
    requires Good(w) && |w.entries| <= id < |Next(w, s).entries|
    ensures Next(w, s).entries[id].held == []
  {
  }

  /** Over every run an entry holds the latest eight, or fewer, of those, in order. */
  lemma {:induction false} RunHoldsTheLatest(w: World, run: seq<Step>, id: nat)
    requires Good(w) && forall i :: 0 <= i < |w.entries| ==> w.entries[i].held == []
    ensures var w' := After(w, run);
            var q := Queued(w, run, id);
            if id < |w'.entries| then w'.entries[id].held == q[Spilt(|q|)..] else q == []
  {
    if run != [] {
      var before, s := run[..|run| - 1], run[|run| - 1];
      RunHoldsTheLatest(w, before, id);
      RunKeeps(w, before);
      var now := After(w, before);
      assert After(w, run) == Next(now, s);
      if id < |now.entries| {
        NextHolds(now, s, id);
        if Queues(now, s, id) {
          var q, p := Queued(w, before, id), now.threads[s.t].p;
          assert Queued(w, run, id) == q + [p];
          assert (q + [p])[..|q + [p]| - 1] == q;
          Slides(q + [p]);
          hide Queued, Next, After, Good, Queues;
        }
      } else if id < |Next(now, s).entries| {
        NextNew(now, s, id);
      }
    }
  }

  // ----- what becomes of a packet -----

  /** The resolver gives its packet the address: without the lock when the entry it found has
      one, and under the lock when it is also not on its way out. */
  predicate Resolves(w: World, s: Step) {
    && s.Own? && s.t < |w.threads|
    && match w.threads[s.t]
       case Checking(_, id) => id < |w.entries| && w.entries[id].valid
       case Locking(_, id) => id < |w.entries| && w.entries[id].valid && !w.entries[id].deleted
       case _ => false
  }

  /** There is no entry and none can be made. */
  predicate Refuses(w: World, s: Step) {
    s.Own? && s.t < |w.threads| && w.threads[s.t].Creating? && w.table == None && !s.room
  }

  /** What a step puts into `dropped`. */
  function Drops(w: World, s: Step): seq<Packet> {
    match s
    case Own(t, _) =>
      if t < |w.threads| && w.threads[t].Locking? && Queues(w, s, w.threads[t].id)
      then Oldest(w.entries[w.threads[t].id]) else []
    case Delete(id, _) => if Deletes(w, s, id) then w.entries[id].held else []
    case Timeout(id, _) => if Deletes(w, s, id) then w.entries[id].held else []
    case _ => []
  }

  /** What a step takes out of an entry to be sent. */
  function Takes(w: World, s: Step): seq<seq<Packet>> {
    if s.Update? && s.id < |w.entries|
    then [if Accepts(w, s, s.id) && !w.entries[s.id].valid then w.entries[s.id].held else []] else []
  }

  /** A request goes out with the packet that makes the count of questions one, and with every
      expiry of the timer before the last. */
  predicate Requests(w: World, s: Step) {
    match s
    case Own(t, _) =>
      t < |w.threads| && w.threads[t].Locking? && Queues(w, s, w.threads[t].id)
      && (w.entries[w.threads[t].id].asked + 1) % BYTE == 1
    case Timeout(id, _) => id < |w.entries| && !w.entries[id].deleted && !Deletes(w, s, id)
    case _ => false
  }

  /** The address the resolver hands out: that of the entry it found. */
  function Gives(w: World, s: Step): Addr
    requires Resolves(w, s)
  {
    w.entries[w.threads[s.t].id].addr
  }

  lemma ResolveOutcomes(w: World, t: nat, room: bool)
    requires t < |w.threads|
    ensures var s, w' := Own(t, room), Resolve(w, t, room);
            && w'.resolved == w.resolved + (if Resolves(w, s) then [w.threads[t].p] else [])
            && w'.given == w.given + (if Resolves(w, s) then [Gives(w, s)] else [])
            && w'.refused == w.refused + (if Refuses(w, s) then [w.threads[t].p] else [])
            && w'.dropped == w.dropped + Drops(w, s) && w'.taken == w.taken
            && w'.requests == w.requests + if Requests(w, s) then 1 else 0
  {
    hide NewEntry;
  }

  /** A packet gets the address, is refused, is dropped or is taken out to be sent exactly in
      these steps. */
  lemma NextOutcomes(w: World, s: Step)
    ensures Next(w, s).resolved == w.resolved + if Resolves(w, s) then [w.threads[s.t].p] else []
    ensures Next(w, s).given == w.given + if Resolves(w, s) then [Gives(w, s)] else []
    ensures Next(w, s).refused == w.refused + if Refuses(w, s) then [w.threads[s.t].p] else []
    ensures Next(w, s).dropped == w.dropped + Drops(w, s)
    ensures !s.Send? ==> Next(w, s).taken == w.taken + Takes(w, s)
    ensures Next(w, s).requests == w.requests + if Requests(w, s) then 1 else 0
  {
    hide Resolve, Queues;
    if s.Own? && s.t < |w.threads| {
      ResolveOutcomes(w, s.t, s.room);
    }
  }

  lemma ResolveMarks(w: World, t: nat, room: bool, id: nat)
    requires id < |w.entries| && t < |w.threads|
    ensures id < |Resolve(w, t, room).entries|
    ensures var e, e' := w.entries[id], Resolve(w, t, room).entries[id];
            e'.valid == e.valid && e'.fixed == e.fixed && e'.deleted == e.deleted && e'.addr == e.addr
  {
  }

  /** A step gives an entry its address only by an update it accepts, and marks it only by
      deleting it. */
  lemma NextMarks(w: World, s: Step, id: nat)
    requires id < |w.entries|
    ensures id < |Next(w, s).entries|
    ensures var e, e' := w.entries[id], Next(w, s).entries[id];
            && (e'.valid <==> e.valid || Accepts(w, s, id))
            && (e'.fixed <==> e.fixed || (Accepts(w, s, id) && s.fixed))
            && (e'.deleted <==> e.deleted || Deletes(w, s, id))
            && e'.addr == (if Accepts(w, s, id) then s.addr else e.addr)
  {
    hide Resolve;
    if s.Own? && s.t < |w.threads| {
      ResolveMarks(w, s.t, s.room, id);
    }
  }

  /** A new entry has no address and is fixed only when it was inserted as such. */
  lemma NextMade(w: World, s: Step, id: nat)
    requires |w.entries| <= id < |Next(w, s).entries|
    ensures id == |w.entries| && w.table == None
    ensures Next(w, s).entries[id] == NewEntry(s == Insert(true))
  {
  }

  predicate EverAccepted(w: World, run: seq<Step>, id: nat) {
    run != [] &&
    (EverAccepted(w, run[..|run| - 1], id) || Accepts(After(w, run[..|run| - 1]), run[|run| - 1], id))
  }

  /** The address in the latest update that the entry did not refuse. */
  function LatestAddr(w: World, run: seq<Step>, id: nat): Addr
    requires EverAccepted(w, run, id)
  {
    var before, s := run[..|run| - 1], run[|run| - 1];
    if Accepts(After(w, before), s, id) then s.addr else LatestAddr(w, before, id)
  }

  predicate EverDeleted(w: World, run: seq<Step>, id: nat) {
    run != [] &&
    (EverDeleted(w, run[..|run| - 1], id) || Deletes(After(w, run[..|run| - 1]), run[|run| - 1], id))
  }

  /** Inserted as fixed, or updated so. */
  predicate EverFixed(w: World, run: seq<Step>, id: nat) {
    run != [] &&
    var before, s := run[..|run| - 1], run[|run| - 1];
    var now := After(w, before);
    || EverFixed(w, before, id)
    || (s.Update? && s.id == id && s.fixed && id < |now.entries|)
    || (s == Insert(true) && id == |now.entries| && now.table == None)
  }

  lemma {:induction false} NotYetMade(w: World, run: seq<Step>, id: nat)
    requires |After(w, run).entries| <= id
    ensures !EverAccepted(w, run, id) && !EverDeleted(w, run, id) && !EverFixed(w, run, id)
  {
    if run != [] {
      var before, s := run[..|run| - 1], run[|run| - 1];
      EntriesGrow(After(w, before), s);
      NotYetMade(w, before, id);
      hide Accepts, Deletes;
    }
  }

  lemma EntriesGrow(w: World, s: Step)
    ensures |w.entries| <= |Next(w, s).entries|
    ensures s.Insert? && w.table == None ==> |w.entries| < |Next(w, s).entries|
  {
  }

  /** Over every run from the start an entry has an address exactly when an update came that it
      did not refuse, and then that of the latest; refuses updates exactly when it was made fixed or
      became so; and is marked exactly when it was deleted. */
  lemma {:induction false} RunMarks(threads: nat, run: seq<Step>, id: nat)
    requires id < |After(Start(threads), run).entries|
    ensures var w, e := Start(threads), After(Start(threads), run).entries[id];
            && (e.valid <==> EverAccepted(w, run, id)) && (e.valid ==> e.addr == LatestAddr(w, run, id))
            && (e.fixed <==> EverFixed(w, run, id))
            && (e.deleted <==> EverDeleted(w, run, id))
  {
    if run != [] {
      var w, before, s := Start(threads), run[..|run| - 1], run[|run| - 1];
      var now := After(w, before);
      if id < |now.entries| {
        RunMarks(threads, before, id);
        NextMarks(now, s, id);
      } else {
        NotYetMade(w, before, id);
        NextMade(now, s, id);
      }
      hide Next;
    }
  }

  /** Once an update was accepted, the next packet for the address is resolved at once. */
  lemma UpdateResolves(w: World, id: nat, fixed: bool, addr: Addr, t: nat, p: Packet, room: bool)
    requires Good(w) && w.table == Some(id) && Accepts(w, Update(id, fixed, addr), id)
    requires t < |w.threads| && w.threads[t] == Idle
    ensures var found := Next(Next(Next(w, Update(id, fixed, addr)), Arrive(t, p)), Own(t, room));
            var done := Next(found, Own(t, room));
            done.resolved == w.resolved + [p] && done.given == w.given + [addr]
  {
    var updated := Next(w, Update(id, fixed, addr));
    var found := Next(Next(updated, Arrive(t, p)), Own(t, room));
    assert found == Became(updated, t, Checking(p, id));
    assert updated.entries[id].valid && updated.entries[id].addr == addr;
    hide Next;
    assert Resolves(found, Own(t, room));
    NextOutcomes(found, Own(t, room));
  }

  // ----- a resolver on its own -----

  function Alone(w: World, t: nat, room: bool, n: nat): World
    requires t < |w.threads|
    ensures |Alone(w, t, room, n).threads| == |w.threads|
  {
    if n == 0 then w else Resolve(Alone(w, t, room, n - 1), t, room)
  }

  /** The linked entry is marked for deletion and has no address. */
  predicate Stuck(w: World)
    requires Good(w)
  {
    w.table.Some? && w.entries[w.table.value].deleted && !w.entries[w.table.value].valid
  }

  /** A resolver that looks the address up finishes unaided, within three steps, exactly when it
      does not find an entry that waits to be unlinked. Then it looks again and again. */
  lemma AloneFinishes(w: World, t: nat, room: bool)
    requires Good(w) && t < |w.threads| && w.threads[t].Looking?
    ensures Alone(w, t, room, 3).threads[t] == Idle <==> !Stuck(w)
    ensures Stuck(w) ==> Alone(w, t, room, 3) == w
  {
    var w1 := Resolve(w, t, room);
    var w2 := Resolve(w1, t, room);
    var w3 := Resolve(w2, t, room);
    assert Alone(w, t, room, 1) == Resolve(Alone(w, t, room, 0), t, room) == w1;
    assert Alone(w, t, room, 2) == w2 && Alone(w, t, room, 3) == w3;
    if Stuck(w) {
      assert w3.threads == w.threads;
    }
  }

  lemma {:induction false} StuckForever(w: World, t: nat, room: bool, k: nat)
    requires Good(w) && t < |w.threads| && w.threads[t].Looking? && Stuck(w)
    ensures Alone(w, t, room, 3 * k) == w
  {
    hide Good, Resolve, Stuck;
    if k > 0 {
      StuckForever(w, t, room, k - 1);
      AloneFinishes(w, t, room);
      hide Alone;
      AloneAdds(w, t, room, 3 * (k - 1), 3);
      assert 3 * (k - 1) + 3 == 3 * k;
    }
  }

  lemma {:induction false} AloneAdds(w: World, t: nat, room: bool, m: nat, n: nat)
    requires t < |w.threads|
    ensures Alone(w, t, room, m + n) == Alone(Alone(w, t, room, m), t, room, n)
  {
    hide Resolve;
    if n > 0 {
      AloneAdds(w, t, room, m, n - 1);
    }
  }
}
