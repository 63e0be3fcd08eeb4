/**
 The event list and its poll snapshot, `src/event.c`.

 Events are reference counted: one reference for being listed and one for every place in
 the poll array. The array is rebuilt from the list only when the list changed, and
 callbacks run while the array is walked, so an event can be unlisted and still polled.
 */
module EventList {

  class Event {
    const socket: nat  // 0 is the null socket of an event on a file descriptor
    const fd: int
    const src: nat
    var refcnt: int

    constructor (socket: nat, fd: int, src: nat)
      ensures this.socket == socket && this.fd == fd && this.src == src && refcnt == 1
    {
      this.socket, this.fd, this.src, refcnt := socket, fd, src, 1;
    }
  }

  datatype Item = OnSocket(socket: nat) | OnFd(fd: int)

  /** What a callback may do to the list. `room` is whether there is memory for the event. */
  datatype Op = Register(socket: nat, fd: int, src: nat, room: bool) | Unregister(socket: nat)

  /** A turn of the poll loop for one place in the array: whether the poll found it ready,
      what its callback does and what it returns. */
  datatype Turn = Turn(ready: bool, ops: seq<Op>, rc: int)

  function ItemOf(ev: Event): Item {
    if ev.socket != 0 then OnSocket(ev.socket) else OnFd(ev.fd)
  }

  function ItemsOf(evs: seq<Event>): seq<Item> {
    seq(|evs|, i requires 0 <= i < |evs| => ItemOf(evs[i]))
  }

  lemma ItemsSoFar(evs: seq<Event>)
    ensures |ItemsOf(evs)| == |evs|
  {
  }

  lemma ItemsNext(evs: seq<Event>, ev: Event)
    ensures ItemsOf(evs + [ev]) == ItemsOf(evs) + [ItemOf(ev)]
  {
  }

  predicate NoDup(evs: seq<Event>) {
    forall i, j :: 0 <= i < j < |evs| ==> evs[i] != evs[j]
  }

  /** The events on other sockets, in order. */
  function Without(evs: seq<Event>, socket: nat): seq<Event> {
    if evs == [] then []
    else (if evs[0].socket == socket then [] else [evs[0]]) + Without(evs[1..], socket)
  }

  lemma {:induction false} WithoutKeeps(evs: seq<Event>, socket: nat)
    ensures forall e :: e in Without(evs, socket) <==> e in evs && e.socket != socket
    ensures NoDup(evs) ==> NoDup(Without(evs, socket))
  {
    if evs != [] {
      WithoutKeeps(evs[1..], socket);
      assert evs == [evs[0]] + evs[1..];
    }
  }

  /** How often `e` occurs. */
  function Count(evs: seq<Event>, e: Event): nat {
    if evs == [] then 0 else (if evs[0] == e then 1 else 0) + Count(evs[1..], e)
  }

  lemma {:induction false} CountZero(evs: seq<Event>, e: Event)
    ensures Count(evs, e) == 0 <==> e !in evs
  {
    if evs != [] {
      CountZero(evs[1..], e);
      assert evs == [evs[0]] + evs[1..];
    }
  }

  lemma {:induction false} CountLast(evs: seq<Event>, ev: Event, e: Event)
    ensures Count(evs + [ev], e) == Count(evs, e) + if e == ev then 1 else 0
  {
    if evs != [] {
      CountLast(evs[1..], ev, e);
      assert (evs + [ev])[1..] == evs[1..] + [ev];
    }
  }

  lemma CountLastAll(evs: seq<Event>, ev: Event)
    ensures forall e :: Count(evs + [ev], e) == Count(evs, e) + if e == ev then 1 else 0
  {
    forall e
      ensures Count(evs + [ev], e) == Count(evs, e) + if e == ev then 1 else 0
    {
      CountLast(evs, ev, e);
    }
  }

  /** The list after one event is unlinked. */
  function Minus(evs: seq<Event>, ev: Event): seq<Event> {
    if evs == [] then [] else if evs[0] == ev then evs[1..] else [evs[0]] + Minus(evs[1..], ev)
  }

  lemma {:induction false} MinusCount(evs: seq<Event>, ev: Event, e: Event)
    requires ev in evs
    ensures Count(Minus(evs, ev), e) == Count(evs, e) - if e == ev then 1 else 0
  {
    if evs[0] != ev {
      assert ev in evs[1..];
      MinusCount(evs[1..], ev, e);
    }
  }

  lemma {:induction false} MinusIn(evs: seq<Event>, ev: Event)
    ensures forall e :: e in Minus(evs, ev) ==> e in evs
    ensures forall e :: e in evs && e != ev ==> e in Minus(evs, ev)
    ensures NoDup(evs) ==> ev !in Minus(evs, ev)
  {
    if evs != [] && evs[0] != ev {
      MinusIn(evs[1..], ev);
      assert evs == [evs[0]] + evs[1..];
    }
  }

  lemma {:induction false} MinusNone(evs: seq<Event>, ev: Event)
    ensures ev !in evs ==> Minus(evs, ev) == evs
  {
    if evs != [] {
      MinusNone(evs[1..], ev);
      assert evs == [evs[0]] + evs[1..];
    }
  }

  lemma {:induction false} CountOnce(evs: seq<Event>, e: Event)
    requires NoDup(evs) && e in evs
    ensures Count(evs, e) == 1
  {
    if evs[0] == e {
      CountZero(evs[1..], e);
    } else {
      CountOnce(evs[1..], e);
    }
  }

  lemma {:induction false} MinusNoDup(evs: seq<Event>, ev: Event)
    requires NoDup(evs)
    ensures NoDup(Minus(evs, ev))
  {
    if evs != [] && evs[0] != ev {
      MinusNoDup(evs[1..], ev);
      MinusIn(evs[1..], ev);
      assert evs[0] !in evs[1..];
    }
  }

  lemma MinusKeeps(evs: seq<Event>, ev: Event)
    ensures ev in evs ==> forall e :: Count(Minus(evs, ev), e) == Count(evs, e) - if e == ev then 1 else 0
    ensures forall i :: 0 <= i < |Minus(evs, ev)| ==> Minus(evs, ev)[i] in evs
    ensures NoDup(evs) ==> NoDup(Minus(evs, ev))
  {
    if ev in evs {
      forall e
        ensures Count(Minus(evs, ev), e) == Count(evs, e) - if e == ev then 1 else 0
      {
        MinusCount(evs, ev, e);
      }
    }
    MinusIn(evs, ev);
    if NoDup(evs) {
      MinusNoDup(evs, ev);
    }
  }

  lemma {:induction false} WithoutShort(evs: seq<Event>, socket: nat)
    ensures |Without(evs, socket)| <= |evs|
    ensures Without(evs, socket) == evs <==> |Without(evs, socket)| == |evs|
  {
    if evs != [] {
      WithoutShort(evs[1..], socket);
    }
  }

  lemma {:induction false} MinusNext(done: seq<Event>, ev: Event, rest: seq<Event>)
    requires ev !in done
    ensures Minus(done + [ev] + rest, ev) == done + rest
  {
    var all := done + [ev] + rest;
    if done == [] {
      assert all[0] == ev && all[1..] == rest;
      assert done + rest == rest;
    } else {
      MinusNext(done[1..], ev, rest);
      assert all[0] == done[0] && all[1..] == done[1..] + [ev] + rest;
      assert [done[0]] + (done[1..] + rest) == done + rest;
    }
  }

  lemma {:induction false} WithoutLast(evs: seq<Event>, ev: Event, socket: nat)
    ensures Without(evs + [ev], socket) == Without(evs, socket) + if ev.socket == socket then [] else [ev]
  {
    if evs != [] {
      WithoutLast(evs[1..], ev, socket);
      assert (evs + [ev])[1..] == evs[1..] + [ev];
    }
  }

  lemma WithoutMore(evs: seq<Event>, k: nat, socket: nat)
    requires k < |evs|
    ensures Without(evs[..k + 1], socket) ==
            Without(evs[..k], socket) + if evs[k].socket == socket then [] else [evs[k]]
  {
    WithoutLast(evs[..k], evs[k], socket);
    assert evs[..k + 1] == evs[..k] + [evs[k]];
  }

  /** Unlinking the next event on `socket` while the list is walked. */
  lemma WithoutNext(evs: seq<Event>, k: nat, socket: nat)
    requires k < |evs|
    ensures var kept := Without(evs[..k], socket);
            |kept| <= k && (NoDup(evs) ==> Minus(kept + [evs[k]] + evs[k + 1..], evs[k]) == kept + evs[k + 1..])
  {
    WithoutShort(evs[..k], socket);
    WithoutKeeps(evs[..k], socket);
    if NoDup(evs) {
      MinusNext(Without(evs[..k], socket), evs[k], evs[k + 1..]);
    }
  }

  /** What deleting, or passing over, the next event leaves of the list. */
  lemma UnregisterNext(snap: seq<Event>, k: nat, socket: nat)
    requires k < |snap|
    ensures var list := Without(snap[..k], socket) + snap[k..];
            var list' := Without(snap[..k + 1], socket) + snap[k + 1..];
            if snap[k].socket == socket then snap[k] in list && (NoDup(snap) ==> Minus(list, snap[k]) == list')
            else list == list'
    ensures |Without(snap[..k], socket)| <= k
    ensures |Without(snap[..k + 1], socket)| ==
            |Without(snap[..k], socket)| + if snap[k].socket == socket then 0 else 1
  {
    hide Without, Minus, NoDup;
    var kept, tail := Without(snap[..k], socket), snap[k + 1..];
    assert snap[k..] == [snap[k]] + tail;
    assert kept + snap[k..] == kept + [snap[k]] + tail;
    WithoutShort(snap[..k], socket);
    WithoutMore(snap, k, socket);
    if snap[k].socket == socket {
      WithoutNext(snap, k, socket);
      assert kept + [] == kept;
    }
  }

  // ----- which turns are safe -----

  /** The turns of one walk of the poll array `evs` for source `src`. */
  datatype Walk = Walk(evs: seq<Event>, turns: nat -> Turn, src: nat, all: bool)

  /** Does the callback of place `i` run? */
  predicate Runs(w: Walk, i: nat) {
    i < |w.evs| && (w.all || w.evs[i].src == w.src) && w.turns(i).ready
  }

  /** One of the callbacks up to place `n` unregisters `socket`. */
  predicate Dropped(w: Walk, n: nat, socket: nat) {
    exists j :: 0 <= j < n && Runs(w, j) && Unregister(socket) in w.turns(j).ops
  }

  lemma DroppedNext(w: Walk, i: nat, socket: nat)
    ensures Dropped(w, i + 1, socket) <==>
            Dropped(w, i, socket) || (Runs(w, i) && Unregister(socket) in w.turns(i).ops)
  {
  }

  /** What `list` holds of the array once `n` places were walked. */
  ghost predicate Remains(w: Walk, n: nat, list: seq<Event>) {
    forall k :: 0 <= k < |w.evs| ==>
      (w.evs[k] in list <==>
       !Dropped(w, n, w.evs[k].socket) && !(k < n && Runs(w, k) && w.turns(k).rc < 0))
  }

  /** No callback reports an error for an event that it, or one before it, unregistered. */
  predicate Polite(w: Walk, n: nat) {
    forall i :: 0 <= i < n && Runs(w, i) && w.turns(i).rc < 0 ==> !Dropped(w, i + 1, w.evs[i].socket)
  }

  /** A place whose callback does not run changes nothing. */
  lemma PassedOver(w: Walk, i: nat, list: seq<Event>)
    requires Remains(w, i, list) && !Runs(w, i)
    ensures Remains(w, i + 1, list) && (Polite(w, i + 1) <==> Polite(w, i))
  {
    forall k | 0 <= k < |w.evs| { DroppedNext(w, i, w.evs[k].socket); }
  }

  /** Between a callback and its report: `list` lacks what was dropped, and what was reported
      before place `i`. */
  ghost predicate MidTurn(w: Walk, i: nat, list: seq<Event>) {
    forall k :: 0 <= k < |w.evs| ==>
      (w.evs[k] in list <==>
       !Dropped(w, i + 1, w.evs[k].socket) && !(k < i && Runs(w, k) && w.turns(k).rc < 0))
  }

  lemma CalledBack(w: Walk, i: nat, list: seq<Event>, list': seq<Event>)
    requires Remains(w, i, list) && Runs(w, i)
    requires forall k :: 0 <= k < |w.evs| ==>
      (w.evs[k] in list' <==> w.evs[k] in list && Unregister(w.evs[k].socket) !in w.turns(i).ops)
    ensures MidTurn(w, i, list')
    ensures w.turns(i).rc >= 0 ==> Remains(w, i + 1, list')
    ensures Polite(w, i) ==> (Polite(w, i + 1) <==> w.turns(i).rc >= 0 || w.evs[i] in list')
  {
    forall k | 0 <= k < |w.evs| { DroppedNext(w, i, w.evs[k].socket); }
    hide Dropped;
  }

  lemma Reported(w: Walk, i: nat, list: seq<Event>, list': seq<Event>)
    requires MidTurn(w, i, list) && Runs(w, i) && w.turns(i).rc < 0 && NoDup(w.evs)
    requires forall k :: 0 <= k < |w.evs| ==> (w.evs[k] in list' <==> w.evs[k] in list && w.evs[k] != w.evs[i])
    ensures Remains(w, i + 1, list')
  {
    hide Dropped;
  }

  // ----- what the list holds -----

  /** A place of the list: an event that was there before, or one registered since. */
  datatype Slot = Old(ev: Event) | New(socket: nat, fd: int, src: nat) {
    function Socket(): nat {
      if Old? then ev.socket else socket
    }
  }

  /** `known` are the events from before. */
  predicate Fills(e: Event, s: Slot, known: set<Event>) {
    match s
    case Old(ev) => e == ev && e in known
    case New(socket, fd, src) => e.socket == socket && e.fd == fd && e.src == src && e !in known
  }

  predicate Shows(list: seq<Event>, slots: seq<Slot>, known: set<Event>) {
    |list| == |slots| && forall k :: 0 <= k < |list| ==> Fills(list[k], slots[k], known)
  }

  function DropSocket(slots: seq<Slot>, socket: nat): seq<Slot> {
    if slots == [] then []
    else (if slots[0].Socket() == socket then [] else [slots[0]]) + DropSocket(slots[1..], socket)
  }

  function DropEvent(slots: seq<Slot>, ev: Event): seq<Slot> {
    if slots == [] then [] else if slots[0] == Old(ev) then slots[1..] else [slots[0]] + DropEvent(slots[1..], ev)
  }

  function OpOn(slots: seq<Slot>, op: Op): seq<Slot> {
    match op
    case Register(socket, fd, src, room) => if room then [New(socket, fd, src)] + slots else slots
    case Unregister(socket) => DropSocket(slots, socket)
  }

  function OpsOn(slots: seq<Slot>, ops: seq<Op>): seq<Slot> {
    if ops == [] then slots else OpOn(OpsOn(slots, ops[..|ops| - 1]), ops[|ops| - 1])
  }

  function Olds(evs: seq<Event>): seq<Slot> {
    if evs == [] then [] else [Old(evs[0])] + Olds(evs[1..])
  }

  /** The list once `n` places of a walk were visited: each callback that runs registers and
      unregisters, and an event whose callback reports an error goes. */
  function WalkSlots(w: Walk, n: nat): seq<Slot> {
    if n == 0 then Olds(w.evs)
    else
      var slots := WalkSlots(w, n - 1);
      if !Runs(w, n - 1) then slots
      else
        var slots' := OpsOn(slots, w.turns(n - 1).ops);
        if w.turns(n - 1).rc < 0 then DropEvent(slots', w.evs[n - 1]) else slots'
  }

  lemma {:induction false} ShowsWithout(list: seq<Event>, slots: seq<Slot>, known: set<Event>, socket: nat)
    requires Shows(list, slots, known)
    ensures Shows(Without(list, socket), DropSocket(slots, socket), known)
  {
    if list != [] {
      assert Shows(list[1..], slots[1..], known);
      ShowsWithout(list[1..], slots[1..], known, socket);
      assert Fills(list[0], slots[0], known);
    }
  }

  lemma {:induction false} ShowsMinus(list: seq<Event>, slots: seq<Slot>, known: set<Event>, ev: Event)
    requires Shows(list, slots, known) && ev in known
    ensures Shows(Minus(list, ev), DropEvent(slots, ev), known)
  {
    if list != [] {
      assert Fills(list[0], slots[0], known);
      assert Shows(list[1..], slots[1..], known);
      ShowsMinus(list[1..], slots[1..], known, ev);
    }
  }

  lemma ShowsNew(list: seq<Event>, slots: seq<Slot>, known: set<Event>, e: Event)
    requires Shows(list, slots, known) && e !in known
    ensures Shows([e] + list, [New(e.socket, e.fd, e.src)] + slots, known)
  {
  }

  lemma {:induction false} ShowsOlds(evs: seq<Event>, known: set<Event>)
    requires forall k :: 0 <= k < |evs| ==> evs[k] in known
    ensures Shows(evs, Olds(evs), known)
  {
    if evs != [] {
      ShowsOlds(evs[1..], known);
      assert evs == [evs[0]] + evs[1..];
    }
  }

  // ----- new events first, then the survivors in order -----

  /** What callbacks registered and no later one unregistered, latest first. */
  function Registered(w: Walk, n: nat): seq<Slot> {
    if n == 0 then []
    else if Runs(w, n - 1) then OpsOn(Registered(w, n - 1), w.turns(n - 1).ops) else Registered(w, n - 1)
  }

  function WithoutAll(evs: seq<Event>, ops: seq<Op>): seq<Event> {
    if ops == [] then evs
    else
      var op, before := ops[|ops| - 1], WithoutAll(evs, ops[..|ops| - 1]);
      if op.Unregister? then Without(before, op.socket) else before
  }

  function Survivors(w: Walk, n: nat): seq<Event> {
    if n == 0 then w.evs
    else
      var evs := Survivors(w, n - 1);
      if !Runs(w, n - 1) then evs
      else
        var evs' := WithoutAll(evs, w.turns(n - 1).ops);
        if w.turns(n - 1).rc < 0 then Minus(evs', w.evs[n - 1]) else evs'
  }

  predicate AllNew(slots: seq<Slot>) {
    forall k :: 0 <= k < |slots| ==> slots[k].New?
  }

  lemma {:induction false} DropSocketOlds(evs: seq<Event>, socket: nat)
    ensures DropSocket(Olds(evs), socket) == Olds(Without(evs, socket))
  {
    if evs != [] {
      DropSocketOlds(evs[1..], socket);
      assert Olds(evs)[1..] == Olds(evs[1..]);
      var kept := Without(evs[1..], socket);
      assert ([evs[0]] + kept)[1..] == kept && [] + kept == kept;
    }
  }

  lemma {:induction false} DropSocketSplits(news: seq<Slot>, more: seq<Slot>, socket: nat)
    requires AllNew(news)
    ensures DropSocket(news + more, socket) == DropSocket(news, socket) + DropSocket(more, socket)
    ensures AllNew(DropSocket(news, socket))
  {
    if news == [] {
      assert news + more == more;
    } else {
      DropSocketSplits(news[1..], more, socket);
      assert (news + more)[1..] == news[1..] + more;
    }
  }

  lemma {:induction false} DropEventOlds(evs: seq<Event>, ev: Event)
    ensures DropEvent(Olds(evs), ev) == Olds(Minus(evs, ev))
  {
    if evs != [] {
      DropEventOlds(evs[1..], ev);
      assert Olds(evs)[1..] == Olds(evs[1..]);
    }
  }

  lemma {:induction false} DropEventSplits(news: seq<Slot>, more: seq<Slot>, ev: Event)
    requires AllNew(news)
    ensures DropEvent(news + more, ev) == news + DropEvent(more, ev)
  {
    if news == [] {
      assert news + more == more && news + DropEvent(more, ev) == DropEvent(more, ev);
    } else {
      DropEventSplits(news[1..], more, ev);
      assert (news + more)[1..] == news[1..] + more;
      assert [news[0]] + (news[1..] + DropEvent(more, ev)) == news + DropEvent(more, ev);
    }
  }

  lemma {:induction false} OpsSplit(news: seq<Slot>, evs: seq<Event>, ops: seq<Op>)
    requires AllNew(news)
    ensures OpsOn(news + Olds(evs), ops) == OpsOn(news, ops) + Olds(WithoutAll(evs, ops))
    ensures AllNew(OpsOn(news, ops))
  {
    if ops != [] {
      var before, op := ops[..|ops| - 1], ops[|ops| - 1];
      OpsSplit(news, evs, before);
      var n, o := OpsOn(news, before), WithoutAll(evs, before);
      match op
      case Register(socket, fd, src, room) =>
        assert [New(socket, fd, src)] + (n + Olds(o)) == [New(socket, fd, src)] + n + Olds(o);
      case Unregister(socket) =>
        DropSocketSplits(n, Olds(o), socket);
        DropSocketOlds(o, socket);
    }
  }

  /** After a walk the list is what the callbacks registered, latest first, and then what is left
      of the old list in its order. */
  lemma {:induction false} WalkShape(w: Walk, n: nat)
    ensures WalkSlots(w, n) == Registered(w, n) + Olds(Survivors(w, n))
    ensures AllNew(Registered(w, n))
  {
    if n > 0 {
      WalkShape(w, n - 1);
      if Runs(w, n - 1) {
        OpsSplit(Registered(w, n - 1), Survivors(w, n - 1), w.turns(n - 1).ops);
        var left := WithoutAll(Survivors(w, n - 1), w.turns(n - 1).ops);
        DropEventSplits(Registered(w, n), Olds(left), w.evs[n - 1]);
        DropEventOlds(left, w.evs[n - 1]);
      }
    }
  }

  ghost function Known(w: Walk): set<Event> {
    set e | e in w.evs
  }

  ghost predicate Shown(w: Walk, n: nat, list: seq<Event>) {
    Shows(list, WalkSlots(w, n), Known(w))
  }

  /** The list once `n` places were walked: its events in order, and which of the array remain. */
  ghost predicate Walked(w: Walk, n: nat, list: seq<Event>) {
    Remains(w, n, list) && Shown(w, n, list)
  }

  lemma NothingWalked(w: Walk)
    ensures Polite(w, 0) && Walked(w, 0, w.evs)
  {
    ShowsOlds(w.evs, Known(w));
  }

  lemma WalkedPast(w: Walk, i: nat, list: seq<Event>)
    requires Walked(w, i, list) && !Runs(w, i)
    ensures Walked(w, i + 1, list) && (Polite(w, i + 1) <==> Polite(w, i))
  {
    PassedOver(w, i, list);
  }

  class Todo {
    var list: seq<Event>
    var dirty: bool
    var items: seq<Item>
    var events: seq<Event>
    ghost var born: set<Event>   // every event ever registered
    ghost var freed: set<Event>  // those whose memory was given back
    ghost var broken: bool       // freed memory was touched

    ghost predicate Framed()
      reads this
    {
      && (forall i :: 0 <= i < |list| ==> list[i] in born)
      && (forall i :: 0 <= i < |events| ==> events[i] in born)
    }

    ghost predicate Counted(e: Event, poll: seq<Event>)
      reads this, e
    {
      && e.refcnt == Count(list, e) + Count(poll, e)
      && (e in freed <==> e.refcnt == 0)
    }

    /** Each event holds as many references as there are places it is reachable from; its
        memory is given back exactly when there is none; a clean snapshot is the list. */
    ghost predicate Valid()
      reads this, born
    {
      && !broken && freed <= born && Framed() && NoDup(list)
      && (forall e :: e in born ==> Counted(e, events))
      && (!dirty ==> events == list && items == ItemsOf(list))
    }

    /** Freed memory was touched, or the poll array leads to some. */
    ghost predicate Dangling()
      reads this
    {
      broken || exists i :: 0 <= i < |events| && events[i] in freed
    }

    constructor ()
      ensures Valid() && list == [] && events == [] && born == {}
    {
      list, dirty, items, events := [], false, [], [];
      born, freed, broken := {}, {}, false;
    }

    /** Reading or writing through a pointer to `ev`. */
    ghost method Touch(ev: Event)
      modifies this`broken
      ensures broken == (old(broken) || ev in freed)
    {
      broken := broken || ev in freed;
    }

    method Release(ev: Event)
      modifies this`broken, this`freed, ev`refcnt
      ensures ev.refcnt == old(ev.refcnt) - 1
      ensures freed == if ev.refcnt == 0 then old(freed) + {ev} else old(freed)
      ensures broken == (old(broken) || ev in old(freed))
    {
      Touch(ev);
      ev.refcnt := ev.refcnt - 1;
      if ev.refcnt == 0 {
        freed := freed + {ev};
      }
    }

    method Register(socket: nat, fd: int, src: nat, room: bool) returns (ret: int)
      requires Framed()
      modifies this, born
      ensures Framed() && events == old(events) && broken == old(broken) && old(born) <= born
      ensures fresh(born - old(born)) && freed == old(freed) && (old(dirty) ==> dirty)
      ensures old(Valid()) ==> Valid()
      ensures ret == if room then 0 else -12
      ensures ret != 0 ==> list == old(list)
      ensures ret == 0 ==> |list| == |old(list)| + 1 && list[1..] == old(list) && fresh(list[0])
                           && list[0].socket == socket && list[0].fd == fd && list[0].src == src
    {
      if !room {
        return -12;
      }
      var ev := new Event(socket, fd, src);
      CountZero(list, ev);
      CountZero(events, ev);
      assert ([ev] + list)[1..] == list;
      list := [ev] + list;
      dirty := true;
      born := born + {ev};
      ret := 0;
    }

    /** An event that is not linked any more gives up a reference that something else holds. */
    method DeleteEvent(ev: Event)
      requires Framed() && ev in born
      modifies this, born
      ensures Framed() && events == old(events) && born == old(born) && (old(broken) ==> broken)
      ensures list == Minus(old(list), ev) && old(freed) <= freed && dirty
      ensures old(Valid()) && ev in old(list) ==> Valid()
      ensures old(Valid()) && ev !in old(list) ==> ev.refcnt == Count(list, ev) + Count(events, ev) - 1
      ensures old(Valid()) && ev !in old(list) && Count(events, ev) == 1 ==> ev in freed
      ensures old(Valid()) ==> forall e :: e in born ==> (e in list <==> e in old(list) && e != ev)
    {
      hide Minus, NoDup, Count;
      ghost var was, good := list, Valid();
      MinusKeeps(list, ev);
      MinusIn(list, ev);
      MinusNone(list, ev);
      CountZero(list, ev);
      assert good ==> Counted(ev, events);
      list := Minus(list, ev);
      dirty := true;
      assert Framed() by {
        assert forall i :: 0 <= i < |list| ==> list[i] in was;
      }
      hide Framed;
      Release(ev);
      assert good && ev in was ==> forall e :: e in born ==> Counted(e, events);
    }

    method UnregisterSocket(socket: nat) returns (ret: int)
      requires Framed()
      modifies this, born
      ensures ret in {0, -2}
      ensures Framed() && events == old(events) && born == old(born) && (old(broken) ==> broken)
      ensures old(freed) <= freed && (old(dirty) ==> dirty)
      ensures old(Valid()) ==>
                && Valid() && list == Without(old(list), socket)
                && (ret == 0 <==> list != old(list))
    {
      var snap, found, k := list, false, 0;
      ghost var good := Valid();
      assert good ==> NoDup(snap);
      assert forall i :: 0 <= i < |snap| ==> snap[i] in born;
      hide Valid, Minus, Without, Framed, NoDup;
      assert Without(snap[..0], socket) == [] by { WithoutShort(snap[..0], socket); }
      while k < |snap|
        invariant 0 <= k <= |snap| && events == old(events) && born == old(born) && (old(broken) ==> broken)
        invariant Framed() && old(freed) <= freed && (old(dirty) ==> dirty)
        invariant good ==> Valid() && list == Without(snap[..k], socket) + snap[k..]
        invariant found <==> |Without(snap[..k], socket)| < k
      {
        var ev := snap[k];
        UnregisterNext(snap, k, socket);
        if ev.socket == socket {
          DeleteEvent(ev);
          found := true;
        }
        k := k + 1;
      }
      assert snap[..|snap|] == snap;
      WithoutShort(snap, socket);
      ret := if found then 0 else -2;
    }

    /** A callback's own changes to the list. `slots` are what it holds before. */
    method RunOps(ops: seq<Op>, ghost slots: seq<Slot>, ghost known: set<Event>)
      requires Framed()
      modifies this, born
      ensures Framed() && events == old(events) && (old(broken) ==> broken) && old(born) <= born
      ensures fresh(born - old(born)) && old(freed) <= freed && (old(dirty) ==> dirty)
      ensures old(Valid()) ==>
                && Valid()
                && forall e :: e in old(born) ==> (e in list <==> e in old(list) && Unregister(e.socket) !in ops)
      ensures old(Valid()) && known <= old(born) && Shows(old(list), slots, known) ==>
                Shows(list, OpsOn(slots, ops), known)
    {
      ghost var good := Valid();
      ghost var shown := good && known <= born && Shows(list, slots, known);
      hide Valid, Framed, Shows, OpOn;
      var k := 0;
      while k < |ops|
        invariant 0 <= k <= |ops| && Framed() && events == old(events) && (old(broken) ==> broken)
        invariant old(born) <= born && fresh(born - old(born)) && old(freed) <= freed && (old(dirty) ==> dirty)
        invariant good ==> Valid()
        invariant good ==>
          forall e :: e in old(born) ==> (e in list <==> e in old(list) && Unregister(e.socket) !in ops[..k])
        invariant shown ==> Shows(list, OpsOn(slots, ops[..k]), known)
      {
        ghost var was := list;
        assert ops[..k + 1] == ops[..k] + [ops[k]];
        assert ops[..k + 1][..k] == ops[..k];
        RunOp(ops[k], OpsOn(slots, ops[..k]), known);
        k := k + 1;
      }
      assert ops[..k] == ops;
    }

    method RunOp(op: Op, ghost slots: seq<Slot>, ghost known: set<Event>)
      requires Framed()
      modifies this, born
      ensures Framed() && events == old(events) && (old(broken) ==> broken) && old(born) <= born
      ensures fresh(born - old(born)) && old(freed) <= freed && (old(dirty) ==> dirty)
      ensures old(Valid()) ==>
                && Valid()
                && forall e :: e in old(born) ==> (e in list <==> e in old(list) && op != Unregister(e.socket))
      ensures old(Valid()) && known <= old(born) && Shows(old(list), slots, known) ==>
                Shows(list, OpOn(slots, op), known)
    {
      ghost var was, good := list, Valid();
      ghost var shown := good && known <= born && Shows(list, slots, known);
      hide Valid, Framed, Shows;
      match op {
        case Register(socket, fd, src, room) =>
          var ret := Register(socket, fd, src, room);
          if ret == 0 {
            assert list == [list[0]] + was;
            if shown {
              ShowsNew(was, slots, known, list[0]);
            }
          }
        case Unregister(socket) =>
          var _ := UnregisterSocket(socket);
          WithoutKeeps(was, socket);
          if shown {
            ShowsWithout(was, slots, known, socket);
          }
      }
    }

    /** Drop the references the poll array holds. */
    method ReleaseSnapshot()
      requires Framed()
      modifies this, born
      ensures events == [] && list == old(list) && dirty == old(dirty) && items == old(items)
      ensures born == old(born) && (old(Dangling()) ==> broken)
      ensures old(Valid()) ==> !broken && freed <= born && forall e :: e in born ==> Counted(e, [])
    {
      ghost var good := Valid();
      var i := 0;
      while i < |events|
        invariant 0 <= i <= |events| && events == old(events) && list == old(list)
        invariant dirty == old(dirty) && items == old(items)
        invariant born == old(born) && (old(broken) ==> broken) && old(freed) <= freed
        invariant forall j :: 0 <= j < i && events[j] in old(freed) ==> broken
        invariant good ==> !broken && freed <= born && forall e :: e in born ==> Counted(e, events[i..])
      {
        var ev := events[i];
        assert events[i..][1..] == events[i + 1..];
        assert good ==> Counted(ev, events[i..]);
        Release(ev);
        i := i + 1;
      }
      assert events[i..] == [];
      events := [];
    }

    /** Take a snapshot of the list. */
    method TakeSnapshot()
      requires Framed() && events == []
      modifies this, born
      ensures events == list == old(list) && items == ItemsOf(list)
      ensures born == old(born) && freed == old(freed) && (old(broken) ==> broken) && !dirty
      ensures old(!broken && freed <= born && forall e :: e in born ==> Counted(e, [])) ==>
                !broken && forall e :: e in born ==> Counted(e, events)
    {
      hide Count, ItemsOf;
      ghost var good := !broken && freed <= born && forall e :: e in born ==> Counted(e, []);
      items := [];
      assert items == ItemsOf([]) by { ItemsSoFar([]); }
      while |events| < |list|
        invariant |events| <= |list| == |old(list)| && list == old(list) && events == list[..|events|]
        invariant items == ItemsOf(events)
        invariant born == old(born) && freed == old(freed) && (old(broken) ==> broken)
        invariant good ==> !broken && forall e :: e in born ==> Counted(e, events)
      {
        var ev := list[|events|];
        CountLastAll(events, ev);
        CountZero(list, ev);
        assert good ==> Counted(ev, events);
        Touch(ev);
        ev.refcnt := ev.refcnt + 1;
        ItemsNext(events, ev);
        items := items + [ItemOf(ev)];
        events := events + [ev];
      }
      dirty := false;
    }

    /** `rebuild_poll_list`, which panics on an empty list. */
    method Rebuild() returns (panic: bool)
      requires Framed()
      modifies this, born
      ensures Framed() && list == old(list) && born == old(born) && (old(broken) ==> broken)
      ensures panic <==> old(dirty) && list == []
      ensures !old(dirty) ==> events == old(events) && freed == old(freed)
      ensures old(dirty) && old(Dangling()) ==> broken
      ensures old(Valid()) ==> Valid() && (!panic ==> events == list)
      ensures old(Valid()) && old(dirty) && !panic ==> forall e :: e in born ==> (e in freed <==> e !in list)
    {
      if !dirty {
        return false;
      }
      ghost var good := Valid();
      ReleaseSnapshot();
      if list == [] {
        items := [];
        return true;
      }
      TakeSnapshot();
      if good {
        forall e | e in born
          ensures e in freed <==> e !in list
        {
          CountZero(list, e);
          assert Counted(e, events);
        }
      }
      panic := false;
    }

    /** One place of the poll array. */
    method Visit(w: Walk, i: nat)
      requires Framed() && w.evs == events && i < |events|
      modifies this, born
      ensures Framed() && events == old(events) && (old(broken) ==> broken) && old(born) <= born
      ensures fresh(born - old(born)) && old(freed) <= freed && (old(dirty) ==> dirty)
      ensures NoDup(events) && old(Valid()) && Walked(w, i, old(list)) && Polite(w, i) ==>
                if Polite(w, i + 1) then Valid() && Walked(w, i + 1, list) else Dangling() && dirty
      ensures events[i] in old(freed) ==> broken
    {
      var ev := events[i];
      ghost var good := NoDup(events) && Valid() && Walked(w, i, list) && Polite(w, i);
      ghost var slots := WalkSlots(w, i);
      Touch(ev);
      if good {
        CountOnce(events, ev);
        assert Counted(ev, events);
        if !Runs(w, i) {
          WalkedPast(w, i, list);
        }
      }
      assert NoDup(events) == NoDup(w.evs);
      assert Known(w) <= born && ev in Known(w);
      hide Valid, Counted, Dropped, Remains, Polite, MidTurn, NoDup, Minus, Count, Shows, Known, OpsOn, DropEvent;
      if !w.all && ev.src != w.src {
        return;
      }
      if w.turns(i).ready {
        ghost var was := list;
        RunOps(w.turns(i).ops, slots, Known(w));
        if good {
          CalledBack(w, i, was, list);
        }
        if w.turns(i).rc < 0 {
          was := list;
          DeleteEvent(ev);
          if good && ev in was {
            Reported(w, i, was, list);
            ShowsMinus(was, OpsOn(slots, w.turns(i).ops), Known(w), ev);
          }
        }
      }
    }

    /** `get_next_event`. `found` is what the poll returned, negative when it was interrupted.
        From a valid state the walk leaves a valid state exactly when it is polite; otherwise
        the poll array leads to freed memory and will be released before the next poll. */
    method GetNextEvent(src: nat, all: bool, found: int, turns: nat -> Turn) returns (ret: int, panic: bool)
      requires Framed()
      modifies this, born
      ensures Framed() && old(born) <= born && fresh(born - old(born))
      ensures old(Dangling()) ==> Dangling()
      ensures old(Dangling()) && old(dirty) ==> broken
      ensures panic <==> old(dirty) && old(list) == []
      ensures old(Valid()) && !panic ==> events == old(list)
      ensures old(Valid()) && (panic || found < 0) ==> Valid()
      ensures old(Valid()) && !panic && found >= 0 ==>
                if Polite(Walk(old(list), turns, src, all), |old(list)|)
                then Valid() && Walked(Walk(old(list), turns, src, all), |old(list)|, list)
                else Dangling() && dirty && !Valid()
      ensures panic || found < 0 ==> list == old(list)
      ensures ret == if panic || found < 0 then 0 else found
    {
      hide Counted, Remains, Shown, Shows, Known, Dropped, Runs, ItemsOf;
      ghost var good := Valid();
      panic := Rebuild();
      if panic {
        return 0, true;
      }
      if found < 0 {
        return 0, false;
      }
      ghost var evs, wasFreed, hit := events, freed, broken;
      var w := Walk(events, turns, src, all);
      assert good ==> NoDup(evs) && list == w.evs;
      NothingWalked(w);
      hide Valid, Walked, Polite;
      var i := 0;
      while i < |events|
        invariant 0 <= i <= |events| && Framed() && events == evs && wasFreed <= freed && (hit ==> broken)
        invariant old(born) <= born && fresh(born - old(born))
        invariant good ==> if Polite(w, i) then Valid() && Walked(w, i, list) else Dangling() && dirty
      {
        PoliteSoFar(w, i);
        Visit(w, i);
        i := i + 1;
      }
      if Dangling() {
        DanglingIsInvalid();
      }
      ret := found;
    }

    /** A valid state has no way to freed memory. */
    lemma DanglingIsInvalid()
      requires Dangling()
      ensures !Valid()
    {
      if Valid() && !broken {
        var i :| 0 <= i < |events| && events[i] in freed;
        CountZero(events, events[i]);
      }
    }
  }

  lemma PoliteSoFar(w: Walk, i: nat)
    ensures Polite(w, i + 1) ==> Polite(w, i)
  {
  }

  // ----- runs -----

  datatype Call = Do(op: Op) | Poll(src: nat, all: bool, found: int, turns: nat -> Turn)

  /** A poll that finds events walks the list it started with politely. */
  ghost predicate PoliteCall(c: Call, list: seq<Event>) {
    c.Poll? && c.found >= 0 ==> Polite(Walk(list, c.turns, c.src, c.all), |list|)
  }

  /** What a call does to the list. */
  ghost predicate Changes(c: Call, a: seq<Event>, b: seq<Event>) {
    match c
    case Do(Register(socket, fd, src, room)) =>
      if room then b != [] && b[1..] == a && b[0].socket == socket && b[0].fd == fd && b[0].src == src else b == a
    case Do(Unregister(socket)) => b == Without(a, socket)
    case Poll(src, all, found, turns) =>
      var w := Walk(a, turns, src, all);
      if found < 0 then b == a
      else
        && Shows(b, Registered(w, |a|) + Olds(Survivors(w, |a|)), Known(w))
        && forall k :: 0 <= k < |a| ==>
             (a[k] in b <==> !Dropped(w, |a|, a[k].socket) && !(Runs(w, k) && turns(k).rc < 0))
  }

  /** The lists between the calls, the last of which is the list now. */
  ghost predicate Traced(calls: seq<Call>, lists: seq<seq<Event>>) {
    && 0 < |lists| <= |calls| + 1
    && forall k :: 0 <= k < |lists| - 1 ==> Changes(calls[k], lists[k], lists[k + 1])
  }

  ghost predicate AllPolite(calls: seq<Call>, lists: seq<seq<Event>>) {
    0 < |lists| <= |calls| + 1 && forall k :: 0 <= k < |lists| - 1 ==> PoliteCall(calls[k], lists[k])
  }

  lemma TraceMore(calls: seq<Call>, lists: seq<seq<Event>>, list: seq<Event>)
    requires 0 < |lists| <= |calls|
    ensures AllPolite(calls, lists + [list]) <==>
            AllPolite(calls, lists) && PoliteCall(calls[|lists| - 1], lists[|lists| - 1])
    ensures Traced(calls, lists + [list]) <==>
            Traced(calls, lists) && Changes(calls[|lists| - 1], lists[|lists| - 1], list)
  {
    hide PoliteCall, Changes;
    var more, n := lists + [list], |lists| - 1;
    assert more[n + 1] == list && forall k :: 0 <= k <= n ==> more[k] == lists[k];
  }

  /** Every run: the counts are exact, a clean snapshot is the list and no freed event is
      touched, if and only if every walk so far was polite. Otherwise freed memory was touched
      or the poll array leads to some. A poll of an empty list that changed ends the process. */
  method Run(todo: Todo, calls: seq<Call>) returns (panicked: bool, ghost lists: seq<seq<Event>>)
    requires todo.Valid()
    modifies todo, todo.born
    ensures 0 < |lists| <= |calls| + 1 && lists[0] == old(todo.list) && lists[|lists| - 1] == todo.list
    ensures panicked <==> |lists| <= |calls|
    ensures todo.Valid() <==> AllPolite(calls, lists)
    ensures todo.Dangling() <==> !AllPolite(calls, lists)
    ensures todo.Valid() ==> Traced(calls, lists)
  {
    hide PoliteCall, Changes, Polite;
    lists, panicked := [todo.list], false;
    var k := 0;
    while k < |calls|
      invariant 0 <= k <= |calls| && todo.Framed() && fresh(todo.born - old(todo.born)) && old(todo.born) <= todo.born
      invariant |lists| == k + 1 && lists[0] == old(todo.list) && lists[k] == todo.list
      invariant if AllPolite(calls, lists) then todo.Valid() && Traced(calls, lists) else todo.Dangling()
    {
      hide AllPolite, Traced;
      var stop := Obey(todo, calls[k]);
      if stop {
        panicked := true;
        if todo.Dangling() {
          todo.DanglingIsInvalid();
        }
        return;
      }
      TraceMore(calls, lists, todo.list);
      lists := lists + [todo.list];
      k := k + 1;
    }
    if todo.Dangling() {
      todo.DanglingIsInvalid();
    }
  }

  method Obey(todo: Todo, c: Call) returns (panic: bool)
    requires todo.Framed()
    modifies todo, todo.born
    ensures todo.Framed() && (old(todo.Dangling()) ==> todo.Dangling()) && old(todo.born) <= todo.born
    ensures fresh(todo.born - old(todo.born))
    ensures panic ==> todo.list == old(todo.list) && (old(todo.Valid()) ==> todo.Valid())
    ensures old(todo.Valid()) && !panic ==>
      if PoliteCall(c, old(todo.list)) then todo.Valid() && Changes(c, old(todo.list), todo.list)
      else todo.Dangling()
  {
    panic := false;
    match c
    case Do(Register(socket, fd, src, room)) =>
      var _ := todo.Register(socket, fd, src, room);
    case Do(Unregister(socket)) =>
      var _ := todo.UnregisterSocket(socket);
    case Poll(src, all, found, turns) =>
      ghost var w := Walk(todo.list, turns, src, all);
      WalkShape(w, |w.evs|);
      hide Polite, Shows, Dropped;
      var _, stop := todo.GetNextEvent(src, all, found, turns);
      panic := stop;
  }
}
