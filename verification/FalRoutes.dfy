/**
 Multicast routes in a plugin: `fal_ip4_new_mroute`, `fal_ip4_del_mroute` and
 `fal_ip4_upd_mroute` of `src/fal.c`, whose IPv6 siblings are the same code.
 */
module FalRoutes {
  import opened FalContract
  import opened FalGroups
  import opened FalMroute
  import opened FalRouteGraph

  /** What the caller wants of a route: incoming interface, outgoing interfaces. */
  datatype Mfc = Mfc(parent: nat, ifset: set<nat>, ifCount: nat)

  /** The room for members: the 32-bit count is passed on as a byte. */
  function Room(mfc: Mfc): nat {
    mfc.ifCount % 0x100
  }

  /** Whether there is memory for the two lists of members. */
  datatype Memory = Memory(rpf: bool, out: bool)

  /** What a reverse-path group needs beside the plugin's consent: memory, and an incoming
      interface the plugin knows. An output group needs memory and an address family. */
  predicate RpfPossible(mfc: Mfc, l3: map<nat, Handle>, mem: Memory) {
    mem.rpf && Port(l3, mfc.parent) != 0
  }

  predicate OutPossible(af: Family, mem: Memory) {
    mem.out && af != OtherFamily
  }

  /** Every entry has a key. */
  type RouteKey = k: Key | k != NoKey witness Key(0, 0, 0)

  /** The `mfc_fal_*` fields of a route, and what the members it lists carry. */
  class Mroute {
    const key: RouteKey
    var parent: nat
    var ifset: set<nat>
    var obj: Handle
    var rpf: Handle
    var rpfLst: List
    var ol: Handle
    var olLst: List
    ghost var rpfMembers: map<Handle, Handle>
    ghost var olMembers: map<Handle, Handle>

    constructor (key: RouteKey)
      ensures this.key == key && obj == 0 && Shape()
    {
      this.key := key;
      parent, ifset, obj, rpf, ol := 0, {}, 0, 0, 0;
      rpfLst, olLst := NoList, NoList;
    }

    ghost function R(): Held
      reads this
    {
      Held(rpf, rpfMembers, rpfLst)
    }

    ghost function O(): Held
      reads this
    {
      Held(ol, olMembers, olLst)
    }

    ghost predicate Sane()
      reads this
    {
      Sized(rpfLst) && Sized(olLst)
    }

    ghost predicate Shape()
      reads this
    {
      if obj == 0 then rpf == 0 && ol == 0 && rpfLst.NoList? && olLst.NoList?
      else Apart2(obj, R(), O())
    }

    /** The plugin objects this route owns. */
    ghost function Mine(): Graph
      reads this
    {
      if obj == 0 then map[] else RouteGraph(obj, R(), O())
    }

    /** The members of the route: its incoming interface, and of the outgoing ones as many as
        there is room for. */
    ghost predicate Programmed(mfc: Mfc, iftable: seq<Vif>, l3: map<nat, Handle>)
      requires Sane()
      reads this
    {
      && obj != 0
      && Carries(rpfMembers, Listed(rpfLst), [Port(l3, mfc.parent)])
      && Carries(olMembers, Listed(olLst), Wanted(iftable, mfc.ifset, Room(mfc)))
    }

    /** The hardware forwards to every outgoing interface that `mfc` asks for. */
    ghost predicate AsAsked(mfc: Mfc, iftable: seq<Vif>)
      requires Sane()
      reads this
    {
      Carries(olMembers, Listed(olLst), Selected(iftable, mfc.ifset))
    }
  }

  /** That is so exactly when they are no more than the count leaves room for as a byte. */
  lemma AskedFor(rt: Mroute, mfc: Mfc, iftable: seq<Vif>, l3: map<nat, Handle>)
    requires rt.Sane() && rt.Programmed(mfc, iftable, l3)
    ensures rt.AsAsked(mfc, iftable) <==> |Selected(iftable, mfc.ifset)| <= Room(mfc)
  {
    hide Selected;
    WantedIsAll(iftable, mfc.ifset, Room(mfc));
    var a, b := Wanted(iftable, mfc.ifset, Room(mfc)), Selected(iftable, mfc.ifset);
    if rt.AsAsked(mfc, iftable) {
      assert a == b;
    }
  }

  /** With 256 outgoing interfaces there is room for none of them. */
  lemma NoneOf256(iftable: seq<Vif>, mfc: Mfc)
    requires mfc.ifCount == 256 && Selected(iftable, mfc.ifset) != []
    ensures Wanted(iftable, mfc.ifset, Room(mfc)) == []
  {
  }

  /** Every promise was kept, no entry is torn, and the route owns exactly what it records. */
  ghost predicate Good(p: Plugin, rt: Mroute, rest: Graph)
    reads p, rt
  {
    && rt.Shape()
    && if rt.obj == 0 then Kept(ViewOf(p.log), rest, map[]) && !HasTear(p.log)
       else Route(p.log, rest, rt.obj, rt.R(), rt.O())
  }

  /** Create a reverse-path group for one interface. */
  method CreateRpf(p: Plugin, ifindex: nat, l3: map<nat, Handle>, room: bool, ghost rest: Graph, ghost mine: Graph)
    returns (ret: int, group: Handle, l: List, ghost members: map<Handle, Handle>)
    modifies p
    ensures Grew(old(p.log), p.log) && Sized(l)
    ensures ret != 0 ==> group == 0 && l.NoList?
    ensures ret == 0 ==> !EndsInOutSet(p.log)
    ensures ret == 0 <==> Smooth(old(p.log), p.log) && room && Port(l3, ifindex) != 0
    ensures Kept(ViewOf(old(p.log)), rest, mine) ==>
              if ret == 0 then
                && Carries(members, Listed(l), [Port(l3, ifindex)])
                && Built(old(p.log), p.log, rest, mine, Rpf, group, members)
                && Names(Held(group, members, l)) && mine.Keys !! Keys(Held(group, members, l))
              else Undone(old(p.log), p.log, rest, mine)
  {
    hide Grew, Smooth;
    ghost var made;
    assert AllKnown(l3, [ifindex]) <==> Port(l3, [ifindex][0]) != 0;
    ret, group, l, made, members := CreateRpfGroup(p, [ifindex], l3, room, rest, mine);
    if ret == 0 {
      OneListed(l, made);
      assert Ports(l3, [ifindex]) == [Port(l3, ifindex)];
      if Kept(ViewOf(old(p.log)), rest, mine) {
        BuiltIsHeld(mine, group, members, l, [Port(l3, ifindex)]);
      }
    }
  }

  /** Entry creation once both groups exist; on refusal both groups go again. */
  method AddEntry(p: Plugin, key: RouteKey, rpf: Handle, rpfLst: List, ol: Handle, olLst: List,
                  ghost rest: Graph, ghost r: Held, ghost o: Held)
    returns (ret: int, obj: Handle)
    requires Sized(rpfLst) && Sized(olLst)
    requires r.group == rpf && r.list == rpfLst && o.group == ol && o.list == olLst
    modifies p
    ensures GrewBy(old(p.log), p.log, key, obj) && (ret != 0 ==> obj == 0)
    ensures ret == 0 <==> Smooth(old(p.log), p.log)
    ensures ret == 0 ==> obj != 0 && p.log == old(p.log) + [Created(Entry(rpf, ol), key, obj)]
    ensures TwoGroups(old(p.log), rest, r, o) ==>
              && HasTear(p.log) == HasTear(old(p.log))
              && (ret == 0 ==> Apart2(obj, r, o) && Kept(ViewOf(p.log), rest, RouteGraph(obj, r, o)))
              && (ret != 0 ==> Kept(ViewOf(p.log), rest, map[]))
  {
    hide Grew, GrewBy, Smooth;
    ghost var log0 := p.log;
    ghost var good := TwoGroups(log0, rest, r, o);
    ret, obj := p.Create(Entry(rpf, ol), key);
    GrewByStep(log0, Entry(rpf, ol), key, obj);
    if ret == 0 {
      if good {
        EntryJoins(log0, rest, r, o, key, obj);
      }
      return;
    }
    if good {
      EntryFails(log0, rest, r, o, key);
    }
    ghost var log1 := p.log;
    var _ := p.Delete(Entry(0, 0), obj);
    assert p.log == log1;
    CleanupRpfGroup(p, rpf, rpfLst);
    ghost var log2 := p.log;
    CleanupOutGroup(p, ol, olLst);
    GrewMore(log1, log2, p.log);
    GrewSame(log0);
    GrewAround(log0, log0, log1, p.log, key, obj);
    assert !Smooth(log0, p.log) by {
      RefusedInside(log0, log1, p.log);
    }
  }

  lemma RefusedInside(a: seq<Call>, b: seq<Call>, c: seq<Call>)
    requires a <= b && b <= c && !Smooth(a, b)
    ensures !Smooth(a, c)
  {
    var k :| |a| <= k < |b| && Refusal(b[k]);
    assert c[k] == b[k];
  }

  /** Reverse-path group, output group, entry: all of it or none of it. */
  method BuildRoute(p: Plugin, key: RouteKey, mfc: Mfc, iftable: seq<Vif>, l3: map<nat, Handle>, af: Family,
                    mem: Memory, ghost rest: Graph)
    returns (ret: int, obj: Handle, rpf: Handle, rpfLst: List, ol: Handle, olLst: List, ghost r: Held, ghost o: Held)
    modifies p
    ensures GrewBy(old(p.log), p.log, key, obj) && Sized(rpfLst) && Sized(olLst)
    ensures ret != 0 ==> obj == 0
    ensures ret == 0 ==> r.group == rpf && r.list == rpfLst && o.group == ol && o.list == olLst
    ensures ret == 0 <==> Smooth(old(p.log), p.log) && RpfPossible(mfc, l3, mem) && OutPossible(af, mem)
    ensures ret == 0 ==> obj != 0 && EndsWith(p.log, Created(Entry(rpf, ol), key, obj))
    ensures Kept(ViewOf(old(p.log)), rest, map[]) ==>
              && HasTear(p.log) == HasTear(old(p.log))
              && (ret != 0 ==> Kept(ViewOf(p.log), rest, map[]))
              && (ret == 0 ==> && obj != 0 && Apart2(obj, r, o) && Kept(ViewOf(p.log), rest, RouteGraph(obj, r, o))
                               && Carries(r.members, Listed(r.list), [Port(l3, mfc.parent)])
                               && Carries(o.members, Listed(o.list), Wanted(iftable, mfc.ifset, Room(mfc))))
  {
    hide Grew, GrewBy, Smooth;
    ghost var log0 := p.log;
    GrewSame(log0);
    ghost var good := Kept(ViewOf(p.log), rest, map[]);
    obj, ol, olLst := 0, 0, NoList;
    o := Held(0, map[], NoList);
    ghost var members;
    ret, rpf, rpfLst, members := CreateRpf(p, mfc.parent, l3, mem.rpf, rest, map[]);
    r := Held(rpf, members, rpfLst);
    ghost var log1 := p.log;
    if ret != 0 {
      GrewAround(log0, log0, log0, log1, key, 0);
      return;
    }
    assert map[] + Of(Rpf, r) == Of(Rpf, r);
    ret, ol, olLst, members := CreateOutGroup(p, Room(mfc), mfc.ifset, iftable, af, mem.out, rest, Of(Rpf, r));
    ghost var log2 := p.log;
    GrewMore(log0, log1, log2);
    SmoothMore(log0, log1, log2);
    if ret != 0 {
      CleanupRpfGroup(p, rpf, rpfLst);
      GrewMore(log0, log2, p.log);
      SmoothMore(log0, log2, p.log);
      CleanupOutGroup(p, ol, olLst);
      assert p.log == log2 + CleanupCalls(Rpf, r.group, r.list);
      GrewAround(log0, log0, log0, p.log, key, 0);
      if good {
        LoneGroupGoes(log2, rest, r);
      }
      return;
    }
    o := Held(ol, members, olLst);
    if good {
      BuiltIsHeld(Of(Rpf, r), ol, members, olLst, Wanted(iftable, mfc.ifset, Room(mfc)));
      TargetsOf(Rpf, r);
    }
    ret, obj := AddEntry(p, key, rpf, rpfLst, ol, olLst, rest, r, o);
    SmoothBy(log0, log2, p.log, key, obj);
    GrewSame(p.log);
    GrewAround(log0, log2, p.log, p.log, key, obj);
  }

  lemma LoneGroupGoes(log: seq<Call>, rest: Graph, r: Held)
    requires Names(r) && Kept(ViewOf(log), rest, Of(Rpf, r))
    ensures var log' := log + CleanupCalls(Rpf, r.group, r.list);
            Kept(ViewOf(log'), rest, map[]) && HasTear(log') == HasTear(log)
  {
    assert Of(Rpf, r) == map[] + Of(Rpf, r);
    Attach(Of(Rpf, r), map[], {}, Rpf, r);
    CleanupKeeps(log, rest, Of(Rpf, r), map[], Rpf, r);
  }

  predicate EndsWith(log: seq<Call>, c: Call) {
    log != [] && log[|log| - 1] == c
  }

  /** A new route. It is made if and only if the plugin refuses nothing, there is memory, the
      plugin knows the incoming interface and the family is one of the two; the last call is then
      that for its entry, under its own key. */
  method NewMroute(p: Plugin, rt: Mroute, mfc: Mfc, iftable: seq<Vif>, l3: map<nat, Handle>, af: Family,
                   mem: Memory, ghost rest: Graph)
    returns (ret: int)
    requires rt.Sane()
    modifies p, rt
    ensures GrewBy(old(p.log), p.log, rt.key, if old(rt.obj) == 0 then rt.obj else 0) && rt.Sane()
    ensures rt.parent == old(rt.parent) && rt.ifset == old(rt.ifset)
    ensures old(Good(p, rt, rest)) ==> Good(p, rt, rest)
    ensures old(rt.obj) != 0 || mfc.parent == 0 || mfc.ifCount == 0 ==>
              ret == 0 && p.log == old(p.log) && unchanged(rt)
    ensures old(rt.obj) == 0 && mfc.parent != 0 && mfc.ifCount != 0 ==>
              && (ret == 0 <==> Smooth(old(p.log), p.log) && RpfPossible(mfc, l3, mem) && OutPossible(af, mem))
              && (ret == 0 ==> rt.obj != 0 && EndsWith(p.log, Created(Entry(rt.rpf, rt.ol), rt.key, rt.obj)))
              && (ret != 0 ==> rt.obj == 0)
    ensures old(Good(p, rt, rest)) && old(rt.obj) == 0 && mfc.parent != 0 && mfc.ifCount != 0 ==>
              if ret == 0 then rt.Programmed(mfc, iftable, l3) else rt.obj == 0
    ensures old(Good(p, rt, rest)) && old(rt.obj) == 0 && mfc.parent != 0 && mfc.ifCount != 0 && ret == 0 ==>
              (rt.AsAsked(mfc, iftable) <==> |Selected(iftable, mfc.ifset)| <= Room(mfc))
  {
    hide Kept, Apart2, Names, RouteGraph, HasTear, ViewOf, Keys, Carries, Wanted, Selected, Grew, GrewBy,
         Mroute.AsAsked, Smooth, EndsWith, RpfPossible, OutPossible;
    GrewSame(p.log);
    if rt.obj != 0 {
      return 0;
    }
    if mfc.parent == 0 || mfc.ifCount == 0 {
      return 0;
    }
    var obj, rpf, rpfLst, ol, olLst;
    ghost var r, o;
    ret, obj, rpf, rpfLst, ol, olLst, r, o := BuildRoute(p, rt.key, mfc, iftable, l3, af, mem, rest);
    assert old(Good(p, rt, rest)) ==> Kept(ViewOf(old(p.log)), rest, map[]);
    if ret == 0 {
      rt.obj, rt.rpf, rt.rpfLst, rt.ol, rt.olLst := obj, rpf, rpfLst, ol, olLst;
      rt.rpfMembers, rt.olMembers := r.members, o.members;
      assert rt.R() == r && rt.O() == o;
      assert old(Good(p, rt, rest)) ==> rt.Mine() == RouteGraph(obj, r, o);
      if old(Good(p, rt, rest)) {
        AskedFor(rt, mfc, iftable, l3);
      }
    } else {
      rt.obj, rt.rpf, rt.rpfLst, rt.ol, rt.olLst := 0, 0, NoList, 0, NoList;
    }
  }

  lemma KeyGone(log: seq<Call>, obj: Handle, log': seq<Call>)
    requires Grew(log + [Deleted(Entry(0, 0), obj)], log')
    ensures obj !in KeysAfter(log')
  {
    var log1 := log + [Deleted(Entry(0, 0), obj)];
    assert log1[..|log1| - 1] == log;
    assert obj !in KeysAfter(log1);
  }

  method DelMroute(p: Plugin, rt: Mroute, ghost rest: Graph) returns (ret: int)
    requires rt.Sane()
    modifies p, rt
    ensures Grew(old(p.log), p.log) && rt.Sane()
    ensures rt.parent == old(rt.parent) && rt.ifset == old(rt.ifset)
    ensures rt.obj == 0
    ensures old(rt.obj) == 0 ==> ret == 0 && p.log == old(p.log)
    ensures old(rt.obj) != 0 ==> old(rt.obj) !in KeysAfter(p.log)
    ensures old(Good(p, rt, rest)) ==> Good(p, rt, rest)
  {
    hide Kept, Apart2, Names, RouteGraph, CleanupCalls, HasTear, ViewOf, Keys, Grew, KeysAfter;
    GrewSame(p.log);
    if rt.obj == 0 {
      return 0;
    }
    ghost var log0 := p.log;
    ghost var obj, r, o := rt.obj, rt.R(), rt.O();
    if Good(p, rt, rest) {
      RouteGoes(p.log, rest, obj, r, o);
    }
    ret := p.Delete(Entry(0, 0), rt.obj);
    ghost var log1 := p.log;
    CleanupRpfGroup(p, rt.rpf, rt.rpfLst);
    ghost var log2 := p.log;
    CleanupOutGroup(p, rt.ol, rt.olLst);
    GrewMore(log1, log2, p.log);
    GrewMore(log0, log1, p.log);
    KeyGone(log0, obj, p.log);
    rt.rpf, rt.rpfLst, rt.ol, rt.olLst, rt.obj := 0, NoList, 0, NoList, 0;
  }

  /** The entry is pointed at both new groups, and the groups it left are cleaned up. When the
      second set is refused the first is not taken back. */
  method SwitchGroups(p: Plugin, obj: Handle, rpf: Handle, rpfLst: List, ol: Handle, olLst: List,
                      rpf': Handle, rpfLst': List, ol': Handle, olLst': List,
                      ghost rest: Graph, ghost r: Held, ghost o: Held, ghost o': Held, ghost r': Held)
    returns (ret: int)
    requires obj != 0 && Sized(rpfLst) && Sized(olLst) && Sized(rpfLst') && Sized(olLst')
    requires r.group == rpf && r.list == rpfLst && o.group == ol && o.list == olLst
    requires r'.group == rpf' && r'.list == rpfLst' && o'.group == ol' && o'.list == olLst'
    modifies p
    ensures Grew(old(p.log), p.log) && (ret == 0 <==> Smooth(old(p.log), p.log))
    ensures Busy(old(p.log), rest, obj, r, o, o', r') ==>
              if ret == 0 then Route(p.log, rest, obj, r', o')
              else if HasTear(p.log) then !Honours(p.log)
              else Route(p.log, rest, obj, r, o)
  {
    hide *;
    ghost var log0 := p.log;
    ghost var good := Busy(log0, rest, obj, r, o, o', r');
    ret := p.SetEntry(obj, Out, ol');
    if ret != 0 {
      if good {
        OutRefused(log0, rest, obj, r, o, o', r');
      }
      ghost var l1 := p.log;
      CleanupRpfGroup(p, rpf', rpfLst');
      GrewMore(log0, l1, p.log);
      SmoothMore(log0, l1, p.log);
      ghost var l2 := p.log;
      CleanupOutGroup(p, ol', olLst');
      GrewMore(log0, l2, p.log);
      SmoothMore(log0, l2, p.log);
      return;
    }
    ghost var l1 := p.log;
    ret := p.SetEntry(obj, Rpf, rpf');
    GrewMore(log0, l1, p.log);
    SmoothMore(log0, l1, p.log);
    l1 := p.log;
    if ret != 0 {
      if good {
        Torn(log0, rest, obj, r, o, o', r');
      }
      CleanupRpfGroup(p, rpf', rpfLst');
      GrewMore(log0, l1, p.log);
      SmoothMore(log0, l1, p.log);
      l1 := p.log;
      CleanupOutGroup(p, ol', olLst');
      GrewMore(log0, l1, p.log);
      SmoothMore(log0, l1, p.log);
      return;
    }
    if good {
      BothTaken(log0, rest, obj, r, o, o', r');
    }
    CleanupOutGroup(p, ol, olLst);
    GrewMore(log0, l1, p.log);
    SmoothMore(log0, l1, p.log);
    l1 := p.log;
    CleanupRpfGroup(p, rpf, rpfLst);
    GrewMore(log0, l1, p.log);
    SmoothMore(log0, l1, p.log);
  }

  lemma NoCalls(side: Side)
    ensures CleanupCalls(side, 0, NoList) == []
  {
  }

  /** Both new groups beside a route: the two of them or neither. */
  method MakeGroups(p: Plugin, mfc: Mfc, iftable: seq<Vif>, l3: map<nat, Handle>, af: Family, mem: Memory,
                    ghost rest: Graph, ghost obj: Handle, ghost r: Held, ghost o: Held)
    returns (ret: int, ol': Handle, olLst': List, rpf': Handle, rpfLst': List, ghost o': Held, ghost r': Held)
    modifies p
    ensures Grew(old(p.log), p.log) && Sized(olLst') && Sized(rpfLst')
    ensures ret == 0 <==> Smooth(old(p.log), p.log) && RpfPossible(mfc, l3, mem) && OutPossible(af, mem)
    ensures ret == 0 ==> r'.group == rpf' && r'.list == rpfLst' && o'.group == ol' && o'.list == olLst'
    ensures Route(old(p.log), rest, obj, r, o) ==>
              if ret == 0 then
                && Busy(p.log, rest, obj, r, o, o', r')
                && Carries(r'.members, Listed(rpfLst'), [Port(l3, mfc.parent)])
                && Carries(o'.members, Listed(olLst'), Wanted(iftable, mfc.ifset, Room(mfc)))
              else Route(p.log, rest, obj, r, o) && !HasTear(p.log)
  {
    hide Kept, Apart2, Names, RouteGraph, HasTear, ViewOf, Keys, Carries, Wanted, Built, Undone, Of, Busy, OneNew,
         CleanupCalls, Grew, Selected, Smooth, Route;
    ghost var good, log0 := Route(p.log, rest, obj, r, o), p.log;
    ghost var route := RouteGraph(obj, r, o);
    ghost var members, members';
    rpf', rpfLst' := 0, NoList;
    o', r' := Held(0, map[], NoList), Held(0, map[], NoList);
    if good {
      StillRoute(log0, log0, rest, obj, r, o);
    }
    ret, ol', olLst', members := CreateOutGroup(p, Room(mfc), mfc.ifset, iftable, af, mem.out, rest, route);
    ghost var log1 := p.log;
    if ret != 0 {
      if good {
        StillRoute(log0, log1, rest, obj, r, o);
      }
      return;
    }
    o' := Held(ol', members, olLst');
    if good {
      OutBuilt(log0, log1, rest, obj, r, o, o', Wanted(iftable, mfc.ifset, Room(mfc)));
    }
    ret, rpf', rpfLst', members' := CreateRpf(p, mfc.parent, l3, mem.rpf, rest, route + Of(Out, o'));
    ghost var log2 := p.log;
    GrewMore(log0, log1, log2);
    SmoothMore(log0, log1, log2);
    if ret != 0 {
      if good {
        NewOutUndone(log1, log2, rest, obj, r, o, o');
      }
      CleanupRpfGroup(p, rpf', rpfLst');
      assert p.log == log2 by {
        NoCalls(Rpf);
      }
      CleanupOutGroup(p, ol', olLst');
      GrewMore(log0, log2, p.log);
      SmoothMore(log0, log2, p.log);
      return;
    }
    r' := Held(rpf', members', rpfLst');
    if good {
      BothBuilt(log1, log2, rest, obj, r, o, o', r');
    }
  }

  /** The outgoing interfaces changed: both groups are replaced. */
  method ReplaceGroups(p: Plugin, rt: Mroute, mfc: Mfc, iftable: seq<Vif>, l3: map<nat, Handle>, af: Family,
                       mem: Memory, ghost rest: Graph)
    returns (ret: int)
    requires rt.Sane() && rt.obj != 0
    modifies p, rt
    ensures Grew(old(p.log), p.log) && rt.Sane()
    ensures rt.parent == old(rt.parent) && rt.ifset == old(rt.ifset) && rt.obj == old(rt.obj)
    ensures ret != 0 ==> unchanged(rt)
    ensures ret == 0 <==> Smooth(old(p.log), p.log) && RpfPossible(mfc, l3, mem) && OutPossible(af, mem)
    ensures old(Good(p, rt, rest)) ==>
              if ret == 0 then
                && Good(p, rt, rest) && rt.Programmed(mfc, iftable, l3)
                && (rt.AsAsked(mfc, iftable) <==> |Selected(iftable, mfc.ifset)| <= Room(mfc))
              else if HasTear(p.log) then !Honours(p.log)
              else Good(p, rt, rest)
  {
    hide Kept, Apart2, Names, RouteGraph, HasTear, ViewOf, Keys, Carries, Wanted, Busy, Grew, Selected, Mroute.AsAsked,
         Smooth, RpfPossible, OutPossible;
    ghost var good, log0 := Good(p, rt, rest), p.log;
    ghost var obj, r, o := rt.obj, rt.R(), rt.O();
    ghost var o', r';
    var ol', olLst', rpf', rpfLst';
    ret, ol', olLst', rpf', rpfLst', o', r' := MakeGroups(p, mfc, iftable, l3, af, mem, rest, obj, r, o);
    if ret != 0 {
      return;
    }
    ghost var log2 := p.log;
    ret := SwitchGroups(p, rt.obj, rt.rpf, rt.rpfLst, rt.ol, rt.olLst, rpf', rpfLst', ol', olLst', rest, r, o, o', r');
    GrewMore(log0, log2, p.log);
    SmoothMore(log0, log2, p.log);
    if ret == 0 {
      rt.olLst, rt.ol, rt.rpfLst, rt.rpf := olLst', ol', rpfLst', rpf';
      rt.rpfMembers, rt.olMembers := r'.members, o'.members;
      assert rt.R() == r' && rt.O() == o';
      if good {
        AskedFor(rt, mfc, iftable, l3);
      }
    }
  }

  /** Only the incoming interface changed. */
  method ReplaceRpf(p: Plugin, rt: Mroute, mfc: Mfc, l3: map<nat, Handle>, mem: Memory, ghost rest: Graph)
    returns (ret: int)
    requires rt.Sane() && rt.obj != 0
    modifies p, rt
    ensures Grew(old(p.log), p.log) && rt.Sane()
    ensures rt.parent == old(rt.parent) && rt.ifset == old(rt.ifset) && rt.obj == old(rt.obj)
    ensures rt.ol == old(rt.ol) && rt.olLst == old(rt.olLst) && rt.olMembers == old(rt.olMembers)
    ensures ret != 0 ==> unchanged(rt)
    ensures ret == 0 <==> Smooth(old(p.log), p.log) && RpfPossible(mfc, l3, mem)
    ensures old(Good(p, rt, rest)) ==>
              && Good(p, rt, rest)
              && (ret == 0 ==> Carries(rt.rpfMembers, Listed(rt.rpfLst), [Port(l3, mfc.parent)]))
  {
    hide Kept, Apart2, Names, RouteGraph, HasTear, ViewOf, Keys, Carries, Built, Undone, Of, CleanupCalls, Grew, Smooth;
    ghost var good, log0 := Good(p, rt, rest), p.log;
    ghost var obj, r, o := rt.obj, rt.R(), rt.O();
    ghost var route := RouteGraph(obj, r, o);
    ghost var members;
    var rpf', rpfLst';
    if good {
      StillRoute(log0, log0, rest, obj, r, o);
    }
    ret, rpf', rpfLst', members := CreateRpf(p, mfc.parent, l3, mem.rpf, rest, route);
    if ret != 0 {
      if good {
        StillRoute(log0, p.log, rest, obj, r, o);
      }
      return;
    }
    ghost var r' := Held(rpf', members, rpfLst');
    if good {
      RpfBuilt(log0, p.log, rest, obj, r, o, r');
    }
    ghost var log1 := p.log;
    ret := p.SetEntry(rt.obj, Rpf, rpf');
    GrewMore(log0, log1, p.log);
    SmoothMore(log0, log1, p.log);
    log1 := p.log;
    if ret != 0 {
      CleanupRpfGroup(p, rpf', rpfLst');
      GrewMore(log0, log1, p.log);
      SmoothMore(log0, log1, p.log);
      return;
    }
    CleanupRpfGroup(p, rt.rpf, rt.rpfLst);
    GrewMore(log0, log1, p.log);
    SmoothMore(log0, log1, p.log);
    rt.rpfLst, rt.rpf, rt.rpfMembers := rpfLst', rpf', members;
    assert rt.R() == r' && rt.O() == o;
  }

  /** An update keeps every promise exactly when the plugin did not tear the entry. It succeeds if
      and only if the plugin refuses nothing and what it has to make is possible; without an
      entry, or a change, there is nothing to do. */
  method UpdMroute(p: Plugin, rt: Mroute, mfc: Mfc, iftable: seq<Vif>, l3: map<nat, Handle>, af: Family,
                   mem: Memory, ghost rest: Graph)
    returns (ret: int)
    requires rt.Sane()
    modifies p, rt
    ensures Grew(old(p.log), p.log) && rt.Sane()
    ensures rt.parent == old(rt.parent) && rt.ifset == old(rt.ifset) && rt.obj == old(rt.obj)
    ensures old(Good(p, rt, rest)) ==> if HasTear(p.log) then !Honours(p.log) else Good(p, rt, rest)
    ensures old(Good(p, rt, rest)) && old(rt.obj) != 0 && mfc.ifset != rt.ifset && ret == 0 ==>
              && rt.Programmed(mfc, iftable, l3)
              && (rt.AsAsked(mfc, iftable) <==> |Selected(iftable, mfc.ifset)| <= Room(mfc))
    ensures old(Good(p, rt, rest)) && old(rt.obj) != 0 && mfc.ifset == rt.ifset && mfc.parent != rt.parent
            && ret == 0 ==>
              && Carries(rt.rpfMembers, Listed(rt.rpfLst), [Port(l3, mfc.parent)])
              && rt.olMembers == old(rt.olMembers)
    ensures ret != 0 || (mfc.ifset == rt.ifset && mfc.parent == rt.parent) ==> unchanged(rt)
    ensures if old(rt.obj) == 0 || (mfc.ifset == rt.ifset && mfc.parent == rt.parent) then
              ret == 0 && p.log == old(p.log) && unchanged(rt)
            else
              ret == 0 <==> && Smooth(old(p.log), p.log) && RpfPossible(mfc, l3, mem)
                            && (mfc.ifset != rt.ifset ==> OutPossible(af, mem))
  {
    hide Grew, Kept, HasTear, Honours, Carries, Selected, Wanted, Smooth;
    GrewSame(p.log);
    if rt.obj == 0 {
      return 0;
    }
    if rt.ifset != mfc.ifset {
      ret := ReplaceGroups(p, rt, mfc, iftable, l3, af, mem, rest);
    } else if rt.parent != mfc.parent {
      ret := ReplaceRpf(p, rt, mfc, l3, mem, rest);
    } else {
      ret := 0;
    }
  }
}
