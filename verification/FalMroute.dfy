/**
 The multicast-route objects of `src/fal.c`: the functions that create, update and delete
 the groups, members and entry of a route in a plugin that may refuse any create or set.
 */
module FalMroute {
  import opened FalContract
  import opened FalGroups

  const ENOMEM: int := 12
  const EINVAL: int := 22

  // ----- the plugin -----

  lemma Above(used: set<Handle>) returns (b: Handle)
    ensures forall u :: u in used ==> u <= b
    decreases used
  {
    if used == {} {
      b := 0;
    } else {
      var u :| u in used;
      var b0 := Above(used - {u});
      b := if b0 < u then u else b0;
      assert forall x :: x in used ==> x == u || x in used - {u};
    }
  }

  /** A plugin answers as it likes. All that is asked of it is that a handle it returns is
      not null and not in use; it may return the handle of a deleted object again. */
  class Plugin {
    var log: seq<Call>

    constructor ()
      ensures log == []
    {
      log := [];
    }

    method Create(o: Obj, key: Key) returns (ret: int, h: Handle)
      modifies this
      ensures ret == 0 ==> h != 0 && h !in After(old(log)) && log == old(log) + [Created(o, key, h)]
      ensures ret != 0 ==> h == 0 && log == old(log) + [Refused(o, key)]
      ensures key == NoKey && !o.Entry? && (o.Member? ==> o.port != 0) ==> Grew(old(log), log)
      ensures ret == 0 <==> Smooth(old(log), log)
    {
      hide Grew, Smooth;
      ret, h := *, 0;
      SmoothStep(log, Refused(o, key));
      if ret == 0 {
        ghost var b := Above(After(log).Keys);
        assert b + 1 !in After(log);
        h :| h != 0 && h !in After(log);
        GrewStep(log, Created(o, key, h));
        SmoothStep(log, Created(o, key, h));
        log := log + [Created(o, key, h)];
      } else {
        GrewStep(log, Refused(o, key));
        log := log + [Refused(o, key)];
      }
    }

    method SetEntry(e: Handle, side: Side, group: Handle) returns (ret: int)
      modifies this
      ensures e == 0 ==> ret == 0 && log == old(log)
      ensures e != 0 ==> log == old(log) + [Set(e, side, group, ret == 0)]
      ensures Grew(old(log), log) && (ret == 0 <==> Smooth(old(log), log))
    {
      hide Grew, Smooth;
      GrewSame(log);
      SmoothStep(log, Set(e, side, group, true));
      if e == 0 {
        return 0;
      }
      ret := *;
      GrewStep(log, Set(e, side, group, ret == 0));
      SmoothStep(log, Set(e, side, group, ret == 0));
      log := log + [Set(e, side, group, ret == 0)];
    }

    /** A delete may report an error; the object is gone all the same. */
    method Delete(o: Obj, h: Handle) returns (ret: int)
      modifies this
      ensures log == old(log) + if h == 0 then [] else [Deleted(o, h)]
      ensures Grew(old(log), log) && Smooth(old(log), log)
    {
      hide Grew, Smooth;
      GrewSame(log);
      SmoothStep(log, Deleted(o, h));
      if h == 0 {
        return 0;
      }
      ret := *;
      GrewStep(log, Deleted(o, h));
      log := log + [Deleted(o, h)];
    }
  }

  // ----- lists of members -----

  /** `struct fal_object_list_t`, or a null pointer to one. */
  datatype List = NoList | List(count: nat, slots: seq<Handle>)

  predicate Sized(l: List) {
    l.List? ==> l.count <= |l.slots|
  }

  function Listed(l: List): seq<Handle>
    requires Sized(l)
  {
    if l.NoList? then [] else l.slots[..l.count]
  }

  /** The calls that delete the listed members and then the group. */
  function CleanupCalls(side: Side, group: Handle, l: List): seq<Call>
    requires Sized(l)
  {
    Deletes(side, Listed(l)) + GroupDelete(side, group)
  }

  method CleanupRpfGroup(p: Plugin, group: Handle, l: List)
    requires Sized(l)
    modifies p
    ensures p.log == old(p.log) + CleanupCalls(Rpf, group, l)
    ensures Grew(old(p.log), p.log) && Smooth(old(p.log), p.log)
  {
    hide Grew, Smooth;
    GrewSame(p.log);
    SmoothStep(p.log, Deleted(Group(Rpf), group));
    if l.List? {
      var i := 0;
      while i < l.count
        invariant 0 <= i <= l.count
        invariant p.log == old(p.log) + Deletes(Rpf, l.slots[..i])
        invariant Grew(old(p.log), p.log) && Smooth(old(p.log), p.log)
      {
        DeletesLast(Rpf, l.slots[..i], l.slots[i]);
        assert l.slots[..i + 1] == l.slots[..i] + [l.slots[i]];
        ghost var log1 := p.log;
        var _ := p.Delete(Member(Rpf, 0, 0), l.slots[i]);
        GrewMore(old(p.log), log1, p.log);
        SmoothMore(old(p.log), log1, p.log);
        i := i + 1;
      }
    }
    if group != 0 {
      ghost var log1 := p.log;
      var _ := p.Delete(Group(Rpf), group);
      GrewMore(old(p.log), log1, p.log);
      SmoothMore(old(p.log), log1, p.log);
    }
  }

  /** Deletes the members and empties the list; null slots are passed over. */
  method CleanupOlist(p: Plugin, l: List) returns (l': List)
    requires Sized(l) && l.List?
    modifies p
    ensures p.log == old(p.log) + Deletes(Out, Listed(l))
    ensures Grew(old(p.log), p.log) && Smooth(old(p.log), p.log)
    ensures l'.List? && l'.count == 0
  {
    hide Grew, Smooth;
    GrewSame(p.log);
    SmoothStep(p.log, Deleted(Group(Out), 0));
    var i, slots := 0, l.slots;
    while i < l.count
      invariant 0 <= i <= l.count && |slots| == |l.slots| && slots[i..] == l.slots[i..]
      invariant p.log == old(p.log) + Deletes(Out, l.slots[..i])
      invariant Grew(old(p.log), p.log) && Smooth(old(p.log), p.log)
    {
      assert slots[i] == slots[i..][0] == l.slots[i..][0];
      DeletesLast(Out, l.slots[..i], l.slots[i]);
      assert l.slots[..i + 1] == l.slots[..i] + [l.slots[i]];
      if slots[i] != 0 {
        ghost var log1 := p.log;
        var _ := p.Delete(Member(Out, 0, 0), slots[i]);
        GrewMore(old(p.log), log1, p.log);
        SmoothMore(old(p.log), log1, p.log);
        slots := slots[i := 0];
      }
      assert slots[i + 1..] == l.slots[i..][1..];
      i := i + 1;
    }
    l' := List(0, slots);
  }

  method CleanupOutGroup(p: Plugin, group: Handle, l: List)
    requires Sized(l)
    modifies p
    ensures p.log == old(p.log) + CleanupCalls(Out, group, l)
    ensures Grew(old(p.log), p.log) && Smooth(old(p.log), p.log)
  {
    hide Grew, Smooth;
    GrewSame(p.log);
    SmoothStep(p.log, Deleted(Group(Out), group));
    if l.List? && l.count != 0 {
      var _ := CleanupOlist(p, l);
    }
    if group != 0 {
      ghost var log1 := p.log;
      var _ := p.Delete(Group(Out), group);
      GrewMore(old(p.log), log1, p.log);
      SmoothMore(old(p.log), log1, p.log);
    }
  }

  // ----- creating a group with its members -----

  /** The outcome of building a group beside `mine`: all of it, or none of it. */
  ghost predicate Built(before: seq<Call>, after: seq<Call>, rest: Graph, mine: Graph,
                        side: Side, group: Handle, members: map<Handle, Handle>)
  {
    && HasTear(after) == HasTear(before)
    && Beside(mine, group, members)
    && Kept(ViewOf(after), rest, mine + Bundle(side, group, members))
  }

  ghost predicate Undone(before: seq<Call>, after: seq<Call>, rest: Graph, mine: Graph) {
    HasTear(after) == HasTear(before) && Kept(ViewOf(after), rest, mine)
  }

  function Port(l3: map<nat, Handle>, ifindex: nat): Handle {
    if ifindex in l3 then l3[ifindex] else 0
  }

  /** `fal_create_ipmc_rpf_group` stores every new member in the first slot of the list, so
      the list only remembers the last one. */
  predicate FirstSlotOnly(l: List, made: seq<Handle>, n: nat) {
    && l.List? && l.count == |made| <= n == |l.slots|
    && (forall i :: 1 <= i < n ==> l.slots[i] == 0)
    && (n > 0 ==> l.slots[0] == if made == [] then 0 else made[|made| - 1])
  }

  /** The list names every member exactly when there is at most one. */
  lemma FirstSlotNames(l: List, made: seq<Handle>, n: nat, members: map<Handle, Handle>, ports: seq<Handle>)
    requires FirstSlotOnly(l, made, n) && Carries(members, made, ports)
    ensures NonZero(Listed(l)) <= members.Keys && Distinct(Listed(l))
    ensures NonZero(Listed(l)) == members.Keys <==> |made| <= 1
  {
    if made != [] {
      assert Listed(l)[0] == made[|made| - 1];
      assert NonZero(Listed(l)) == {made[|made| - 1]};
      assert |made| == 1 ==> NonZero(made) == {made[0]};
      assert |made| >= 2 ==> made[0] in NonZero(made) && made[0] != made[|made| - 1];
    }
  }

  method NewGroup(p: Plugin, side: Side, ghost rest: Graph, ghost mine: Graph) returns (ret: int, group: Handle)
    modifies p
    ensures Grew(old(p.log), p.log) && !EndsInOutSet(p.log)
    ensures ret == 0 <==> group != 0
    ensures ret == 0 <==> Smooth(old(p.log), p.log)
    ensures Kept(ViewOf(old(p.log)), rest, mine) ==>
              if ret == 0 then Built(old(p.log), p.log, rest, mine, side, group, map[])
              else Undone(old(p.log), p.log, rest, mine)
  {
    hide Grew, Smooth;
    ghost var log0 := p.log;
    ret, group := p.Create(Group(side), NoKey);
    ViewStep(log0, if ret == 0 then Created(Group(side), NoKey, group) else Refused(Group(side), NoKey));
    if Kept(ViewOf(log0), rest, mine) {
      if ret == 0 {
        GroupJoins(ViewOf(log0), rest, mine, side, group);
      } else {
        RefuseKeeps(ViewOf(log0), rest, mine, Group(side), NoKey);
      }
    }
  }

  /** A group under construction, with the members made so far and the ports they carry. */
  ghost predicate Growing(log0: seq<Call>, log: seq<Call>, rest: Graph, mine: Graph, side: Side, group: Handle,
                          members: map<Handle, Handle>, made: seq<Handle>, ports: seq<Handle>)
  {
    && Closed(mine)
    && Carries(members, made, ports)
    && Built(log0, log, rest, mine, side, group, members)
  }

  method AddMember(p: Plugin, side: Side, group: Handle, port: Handle,
                   ghost log0: seq<Call>, ghost rest: Graph, ghost mine: Graph,
                   ghost members: map<Handle, Handle>, ghost made: seq<Handle>, ghost ports: seq<Handle>)
    returns (ret: int, h: Handle)
    requires port != 0
    modifies p
    ensures Grew(old(p.log), p.log) && !EndsInOutSet(p.log)
    ensures ret == 0 <==> h != 0
    ensures ret == 0 <==> Smooth(old(p.log), p.log)
    ensures Growing(log0, old(p.log), rest, mine, side, group, members, made, ports) ==>
              if ret == 0 then
                Growing(log0, p.log, rest, mine, side, group, members[h := port], made + [h], ports + [port])
              else
                Growing(log0, p.log, rest, mine, side, group, members, made, ports)
  {
    hide Grew, Smooth;
    ghost var log1 := p.log;
    var o := Member(side, group, port);
    ret, h := p.Create(o, NoKey);
    ViewStep(log1, if ret == 0 then Created(o, NoKey, h) else Refused(o, NoKey));
    if Growing(log0, log1, rest, mine, side, group, members, made, ports) {
      if ret == 0 {
        MemberJoins(ViewOf(log1), rest, mine, side, group, members, h, port);
        CarriesMore(members, made, ports, h, port);
      } else {
        RefuseKeeps(ViewOf(log1), rest, mine + Bundle(side, group, members), o, NoKey);
      }
    }
  }

  /** A half-built group is cleaned up: nothing is left exactly when the list names every
      member made so far. */
  lemma CleanupUndoes(log0: seq<Call>, log1: seq<Call>, rest: Graph, mine: Graph,
                      side: Side, group: Handle, members: map<Handle, Handle>, hs: seq<Handle>)
    requires Closed(mine) && Built(log0, log1, rest, mine, side, group, members)
    requires NonZero(hs) <= members.Keys && Distinct(hs)
    ensures var log2 := log1 + (Deletes(side, hs) + GroupDelete(side, group));
            if NonZero(hs) == members.Keys then Undone(log0, log2, rest, mine) else !Honours(log2)
  {
    CleanupEffect(log1, rest, mine, side, group, members, hs);
    assert log1 + (Deletes(side, hs) + GroupDelete(side, group)) == log1 + Deletes(side, hs) + GroupDelete(side, group);
  }

  function Ports(l3: map<nat, Handle>, ifs: seq<nat>): seq<Handle> {
    seq(|ifs|, i requires 0 <= i < |ifs| => Port(l3, ifs[i]))
  }

  /** The plugin knows all the interfaces. */
  predicate AllKnown(l3: map<nat, Handle>, ifs: seq<nat>) {
    forall i :: 0 <= i < |ifs| ==> Port(l3, ifs[i]) != 0
  }

  method AddRpfMembers(p: Plugin, group: Handle, ifs: seq<nat>, l3: map<nat, Handle>,
                       ghost log0: seq<Call>, ghost rest: Graph, ghost mine: Graph)
    returns (ret: int, l: List, ghost made: seq<Handle>, ghost members: map<Handle, Handle>)
    modifies p
    ensures Grew(old(p.log), p.log) && (!EndsInOutSet(old(p.log)) ==> !EndsInOutSet(p.log))
    ensures FirstSlotOnly(l, made, |ifs|) && (ret == 0 ==> |made| == |ifs|)
    ensures ret == 0 <==> Smooth(old(p.log), p.log) && AllKnown(l3, ifs)
    ensures Growing(log0, old(p.log), rest, mine, Rpf, group, map[], [], []) ==>
              Growing(log0, p.log, rest, mine, Rpf, group, members, made, Ports(l3, ifs[..|made|]))
  {
    hide Growing, Grew, Smooth;
    GrewSame(p.log);
    SmoothStep(p.log, Deleted(Group(Rpf), group));
    ghost var good := Growing(log0, p.log, rest, mine, Rpf, group, map[], [], []);
    made, members := [], map[];
    l := List(0, seq(|ifs|, _ => 0));
    var i := 0;
    assert Ports(l3, ifs[..0]) == [];
    while i < |ifs|
      invariant 0 <= i == |made| <= |ifs| && Grew(old(p.log), p.log) && Smooth(old(p.log), p.log)
      invariant AllKnown(l3, ifs[..i])
      invariant !EndsInOutSet(old(p.log)) ==> !EndsInOutSet(p.log)
      invariant FirstSlotOnly(l, made, |ifs|)
      invariant good ==> Growing(log0, p.log, rest, mine, Rpf, group, members, made, Ports(l3, ifs[..i]))
    {
      var port := Port(l3, ifs[i]);
      if port == 0 {
        return -EINVAL, l, made, members;
      }
      var h;
      ghost var log1 := p.log;
      ret, h := AddMember(p, Rpf, group, port, log0, rest, mine, members, made, Ports(l3, ifs[..i]));
      GrewMore(old(p.log), log1, p.log);
      SmoothMore(old(p.log), log1, p.log);
      if ret != 0 {
        return;
      }
      assert Ports(l3, ifs[..i + 1]) == Ports(l3, ifs[..i]) + [port];
      made, members := made + [h], members[h := port];
      l := List(l.count + 1, l.slots[0 := h]);
      i := i + 1;
    }
    ret := 0;
  }

  /** On success the list is right for one interface and forgets members for more; on
      failure everything made is gone again exactly when at most one member was made. */
  method CreateRpfGroup(p: Plugin, ifs: seq<nat>, l3: map<nat, Handle>, room: bool,
                        ghost rest: Graph, ghost mine: Graph)
    returns (ret: int, group: Handle, l: List, ghost made: seq<Handle>, ghost members: map<Handle, Handle>)
    modifies p
    ensures Grew(old(p.log), p.log) && Sized(l) && |made| <= |ifs|
    ensures ret != 0 ==> group == 0 && l.NoList?
    ensures ret == 0 ==> group != 0 && FirstSlotOnly(l, made, |ifs|) && |made| == |ifs| && !EndsInOutSet(p.log)
    ensures ret == 0 <==> Smooth(old(p.log), p.log) && room && AllKnown(l3, ifs)
    ensures Kept(ViewOf(old(p.log)), rest, mine) ==>
              if ret == 0 then
                && Carries(members, made, Ports(l3, ifs))
                && Built(old(p.log), p.log, rest, mine, Rpf, group, members)
              else if |made| <= 1 then Undone(old(p.log), p.log, rest, mine)
              else !Honours(p.log)
  {
    hide Grew, Smooth, AllKnown;
    ghost var log0 := p.log;
    ghost var good := Kept(ViewOf(log0), rest, mine);
    made, members, l := [], map[], NoList;
    ret, group := NewGroup(p, Rpf, rest, mine);
    if ret != 0 {
      return;
    }
    ghost var log1 := p.log;
    if !room {
      ret := -ENOMEM;
    } else {
      ret, l, made, members := AddRpfMembers(p, group, ifs, l3, log0, rest, mine);
      GrewMore(log0, log1, p.log);
      SmoothMore(log0, log1, p.log);
    }
    log1 := p.log;
    if ret != 0 {
      if good {
        if l.List? {
          FirstSlotNames(l, made, |ifs|, members, Ports(l3, ifs[..|made|]));
        }
        CleanupUndoes(log0, p.log, rest, mine, Rpf, group, members, Listed(l));
      }
      CleanupRpfGroup(p, group, l);
      GrewMore(log0, log1, p.log);
      SmoothMore(log0, log1, p.log);
      group, l := 0, NoList;
    } else {
      assert ifs[..|made|] == ifs;
    }
  }

  // ----- output groups -----

  /** A row of the interface table: its multicast index and its router interface, or 0. */
  datatype Vif = Vif(index: nat, l3: Handle)

  datatype Family = Inet | Inet6 | OtherFamily

  /** The router interfaces of the selected rows, in table order; rows without one are skipped. */
  function Selected(iftable: seq<Vif>, ifset: set<nat>): seq<Handle> {
    if iftable == [] then []
    else
      var v := iftable[|iftable| - 1];
      Selected(iftable[..|iftable| - 1], ifset) + if v.index in ifset && v.l3 != 0 then [v.l3] else []
  }

  lemma {:induction false} SelectedGrows(iftable: seq<Vif>, ifset: set<nat>, n: nat)
    requires n <= |iftable|
    ensures Selected(iftable[..n], ifset) <= Selected(iftable, ifset)
    decreases |iftable|
  {
    if n < |iftable| {
      SelectedGrows(iftable[..|iftable| - 1], ifset, n);
      assert iftable[..|iftable| - 1][..n] == iftable[..n];
    } else {
      assert iftable[..n] == iftable;
    }
  }

  /** What an output group with room for `count` members should carry. */
  function Wanted(iftable: seq<Vif>, ifset: set<nat>, count: nat): seq<Handle> {
    var s := Selected(iftable, ifset);
    if count < |s| then s[..count] else s
  }

  /** A group carries all that is selected exactly when there is room for it. */
  lemma WantedIsAll(iftable: seq<Vif>, ifset: set<nat>, count: nat)
    ensures Wanted(iftable, ifset, count) == Selected(iftable, ifset) <==> |Selected(iftable, ifset)| <= count
  {
  }

  /** The two `..._iterate_ipmc_olist` functions, which differ in the table they walk. On
      failure `log1` is the log before the members made so far were deleted again. */
  method AddOutMembers(p: Plugin, group: Handle, count: nat, ifset: set<nat>, iftable: seq<Vif>,
                       ghost log0: seq<Call>, ghost rest: Graph, ghost mine: Graph)
    returns (ret: int, l: List, ghost made: seq<Handle>, ghost members: map<Handle, Handle>,
             ghost ports: seq<Handle>, ghost log1: seq<Call>)
    modifies p
    ensures Grew(old(p.log), p.log) && Sized(l) && l.List?
    ensures ret == 0 <==> Smooth(old(p.log), p.log)
    ensures ret == 0 ==> p.log == log1 && Listed(l) == made
    ensures ret != 0 ==> p.log == log1 + Deletes(Out, made) && l.count == 0
    ensures Growing(log0, old(p.log), rest, mine, Out, group, map[], [], []) ==>
              Growing(log0, log1, rest, mine, Out, group, members, made, ports)
    ensures ret == 0 ==> ports == Wanted(iftable, ifset, count)
  {
    hide Growing, Grew, Smooth;
    GrewSame(p.log);
    SmoothStep(p.log, Deleted(Group(Out), group));
    ghost var good := Growing(log0, p.log, rest, mine, Out, group, map[], [], []);
    made, members, ports := [], map[], [];
    var slots := seq(count, _ => 0);
    var i, n := 0, 0;
    while n < |iftable|
      invariant 0 <= n <= |iftable| && i == |made| <= count == |slots|
      invariant Grew(old(p.log), p.log) && Smooth(old(p.log), p.log)
      invariant slots[..i] == made && |ports| == i
      invariant ports == Selected(iftable[..n], ifset)
      invariant good ==> Growing(log0, p.log, rest, mine, Out, group, members, made, ports)
    {
      var v := iftable[n];
      assert iftable[..n + 1][..n] == iftable[..n];
      if v.index in ifset {
        if i >= count {
          break;
        }
        if v.l3 != 0 {
          var h;
          log1 := p.log;
          ret, h := AddMember(p, Out, group, v.l3, log0, rest, mine, members, made, ports);
          GrewMore(old(p.log), log1, p.log);
          SmoothMore(old(p.log), log1, p.log);
          if ret != 0 {
            log1 := p.log;
            l := CleanupOlist(p, List(i, slots));
            GrewMore(old(p.log), log1, p.log);
            SmoothMore(old(p.log), log1, p.log);
            return;
          }
          made, members, ports := made + [h], members[h := v.l3], ports + [v.l3];
          slots := slots[i := h];
          i := i + 1;
        }
      }
      n := n + 1;
    }
    ret, l, log1 := 0, List(i, slots), p.log;
    SelectedGrows(iftable, ifset, n);
    assert iftable[..|iftable|] == iftable;
    assert ports == Wanted(iftable, ifset, count);
  }

  method CreateOutGroup(p: Plugin, count: nat, ifset: set<nat>, iftable: seq<Vif>, af: Family, room: bool,
                        ghost rest: Graph, ghost mine: Graph)
    returns (ret: int, group: Handle, l: List, ghost members: map<Handle, Handle>)
    modifies p
    ensures Grew(old(p.log), p.log) && Sized(l)
    ensures ret != 0 ==> group == 0 && l.NoList?
    ensures ret == 0 ==> group != 0 && l.List?
    ensures ret == 0 <==> Smooth(old(p.log), p.log) && room && af != OtherFamily
    ensures Kept(ViewOf(old(p.log)), rest, mine) ==>
              if ret == 0 then
                && Carries(members, Listed(l), Wanted(iftable, ifset, count))
                && Built(old(p.log), p.log, rest, mine, Out, group, members)
              else Undone(old(p.log), p.log, rest, mine)
  {
    hide Grew, Smooth;
    ghost var log0 := p.log;
    ghost var good := Kept(ViewOf(log0), rest, mine);
    members, l := map[], NoList;
    ret, group := NewGroup(p, Out, rest, mine);
    if ret != 0 {
      return;
    }
    ghost var made, ports, log1 := [], [], p.log;
    ghost var log2 := p.log;
    if !room {
      ret := -ENOMEM;
    } else if af == OtherFamily {
      l, ret := List(0, seq(count, _ => 0)), -EINVAL;
    } else {
      ret, l, made, members, ports, log1 := AddOutMembers(p, group, count, ifset, iftable, log0, rest, mine);
      GrewMore(log0, log2, p.log);
      SmoothMore(log0, log2, p.log);
    }
    log2 := p.log;
    if ret != 0 {
      assert p.log == log1 + Deletes(Out, made) && Listed(l) == [];
      if good {
        GrowthUndone(log0, log1, rest, mine, Out, group, members, made, ports);
      }
      CleanupOutGroup(p, group, l);
      GrewMore(log0, log2, p.log);
      SmoothMore(log0, log2, p.log);
      group, l := 0, NoList;
    }
  }

  lemma GrowthUndone(log0: seq<Call>, log1: seq<Call>, rest: Graph, mine: Graph, side: Side, group: Handle,
                     members: map<Handle, Handle>, made: seq<Handle>, ports: seq<Handle>)
    requires Growing(log0, log1, rest, mine, side, group, members, made, ports)
    ensures Undone(log0, log1 + Deletes(side, made) + ([] + GroupDelete(side, group)), rest, mine)
  {
    CleanupUndoes(log0, log1, rest, mine, side, group, members, made);
    assert log1 + Deletes(side, made) + ([] + GroupDelete(side, group))
        == log1 + (Deletes(side, made) + GroupDelete(side, group));
  }

  /** A group made for several interfaces cannot be cleaned up within the promises: the
      list that should name its members names only the last. */
  lemma ManyMembersForgotten(log0: seq<Call>, log1: seq<Call>, rest: Graph, mine: Graph, group: Handle, l: List,
                             members: map<Handle, Handle>, made: seq<Handle>, ports: seq<Handle>)
    requires Growing(log0, log1, rest, mine, Rpf, group, members, made, ports) && FirstSlotOnly(l, made, |made|)
    ensures Honours(log1 + CleanupCalls(Rpf, group, l)) <==> |made| <= 1
  {
    FirstSlotNames(l, made, |made|, members, ports);
    CleanupUndoes(log0, log1, rest, mine, Rpf, group, members, Listed(l));
  }
}
