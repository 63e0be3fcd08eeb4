/** Groups with their members, and the calls that clean one up. */
module FalGroups {
  import opened FalContract

  /** The objects of one group: the group itself and its members. */
  function Bundle(side: Side, group: Handle, members: map<Handle, Handle>): Graph {
    map h | h in members.Keys + {group} :: if h == group then Group(side) else Member(side, group, members[h])
  }

  function NonZero(hs: seq<Handle>): set<Handle> {
    set h | h in hs && h != 0
  }

  /** No handle is stored twice, the null handle aside. */
  predicate Distinct(hs: seq<Handle>) {
    forall i, j :: 0 <= i < j < |hs| && hs[i] != 0 ==> hs[i] != hs[j]
  }

  predicate NoRefs(g: Graph, hs: set<Handle>) {
    forall k :: k in g ==> Refs(g[k]) !! hs
  }

  /** Delete the listed members in order; deleting the null handle is no call. */
  function Deletes(side: Side, hs: seq<Handle>): seq<Call> {
    if hs == [] then []
    else if hs[0] == 0 then Deletes(side, hs[1..])
    else [Deleted(Member(side, 0, 0), hs[0])] + Deletes(side, hs[1..])
  }

  lemma {:induction false} DeletesLast(side: Side, hs: seq<Handle>, h: Handle)
    ensures Deletes(side, hs + [h]) ==
            Deletes(side, hs) + (if h == 0 then [] else [Deleted(Member(side, 0, 0), h)])
  {
    if hs != [] {
      DeletesLast(side, hs[1..], h);
      assert (hs + [h])[1..] == hs[1..] + [h];
    }
  }

  function GroupDelete(side: Side, group: Handle): seq<Call> {
    if group == 0 then [] else [Deleted(Group(side), group)]
  }

  /** `mine` has a bundle beside it that it shares no handle with. */
  predicate Beside(mine: Graph, group: Handle, members: map<Handle, Handle>) {
    && 0 !in members && group != 0 && group !in members
    && mine.Keys !! members.Keys + {group}
    && NoRefs(mine, members.Keys)
  }

  lemma BundleMinus(mine: Graph, side: Side, group: Handle, members: map<Handle, Handle>, h: Handle)
    requires Beside(mine, group, members) && h in members
    ensures (mine + Bundle(side, group, members)) - {h} == mine + Bundle(side, group, members - {h})
  {
  }

  lemma MemberGoes(v: View, rest: Graph, mine: Graph,
                   side: Side, group: Handle, members: map<Handle, Handle>, h: Handle)
    requires Beside(mine, group, members) && h in members
    requires Kept(v, rest, mine + Bundle(side, group, members))
    ensures Kept(Next(v, Deleted(Member(side, 0, 0), h)), rest, mine + Bundle(side, group, members - {h}))
  {
    var g := mine + Bundle(side, group, members);
    assert Unreferenced(g, h);
    DeleteKeeps(v, rest, g, Member(side, 0, 0), h);
    BundleMinus(mine, side, group, members, h);
  }

  lemma GroupGoes(v: View, rest: Graph, mine: Graph, side: Side, group: Handle, members: map<Handle, Handle>)
    requires Beside(mine, group, members)
    requires Kept(v, rest, mine + Bundle(side, group, members))
    ensures var v' := Next(v, Deleted(Group(side), group));
            && (v'.honoured <==> members == map[] && Unreferenced(mine, group))
            && (v'.honoured ==> Kept(v', rest, mine))
  {
    var g := mine + Bundle(side, group, members);
    DeleteKeeps(v, rest, g, Group(side), group);
    if members != map[] {
      var h :| h in members;
      assert group in Refs(g[h]);
    } else {
      assert g - {group} == mine;
      assert forall k :: k in mine ==> g[k] == mine[k];
    }
  }

  lemma NextFirst(v: View, c: Call, calls: seq<Call>)
    ensures NextAll(v, [c] + calls) == NextAll(Next(v, c), calls)
  {
    if calls == [] {
      assert [c] + calls == [c];
    } else {
      NextFirst(v, c, calls[..|calls| - 1]);
      assert ([c] + calls)[..|calls|] == [c] + calls[..|calls| - 1];
    }
  }

  lemma NonZeroTail(hs: seq<Handle>, members: map<Handle, Handle>)
    requires hs != [] && Distinct(hs) && NonZero(hs) <= members.Keys
    ensures var h, tail := hs[0], hs[1..];
            && Distinct(tail)
            && (h == 0 ==> NonZero(tail) == NonZero(hs))
            && (h != 0 ==> h in members && NonZero(tail) <= (members - {h}).Keys
                           && members - {h} - NonZero(tail) == members - NonZero(hs))
  {
    assert hs == [hs[0]] + hs[1..];
    if hs[0] != 0 {
      assert hs[0] in NonZero(hs);
      assert NonZero(hs[1..]) == NonZero(hs) - {hs[0]};
    }
  }

  lemma {:induction false} MembersGo(v: View, rest: Graph, mine: Graph,
                                     side: Side, group: Handle, members: map<Handle, Handle>, hs: seq<Handle>)
    requires Beside(mine, group, members)
    requires Kept(v, rest, mine + Bundle(side, group, members))
    requires NonZero(hs) <= members.Keys && Distinct(hs)
    ensures var v' := NextAll(v, Deletes(side, hs));
            && Kept(v', rest, mine + Bundle(side, group, members - NonZero(hs)))
            && v'.torn == v.torn
    decreases |hs|
  {
    if hs == [] {
      assert members - NonZero(hs) == members;
    } else {
      var h, tail := hs[0], hs[1..];
      NonZeroTail(hs, members);
      if h == 0 {
        MembersGo(v, rest, mine, side, group, members, tail);
      } else {
        var c := Deleted(Member(side, 0, 0), h);
        MemberGoes(v, rest, mine, side, group, members, h);
        MembersGo(Next(v, c), rest, mine, side, group, members - {h}, tail);
        NextFirst(v, c, Deletes(side, tail));
      }
    }
  }

  /** Cleaning up keeps the promises exactly when the list names every member and no entry
      still points at the group. */
  lemma CleanupEffect(log: seq<Call>, rest: Graph, mine: Graph,
                      side: Side, group: Handle, members: map<Handle, Handle>, hs: seq<Handle>)
    requires Beside(mine, group, members)
    requires Kept(ViewOf(log), rest, mine + Bundle(side, group, members))
    requires NonZero(hs) <= members.Keys && Distinct(hs)
    ensures var v := ViewOf(log + Deletes(side, hs) + GroupDelete(side, group));
            && (v.torn <==> HasTear(log))
            && (v.honoured <==> NonZero(hs) == members.Keys && Unreferenced(mine, group))
            && (v.honoured ==> Kept(v, rest, mine))
  {
    MembersGo(ViewOf(log), rest, mine, side, group, members, hs);
    ViewSteps(log, Deletes(side, hs));
    var log1, left := log + Deletes(side, hs), members - NonZero(hs);
    ViewStep(log1, Deleted(Group(side), group));
    GroupGoes(ViewOf(log1), rest, mine, side, group, left);
    assert left == map[] <==> NonZero(hs) == members.Keys;
  }

  // ----- building a group -----

  /** The members are the handles `hs`, each with the port at its position. */
  predicate Carries(members: map<Handle, Handle>, hs: seq<Handle>, ports: seq<Handle>) {
    && |hs| == |ports|
    && 0 !in hs && Distinct(hs)
    && members.Keys == NonZero(hs)
    && forall i :: 0 <= i < |hs| ==> hs[i] in members && members[hs[i]] == ports[i]
  }

  lemma GroupJoins(v: View, rest: Graph, mine: Graph, side: Side, h: Handle)
    requires Kept(v, rest, mine) && h != 0 && h !in v.live
    ensures Beside(mine, h, map[]) && Kept(Next(v, Created(Group(side), NoKey, h)), rest, mine + Bundle(side, h, map[]))
  {
    CreateKeeps(v, rest, mine, Group(side), NoKey, h);
    assert mine[h := Group(side)] == mine + Bundle(side, h, map[]);
  }

  lemma BundlePlus(mine: Graph, side: Side, group: Handle, members: map<Handle, Handle>, h: Handle, port: Handle)
    requires h != group && h !in mine
    ensures (mine + Bundle(side, group, members))[h := Member(side, group, port)]
            == mine + Bundle(side, group, members[h := port])
  {
  }

  lemma MemberJoins(v: View, rest: Graph, mine: Graph,
                    side: Side, group: Handle, members: map<Handle, Handle>, h: Handle, port: Handle)
    requires Beside(mine, group, members) && Closed(mine)
    requires Kept(v, rest, mine + Bundle(side, group, members)) && h != 0 && h !in v.live
    ensures Beside(mine, group, members[h := port])
    ensures Kept(Next(v, Created(Member(side, group, port), NoKey, h)), rest,
                 mine + Bundle(side, group, members[h := port]))
  {
    var g := mine + Bundle(side, group, members);
    CreateKeeps(v, rest, g, Member(side, group, port), NoKey, h);
    BundlePlus(mine, side, group, members, h, port);
  }

  lemma CarriesMore(members: map<Handle, Handle>, hs: seq<Handle>, ports: seq<Handle>, h: Handle, port: Handle)
    requires Carries(members, hs, ports) && h != 0 && h !in members
    ensures Carries(members[h := port], hs + [h], ports + [port])
  {
    assert NonZero(hs + [h]) == NonZero(hs) + {h};
    assert h !in hs;
  }
}
