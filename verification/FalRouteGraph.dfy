/** What creating, cleaning up and replacing the groups of a route does to the graph. */
module FalRouteGraph {
  import opened FalContract
  import opened FalGroups
  import opened FalMroute

  // ----- graphs of one route -----

  /** A group and its members; the list that names them. */
  datatype Held = Held(group: Handle, members: map<Handle, Handle>, list: List)

  ghost predicate Names(b: Held) {
    && Sized(b.list) && Distinct(Listed(b.list))
    && NonZero(Listed(b.list)) == b.members.Keys
    && 0 !in b.members && b.group != 0 && b.group !in b.members
  }

  function Of(side: Side, b: Held): Graph {
    Bundle(side, b.group, b.members)
  }

  function Keys(b: Held): set<Handle> {
    b.members.Keys + {b.group}
  }

  /** `g` is `others` with a group beside them whose members they do not refer to. */
  ghost predicate Attached(g: Graph, others: Graph, side: Side, b: Held) {
    && Names(b)
    && others.Keys !! Keys(b) && g == others + Of(side, b)
    && NoRefs(others, b.members.Keys)
  }

  /** Cleaning up a group leaves the others as they are if nothing else refers to it, and
      breaks a promise otherwise. */
  lemma CleanupKeeps(log: seq<Call>, rest: Graph, g: Graph, others: Graph, side: Side, b: Held)
    requires Kept(ViewOf(log), rest, g) && Attached(g, others, side, b)
    ensures HasTear(log + CleanupCalls(side, b.group, b.list)) == HasTear(log)
    ensures Unreferenced(others, b.group) ==> Kept(ViewOf(log + CleanupCalls(side, b.group, b.list)), rest, others)
    ensures !Unreferenced(others, b.group) ==> !Honours(log + CleanupCalls(side, b.group, b.list))
  {
    CleanupEffect(log, rest, others, side, b.group, b.members, Listed(b.list));
    assert log + CleanupCalls(side, b.group, b.list) ==
           log + Deletes(side, Listed(b.list)) + GroupDelete(side, b.group);
  }

  function Alone(obj: Handle, e: Obj): Graph {
    map[obj := e]
  }

  /** Entry and two groups. */
  function RouteGraph(obj: Handle, r: Held, o: Held): Graph {
    Alone(obj, Entry(r.group, o.group)) + Of(Rpf, r) + Of(Out, o)
  }

  /** A route being updated: its entry points where `e` says, and it holds four groups. */
  function BusyGraph(obj: Handle, e: Obj, r: Held, o: Held, o': Held, r': Held): Graph {
    Alone(obj, e) + Of(Rpf, r) + Of(Out, o) + Of(Out, o') + Of(Rpf, r')
  }

  ghost predicate Apart2(obj: Handle, r: Held, o: Held) {
    && Names(r) && Names(o) && obj != 0
    && {obj} !! Keys(r) !! Keys(o)
  }

  ghost predicate Apart4(obj: Handle, r: Held, o: Held, o': Held, r': Held) {
    && Names(r) && Names(o) && Names(o') && Names(r') && obj != 0
    && {obj} !! Keys(r) !! Keys(o) !! Keys(o') !! Keys(r')
  }

  /** The handles the objects of `g` refer to. */
  predicate Targets(g: Graph, ts: set<Handle>) {
    forall k :: k in g ==> Refs(g[k]) <= ts
  }

  lemma TargetsOf(side: Side, b: Held)
    ensures Targets(Of(side, b), {b.group}) && Of(side, b).Keys == Keys(b)
  {
  }

  lemma TargetsPlus(g: Graph, ts: set<Handle>, g': Graph, ts': set<Handle>)
    requires Targets(g, ts) && Targets(g', ts')
    ensures Targets(g + g', ts + ts')
  {
  }

  /** A group and graphs that refer elsewhere. */
  lemma Attach(g: Graph, others: Graph, ts: set<Handle>, side: Side, b: Held)
    requires Names(b) && Targets(others, ts) && ts !! b.members.Keys
    requires others.Keys !! Keys(b) && g == others + Of(side, b)
    ensures Attached(g, others, side, b)
    ensures b.group !in ts ==> Unreferenced(others, b.group)
  {
  }

  lemma TwoGroupsApart(r: Held, o: Held)
    requires Names(r) && Names(o) && Keys(r) !! Keys(o)
    ensures Attached(Of(Rpf, r) + Of(Out, o), Of(Out, o), Rpf, r) && Unreferenced(Of(Out, o), r.group)
    ensures Attached(Of(Out, o), map[], Out, o) && Unreferenced(map[], o.group)
  {
    TargetsOf(Rpf, r);
    TargetsOf(Out, o);
    assert Of(Rpf, r) + Of(Out, o) == Of(Out, o) + Of(Rpf, r);
    Attach(Of(Rpf, r) + Of(Out, o), Of(Out, o), {o.group}, Rpf, r);
    assert Of(Out, o) == map[] + Of(Out, o);
    Attach(Of(Out, o), map[], {}, Out, o);
  }

  /** Both groups of a route without entry go. */
  lemma TwoGroupsGo(log: seq<Call>, rest: Graph, r: Held, o: Held)
    requires Names(r) && Names(o) && Keys(r) !! Keys(o)
    requires Kept(ViewOf(log), rest, Of(Rpf, r) + Of(Out, o))
    ensures var log' := log + CleanupCalls(Rpf, r.group, r.list) + CleanupCalls(Out, o.group, o.list);
            Kept(ViewOf(log'), rest, map[]) && HasTear(log') == HasTear(log)
  {
    TwoGroupsApart(r, o);
    CleanupKeeps(log, rest, Of(Rpf, r) + Of(Out, o), Of(Out, o), Rpf, r);
    CleanupKeeps(log + CleanupCalls(Rpf, r.group, r.list), rest, Of(Out, o), map[], Out, o);
  }

  lemma Swap(a: Graph, b: Graph, c: Graph)
    requires b.Keys !! c.Keys
    ensures a + b + c == a + c + b
  {
  }

  lemma PullOld(e: Graph, r: Graph, o: Graph, o': Graph, r': Graph)
    requires e.Keys !! r.Keys !! o.Keys !! o'.Keys !! r'.Keys
    ensures e + r + o + o' + r' == (e + r + o' + r') + o
    ensures e + r + o' + r' == (e + r' + o') + r
  {
    Swap(e + r, o, o');
    Swap(e + r + o', o, r');
    Swap(e, r, o');
    Swap(e + o', r, r');
    Swap(e, o', r');
  }

  lemma BusyWithOld(obj: Handle, r: Held, o: Held, o': Held, r': Held)
    requires Apart4(obj, r, o, o', r')
    ensures BusyGraph(obj, Entry(r'.group, o'.group), r, o, o', r') == RouteGraph(obj, r', o') + Of(Rpf, r) + Of(Out, o)
  {
    TargetsOf(Rpf, r);
    TargetsOf(Out, o);
    TargetsOf(Out, o');
    TargetsOf(Rpf, r');
    PullOld(Alone(obj, Entry(r'.group, o'.group)), Of(Rpf, r), Of(Out, o), Of(Out, o'), Of(Rpf, r'));
  }

  /** What an entry with two groups refers to. */
  lemma ThreeTargets(obj: Handle, e: Obj, r: Held, o: Held)
    ensures var g := Alone(obj, e) + Of(Rpf, r) + Of(Out, o);
            && Targets(g, Refs(e) + {r.group} + {o.group})
            && g.Keys == {obj} + Keys(r) + Keys(o)
  {
    TargetsOf(Rpf, r);
    TargetsOf(Out, o);
    TargetsPlus(Alone(obj, e), Refs(e), Of(Rpf, r), {r.group});
    TargetsPlus(Alone(obj, e) + Of(Rpf, r), Refs(e) + {r.group}, Of(Out, o), {o.group});
  }

  /** Handles of two disjoint groups differ. */
  lemma GroupsDiffer(a: Held, b: Held)
    requires Keys(a) !! Keys(b)
    ensures a.group != b.group && a.group !in b.members
  {
    assert a.group in Keys(a);
  }

  lemma OldRpfApart(obj: Handle, r: Held, o: Held, o': Held, r': Held)
    requires Apart4(obj, r, o, o', r')
    ensures var route := RouteGraph(obj, r', o');
            && Attached(route + Of(Rpf, r), route, Rpf, r)
            && Unreferenced(route, r.group)
  {
    ThreeTargets(obj, Entry(r'.group, o'.group), r', o');
    GroupsDiffer(r', r);
    GroupsDiffer(o', r);
    var route := RouteGraph(obj, r', o');
    Attach(route + Of(Rpf, r), route, {r'.group, o'.group} + {r'.group} + {o'.group}, Rpf, r);
  }

  lemma OldOutApart(obj: Handle, r: Held, o: Held, o': Held, r': Held)
    requires Apart4(obj, r, o, o', r')
    ensures var without := RouteGraph(obj, r', o') + Of(Rpf, r);
            && Attached(without + Of(Out, o), without, Out, o)
            && Unreferenced(without, o.group)
  {
    ThreeTargets(obj, Entry(r'.group, o'.group), r', o');
    TargetsOf(Rpf, r);
    GroupsDiffer(r', o);
    GroupsDiffer(o', o);
    GroupsDiffer(r, o);
    var route, ts := RouteGraph(obj, r', o'), {r'.group, o'.group} + {r'.group} + {o'.group};
    TargetsPlus(route, ts, Of(Rpf, r), {r.group});
    Attach(route + Of(Rpf, r) + Of(Out, o), route + Of(Rpf, r), ts + {r.group}, Out, o);
  }

  /** The old groups go once the entry points at the new ones. */
  lemma OldGroupsGo(log: seq<Call>, rest: Graph, obj: Handle, r: Held, o: Held, o': Held, r': Held)
    requires Apart4(obj, r, o, o', r')
    requires Kept(ViewOf(log), rest, BusyGraph(obj, Entry(r'.group, o'.group), r, o, o', r'))
    ensures var log' := log + CleanupCalls(Out, o.group, o.list) + CleanupCalls(Rpf, r.group, r.list);
            Kept(ViewOf(log'), rest, RouteGraph(obj, r', o')) && HasTear(log') == HasTear(log)
  {
    var route := RouteGraph(obj, r', o');
    BusyWithOld(obj, r, o, o', r');
    OldOutApart(obj, r, o, o', r');
    CleanupKeeps(log, rest, route + Of(Rpf, r) + Of(Out, o), route + Of(Rpf, r), Out, o);
    OldRpfApart(obj, r, o, o', r');
    CleanupKeeps(log + CleanupCalls(Out, o.group, o.list), rest, route + Of(Rpf, r), route, Rpf, r);
  }

  lemma NewOutApart(obj: Handle, e: Obj, r: Held, o: Held, o': Held, r': Held)
    requires Apart4(obj, r, o, o', r')
    requires e == Entry(r.group, o.group) || e == Entry(r.group, o'.group)
    ensures var base := Alone(obj, e) + Of(Rpf, r) + Of(Out, o);
            && Attached(base + Of(Out, o'), base, Out, o')
            && (Unreferenced(base, o'.group) <==> e.out == o.group)
  {
    ThreeTargets(obj, e, r, o);
    GroupsDiffer(r, o');
    GroupsDiffer(o, o');
    var base, ts := Alone(obj, e) + Of(Rpf, r) + Of(Out, o), Refs(e) + {r.group} + {o.group};
    assert ts !! o'.members.Keys;
    Attach(base + Of(Out, o'), base, ts, Out, o');
    if e.out != o.group {
      EntryRefers(obj, e, r, o);
    }
  }

  lemma EntryRefers(obj: Handle, e: Obj, r: Held, o: Held)
    requires {obj} !! Keys(r) !! Keys(o) && e.Entry?
    ensures !Unreferenced(Alone(obj, e) + Of(Rpf, r) + Of(Out, o), e.out)
  {
    TargetsOf(Rpf, r);
    TargetsOf(Out, o);
    assert (Alone(obj, e) + Of(Rpf, r) + Of(Out, o))[obj] == e;
  }

  lemma NewRpfApart(obj: Handle, e: Obj, r: Held, o: Held, o': Held, r': Held)
    requires Apart4(obj, r, o, o', r')
    requires e == Entry(r.group, o.group) || e == Entry(r.group, o'.group)
    ensures var mid := Alone(obj, e) + Of(Rpf, r) + Of(Out, o) + Of(Out, o');
            && Attached(mid + Of(Rpf, r'), mid, Rpf, r')
            && Unreferenced(mid, r'.group)
  {
    ThreeTargets(obj, e, r, o);
    TargetsOf(Out, o');
    GroupsDiffer(r, r');
    GroupsDiffer(o, r');
    GroupsDiffer(o', r');
    var base, ts := Alone(obj, e) + Of(Rpf, r) + Of(Out, o), Refs(e) + {r.group} + {o.group};
    TargetsPlus(base, ts, Of(Out, o'), {o'.group});
    Attach(base + Of(Out, o') + Of(Rpf, r'), base + Of(Out, o'), ts + {o'.group}, Rpf, r');
  }

  /** The new groups go again. That keeps the promises exactly when the entry does not yet
      point at the new output group. */
  lemma NewGroupsGo(log: seq<Call>, rest: Graph, obj: Handle, e: Obj, r: Held, o: Held, o': Held, r': Held)
    requires Apart4(obj, r, o, o', r')
    requires e == Entry(r.group, o.group) || e == Entry(r.group, o'.group)
    requires Kept(ViewOf(log), rest, BusyGraph(obj, e, r, o, o', r'))
    ensures var log' := log + CleanupCalls(Rpf, r'.group, r'.list) + CleanupCalls(Out, o'.group, o'.list);
            && HasTear(log') == HasTear(log)
            && (e.out == o.group ==> Kept(ViewOf(log'), rest, RouteGraph(obj, r, o)))
            && (e.out != o.group ==> !Honours(log'))
  {
    NewRpfApart(obj, e, r, o, o', r');
    NewOutApart(obj, e, r, o, o', r');
    var base := Alone(obj, e) + Of(Rpf, r) + Of(Out, o);
    CleanupKeeps(log, rest, BusyGraph(obj, e, r, o, o', r'), base + Of(Out, o'), Rpf, r');
    CleanupKeeps(log + CleanupCalls(Rpf, r'.group, r'.list), rest, base + Of(Out, o'), base, Out, o');
  }

  // ----- entries -----

  /** A group that was built beside `mine`, with the list that names its members. */
  lemma BuiltIsHeld(mine: Graph, group: Handle, members: map<Handle, Handle>, l: List, ports: seq<Handle>)
    requires Beside(mine, group, members) && Sized(l) && Carries(members, Listed(l), ports)
    ensures Names(Held(group, members, l)) && mine.Keys !! Keys(Held(group, members, l))
  {
  }

  lemma OneListed(l: List, made: seq<Handle>)
    requires FirstSlotOnly(l, made, 1) && |made| == 1
    ensures Listed(l) == made
  {
    assert Listed(l)[0] == made[0];
  }

  lemma Insert(a: Graph, b: Graph, h: Handle, e: Obj)
    requires h !in a && h !in b
    ensures (a + b)[h := e] == Alone(h, e) + a + b
  {
  }

  lemma GroupsLive(r: Held, o: Held)
    requires Names(r) && Names(o) && Keys(r) !! Keys(o)
    ensures var g := Of(Rpf, r) + Of(Out, o);
            RefsLive(g, Entry(r.group, o.group)) && g.Keys == Keys(r) + Keys(o)
  {
    TargetsOf(Rpf, r);
    TargetsOf(Out, o);
    GroupsDiffer(r, o);
  }

  lemma EntryJoins(log: seq<Call>, rest: Graph, r: Held, o: Held, key: Key, h: Handle)
    requires Names(r) && Names(o) && Keys(r) !! Keys(o)
    requires Kept(ViewOf(log), rest, Of(Rpf, r) + Of(Out, o)) && h != 0 && h !in After(log)
    ensures var log' := log + [Created(Entry(r.group, o.group), key, h)];
            && Apart2(h, r, o) && HasTear(log') == HasTear(log)
            && Kept(ViewOf(log'), rest, RouteGraph(h, r, o))
  {
    var e, g := Entry(r.group, o.group), Of(Rpf, r) + Of(Out, o);
    GroupsLive(r, o);
    ViewStep(log, Created(e, key, h));
    CreateKeeps(ViewOf(log), rest, g, e, key, h);
    assert h !in g;
    Insert(Of(Rpf, r), Of(Out, o), h, e);
  }

  lemma EntryRefused(log: seq<Call>, rest: Graph, r: Held, o: Held, key: Key)
    requires Names(r) && Names(o) && Keys(r) !! Keys(o)
    requires Kept(ViewOf(log), rest, Of(Rpf, r) + Of(Out, o))
    ensures var log' := log + [Refused(Entry(r.group, o.group), key)];
            HasTear(log') == HasTear(log) && Kept(ViewOf(log'), rest, Of(Rpf, r) + Of(Out, o))
  {
    var e, g := Entry(r.group, o.group), Of(Rpf, r) + Of(Out, o);
    GroupsLive(r, o);
    ViewStep(log, Refused(e, key));
    RefuseKeeps(ViewOf(log), rest, g, e, key);
  }

  /** Both groups stand, without an entry. */
  ghost predicate TwoGroups(log: seq<Call>, rest: Graph, r: Held, o: Held) {
    && Names(r) && Names(o) && Keys(r) !! Keys(o)
    && Kept(ViewOf(log), rest, Of(Rpf, r) + Of(Out, o))
  }

  lemma EntryFails(log: seq<Call>, rest: Graph, r: Held, o: Held, key: Key)
    requires TwoGroups(log, rest, r, o)
    ensures var log' := log + [Refused(Entry(r.group, o.group), key)] + CleanupCalls(Rpf, r.group, r.list)
                        + CleanupCalls(Out, o.group, o.list);
            HasTear(log') == HasTear(log) && Kept(ViewOf(log'), rest, map[])
  {
    EntryRefused(log, rest, r, o, key);
    TwoGroupsGo(log + [Refused(Entry(r.group, o.group), key)], rest, r, o);
  }

  lemma EntryGoes(log: seq<Call>, rest: Graph, obj: Handle, r: Held, o: Held)
    requires Apart2(obj, r, o) && Kept(ViewOf(log), rest, RouteGraph(obj, r, o))
    ensures var log' := log + [Deleted(Entry(0, 0), obj)];
            HasTear(log') == HasTear(log) && Kept(ViewOf(log'), rest, Of(Rpf, r) + Of(Out, o))
  {
    var g := RouteGraph(obj, r, o);
    TargetsOf(Rpf, r);
    TargetsOf(Out, o);
    ThreeTargets(obj, Entry(r.group, o.group), r, o);
    ViewStep(log, Deleted(Entry(0, 0), obj));
    assert Unreferenced(g, obj);
    DeleteKeeps(ViewOf(log), rest, g, Entry(0, 0), obj);
    assert g - {obj} == Of(Rpf, r) + Of(Out, o);
  }

  // ----- pointing an entry at another group -----

  lemma Repoint(obj: Handle, e: Obj, e': Obj, a: Graph, b: Graph, c: Graph, d: Graph)
    requires obj !in a && obj !in b && obj !in c && obj !in d
    ensures (Alone(obj, e) + a + b + c + d)[obj := e'] == Alone(obj, e') + a + b + c + d
  {
  }

  lemma Repoint3(obj: Handle, e: Obj, e': Obj, a: Graph, b: Graph, c: Graph)
    requires obj !in a && obj !in b && obj !in c
    ensures (Alone(obj, e) + a + b + c)[obj := e'] == Alone(obj, e') + a + b + c
  {
  }

  ghost predicate EntryWith(g: Graph, obj: Handle, e: Obj) {
    obj in g && g[obj] == e && e.Entry?
  }

  /** One attribute of the entry is set; the plugin may refuse. */
  lemma PointKeeps(log: seq<Call>, rest: Graph, g: Graph, obj: Handle, e: Obj, side: Side, h: Handle, ok: bool)
    requires Kept(ViewOf(log), rest, g) && EntryWith(g, obj, e) && IsGroup(g, h, side)
    ensures var log' := log + [Set(obj, side, h, ok)];
            && Kept(ViewOf(log'), rest, if ok then g[obj := Point(e, side, h)] else g)
            && HasTear(log') == (HasTear(log) || (EndsInOutSet(log) && side == Rpf && !ok))
            && EndsInOutSet(log') == (side == Out && ok)
  {
    ViewStep(log, Set(obj, side, h, ok));
    SetKeeps(ViewOf(log), rest, g, obj, side, h, ok);
  }

  lemma BusyPoints(obj: Handle, e: Obj, r: Held, o: Held, o': Held, r': Held)
    requires Apart4(obj, r, o, o', r') && e.Entry?
    ensures var g := BusyGraph(obj, e, r, o, o', r');
            && EntryWith(g, obj, e) && IsGroup(g, o'.group, Out) && IsGroup(g, r'.group, Rpf)
            && forall e' :: g[obj := e'] == BusyGraph(obj, e', r, o, o', r')
  {
    TargetsOf(Rpf, r);
    TargetsOf(Out, o);
    TargetsOf(Out, o');
    TargetsOf(Rpf, r');
    GroupsDiffer(o', r');
    forall e'
      ensures BusyGraph(obj, e, r, o, o', r')[obj := e'] == BusyGraph(obj, e', r, o, o', r')
    {
      Repoint(obj, e, e', Of(Rpf, r), Of(Out, o), Of(Out, o'), Of(Rpf, r'));
    }
  }

  // ----- replacing the reverse-path group alone -----

  function TrioGraph(obj: Handle, e: Obj, r: Held, o: Held, r': Held): Graph {
    Alone(obj, e) + Of(Rpf, r) + Of(Out, o) + Of(Rpf, r')
  }

  ghost predicate Apart3(obj: Handle, r: Held, o: Held, r': Held) {
    && Names(r) && Names(o) && Names(r') && obj != 0
    && {obj} !! Keys(r) !! Keys(o) !! Keys(r')
  }

  lemma TrioPoints(obj: Handle, e: Obj, r: Held, o: Held, r': Held)
    requires Apart3(obj, r, o, r') && e.Entry?
    ensures var g := TrioGraph(obj, e, r, o, r');
            && EntryWith(g, obj, e) && IsGroup(g, r'.group, Rpf)
            && forall e' :: g[obj := e'] == TrioGraph(obj, e', r, o, r')
  {
    TargetsOf(Rpf, r);
    TargetsOf(Out, o);
    TargetsOf(Rpf, r');
    forall e'
      ensures TrioGraph(obj, e, r, o, r')[obj := e'] == TrioGraph(obj, e', r, o, r')
    {
      Repoint3(obj, e, e', Of(Rpf, r), Of(Out, o), Of(Rpf, r'));
    }
  }

  lemma RpfApart(obj: Handle, r: Held, o: Held, other: Held)
    requires Apart3(obj, r, o, other)
    ensures var route := RouteGraph(obj, r, o);
            Attached(route + Of(Rpf, other), route, Rpf, other) && Unreferenced(route, other.group)
  {
    ThreeTargets(obj, Entry(r.group, o.group), r, o);
    GroupsDiffer(r, other);
    GroupsDiffer(o, other);
    var route := RouteGraph(obj, r, o);
    Attach(route + Of(Rpf, other), route, {r.group, o.group} + {r.group} + {o.group}, Rpf, other);
  }

  lemma TrioWithOld(obj: Handle, r: Held, o: Held, r': Held)
    requires Apart3(obj, r, o, r')
    ensures TrioGraph(obj, Entry(r'.group, o.group), r, o, r') == RouteGraph(obj, r', o) + Of(Rpf, r)
  {
    TargetsOf(Rpf, r);
    TargetsOf(Out, o);
    TargetsOf(Rpf, r');
    var e := Alone(obj, Entry(r'.group, o.group));
    Swap(e, Of(Rpf, r), Of(Out, o));
    Swap(e + Of(Out, o), Of(Rpf, r), Of(Rpf, r'));
    Swap(e, Of(Out, o), Of(Rpf, r'));
  }

  lemma OldRpfGoes(log: seq<Call>, rest: Graph, obj: Handle, r: Held, o: Held, r': Held)
    requires Apart3(obj, r, o, r')
    requires Kept(ViewOf(log), rest, TrioGraph(obj, Entry(r'.group, o.group), r, o, r'))
    ensures var log' := log + CleanupCalls(Rpf, r.group, r.list);
            Kept(ViewOf(log'), rest, RouteGraph(obj, r', o)) && HasTear(log') == HasTear(log)
  {
    TrioWithOld(obj, r, o, r');
    RpfApart(obj, r', o, r);
    CleanupKeeps(log, rest, RouteGraph(obj, r', o) + Of(Rpf, r), RouteGraph(obj, r', o), Rpf, r);
  }

  lemma NewRpfGoes(log: seq<Call>, rest: Graph, obj: Handle, r: Held, o: Held, r': Held)
    requires Apart3(obj, r, o, r')
    requires Kept(ViewOf(log), rest, TrioGraph(obj, Entry(r.group, o.group), r, o, r'))
    ensures var log' := log + CleanupCalls(Rpf, r'.group, r'.list);
            Kept(ViewOf(log'), rest, RouteGraph(obj, r, o)) && HasTear(log') == HasTear(log)
  {
    RpfApart(obj, r, o, r');
    CleanupKeeps(log, rest, RouteGraph(obj, r, o) + Of(Rpf, r'), RouteGraph(obj, r, o), Rpf, r');
  }

  /** A new output group that was not needed after all. */
  lemma NewOutGoes(log: seq<Call>, rest: Graph, obj: Handle, r: Held, o: Held, o': Held)
    requires Apart2(obj, r, o) && Names(o') && RouteGraph(obj, r, o).Keys !! Keys(o')
    requires Kept(ViewOf(log), rest, RouteGraph(obj, r, o) + Of(Out, o'))
    ensures var log' := log + CleanupCalls(Out, o'.group, o'.list);
            Kept(ViewOf(log'), rest, RouteGraph(obj, r, o)) && HasTear(log') == HasTear(log)
  {
    ThreeTargets(obj, Entry(r.group, o.group), r, o);
    GroupsDiffer(r, o');
    GroupsDiffer(o, o');
    var route := RouteGraph(obj, r, o);
    Attach(route + Of(Out, o'), route, {r.group, o.group} + {r.group} + {o.group}, Out, o');
    CleanupKeeps(log, rest, route + Of(Out, o'), route, Out, o');
  }

  // ----- the ways an update can end, as logs -----

  /** A route in order: every promise kept, no torn entry, its objects exactly these. */
  ghost predicate Route(log: seq<Call>, rest: Graph, obj: Handle, r: Held, o: Held) {
    && Apart2(obj, r, o) && !HasTear(log)
    && Kept(ViewOf(log), rest, RouteGraph(obj, r, o))
  }

  /** The same with a new output group and a new reverse-path group beside it. */
  ghost predicate Busy(log: seq<Call>, rest: Graph, obj: Handle, r: Held, o: Held, o': Held, r': Held) {
    && Apart4(obj, r, o, o', r') && !HasTear(log)
    && Kept(ViewOf(log), rest, BusyGraph(obj, Entry(r.group, o.group), r, o, o', r'))
  }

  /** The same with a new output group beside it. */
  ghost predicate OneNew(log: seq<Call>, rest: Graph, obj: Handle, r: Held, o: Held, o': Held) {
    && Apart2(obj, r, o) && Names(o') && RouteGraph(obj, r, o).Keys !! Keys(o') && !HasTear(log)
    && Kept(ViewOf(log), rest, RouteGraph(obj, r, o) + Of(Out, o'))
  }

  /** Whatever was tried beside a route is undone. */
  lemma StillRoute(log: seq<Call>, log': seq<Call>, rest: Graph, obj: Handle, r: Held, o: Held)
    requires Route(log, rest, obj, r, o)
    ensures Kept(ViewOf(log), rest, RouteGraph(obj, r, o))
    ensures Undone(log, log', rest, RouteGraph(obj, r, o)) ==> Route(log', rest, obj, r, o) && !HasTear(log')
  {
  }

  lemma OutBuilt(
    log: seq<Call>, log': seq<Call>, rest: Graph, obj: Handle, r: Held, o: Held, o': Held, ports: seq<Handle>)
    requires Route(log, rest, obj, r, o) && Built(log, log', rest, RouteGraph(obj, r, o), Out, o'.group, o'.members)
    requires Sized(o'.list) && Carries(o'.members, Listed(o'.list), ports)
    ensures OneNew(log', rest, obj, r, o, o')
    ensures Kept(ViewOf(log'), rest, RouteGraph(obj, r, o) + Of(Out, o'))
  {
    BuiltIsHeld(RouteGraph(obj, r, o), o'.group, o'.members, o'.list, ports);
  }

  lemma BothBuilt(log: seq<Call>, log': seq<Call>, rest: Graph, obj: Handle, r: Held, o: Held, o': Held, r': Held)
    requires OneNew(log, rest, obj, r, o, o') && Names(r')
    requires (RouteGraph(obj, r, o) + Of(Out, o')).Keys !! Keys(r')
    requires Built(log, log', rest, RouteGraph(obj, r, o) + Of(Out, o'), Rpf, r'.group, r'.members)
    ensures Busy(log', rest, obj, r, o, o', r')
  {
    ThreeTargets(obj, Entry(r.group, o.group), r, o);
    TargetsOf(Out, o');
  }

  lemma NewOutUndone(log: seq<Call>, log': seq<Call>, rest: Graph, obj: Handle, r: Held, o: Held, o': Held)
    requires OneNew(log, rest, obj, r, o, o') && Undone(log, log', rest, RouteGraph(obj, r, o) + Of(Out, o'))
    ensures var log2 := log' + CleanupCalls(Out, o'.group, o'.list);
            Route(log2, rest, obj, r, o) && !HasTear(log2)
  {
    NewOutGoes(log', rest, obj, r, o, o');
  }

  lemma RpfBuilt(log: seq<Call>, log': seq<Call>, rest: Graph, obj: Handle, r: Held, o: Held, r': Held)
    requires Route(log, rest, obj, r, o) && Names(r') && RouteGraph(obj, r, o).Keys !! Keys(r')
    requires Built(log, log', rest, RouteGraph(obj, r, o), Rpf, r'.group, r'.members) && !EndsInOutSet(log')
    ensures Route(log' + [Set(obj, Rpf, r'.group, true)] + CleanupCalls(Rpf, r.group, r.list), rest, obj, r', o)
    ensures Route(log' + [Set(obj, Rpf, r'.group, false)] + CleanupCalls(Rpf, r'.group, r'.list), rest, obj, r, o)
  {
    ThreeTargets(obj, Entry(r.group, o.group), r, o);
    RpfSet(log', rest, obj, r, o, r', true);
    RpfSet(log', rest, obj, r, o, r', false);
  }

  lemma OutRefused(log: seq<Call>, rest: Graph, obj: Handle, r: Held, o: Held, o': Held, r': Held)
    requires Busy(log, rest, obj, r, o, o', r')
    ensures var log' := log + [Set(obj, Out, o'.group, false)]
                        + CleanupCalls(Rpf, r'.group, r'.list) + CleanupCalls(Out, o'.group, o'.list);
            Route(log', rest, obj, r, o) && !HasTear(log')
  {
    var e := Entry(r.group, o.group);
    BusyPoints(obj, e, r, o, o', r');
    PointKeeps(log, rest, BusyGraph(obj, e, r, o, o', r'), obj, e, Out, o'.group, false);
    NewGroupsGo(log + [Set(obj, Out, o'.group, false)], rest, obj, e, r, o, o', r');
  }

  lemma OutTaken(log: seq<Call>, rest: Graph, obj: Handle, r: Held, o: Held, o': Held, r': Held)
    requires Busy(log, rest, obj, r, o, o', r')
    ensures var log' := log + [Set(obj, Out, o'.group, true)];
            && Kept(ViewOf(log'), rest, BusyGraph(obj, Entry(r.group, o'.group), r, o, o', r'))
            && !HasTear(log') && EndsInOutSet(log')
  {
    var e := Entry(r.group, o.group);
    BusyPoints(obj, e, r, o, o', r');
    PointKeeps(log, rest, BusyGraph(obj, e, r, o, o', r'), obj, e, Out, o'.group, true);
  }

  /** The tear: the output group was taken and the reverse-path group refused. The clean-up
      that follows deletes the output group the entry now points at. */
  lemma Torn(log: seq<Call>, rest: Graph, obj: Handle, r: Held, o: Held, o': Held, r': Held)
    requires Busy(log, rest, obj, r, o, o', r')
    ensures var log' := log + [Set(obj, Out, o'.group, true)] + [Set(obj, Rpf, r'.group, false)]
                        + CleanupCalls(Rpf, r'.group, r'.list) + CleanupCalls(Out, o'.group, o'.list);
            HasTear(log') && !Honours(log')
  {
    OutTaken(log, rest, obj, r, o, o', r');
    var e, log1 := Entry(r.group, o'.group), log + [Set(obj, Out, o'.group, true)];
    BusyPoints(obj, e, r, o, o', r');
    PointKeeps(log1, rest, BusyGraph(obj, e, r, o, o', r'), obj, e, Rpf, r'.group, false);
    GroupsDiffer(o, o');
    NewGroupsGo(log1 + [Set(obj, Rpf, r'.group, false)], rest, obj, e, r, o, o', r');
  }

  // ----- a tear -----

  /** A group with one member. */
  function One(g: Handle, h: Handle, port: Handle): Held {
    Held(g, map[h := port], List(1, [h]))
  }

  function Calls(side: Side, g: Handle, h: Handle, port: Handle): seq<Call> {
    [Created(Group(side), NoKey, g)] + [Created(Member(side, g, port), NoKey, h)]
  }

  lemma OneNames(g: Handle, h: Handle, port: Handle)
    requires g != 0 && h != 0 && g != h
    ensures Names(One(g, h, port)) && Keys(One(g, h, port)) == {g, h}
  {
    assert Listed(List(1, [h])) == [h];
  }

  lemma OneBuilt(log: seq<Call>, mine: Graph, side: Side, g: Handle, h: Handle, port: Handle)
    requires Kept(ViewOf(log), map[], mine) && !HasTear(log)
    requires g != 0 && h != 0 && g != h && g !in mine && h !in mine
    ensures var log' := log + Calls(side, g, h, port);
            && Built(log, log', map[], mine, side, g, map[h := port])
            && Kept(ViewOf(log'), map[], mine + Of(side, One(g, h, port))) && !HasTear(log')
  {
    var log1 := log + [Created(Group(side), NoKey, g)];
    ViewStep(log, Created(Group(side), NoKey, g));
    GroupJoins(ViewOf(log), map[], mine, side, g);
    var v1 := ViewOf(log1);
    assert h !in v1.live;
    ViewStep(log1, Created(Member(side, g, port), NoKey, h));
    MemberJoins(v1, map[], mine, side, g, map[], h, port);
    assert log + Calls(side, g, h, port) == log1 + [Created(Member(side, g, port), NoKey, h)];
    assert map[][h := port] == map[h := port];
  }

  /** The calls for a new route with one interface each way, and for an update of it. */
  const ROUTE_MADE: seq<Call> :=
    Calls(Rpf, 1, 2, 21) + Calls(Out, 3, 4, 22) + [Created(Entry(1, 3), Key(0, 1, 2), 5)]
  const UPDATE_BEGUN: seq<Call> := ROUTE_MADE + Calls(Out, 6, 7, 23) + Calls(Rpf, 8, 9, 21)

  lemma RouteMade()
    ensures Route(ROUTE_MADE, map[], 5, One(1, 2, 21), One(3, 4, 22))
  {
    var r, o := One(1, 2, 21), One(3, 4, 22);
    OneNames(1, 2, 21);
    OneNames(3, 4, 22);
    TargetsOf(Rpf, r);
    TargetsOf(Out, o);
    NothingCalled();
    assert [] + Calls(Rpf, 1, 2, 21) == Calls(Rpf, 1, 2, 21) && map[] + Of(Rpf, r) == Of(Rpf, r);
    hide ViewOf, Kept, HasTear, Of, Names, Keys;
    OneBuilt([], map[], Rpf, 1, 2, 21);
    OneBuilt(Calls(Rpf, 1, 2, 21), Of(Rpf, r), Out, 3, 4, 22);
    var log := Calls(Rpf, 1, 2, 21) + Calls(Out, 3, 4, 22);
    KeptLive(log, Of(Rpf, r) + Of(Out, o), 5);
    EntryJoins(log, map[], r, o, Key(0, 1, 2), 5);
  }

  lemma NothingCalled()
    ensures Kept(ViewOf([]), map[], map[]) && !HasTear([])
  {
  }

  lemma KeptLive(log: seq<Call>, mine: Graph, h: Handle)
    requires Kept(ViewOf(log), map[], mine)
    ensures h !in mine ==> h !in After(log)
  {
  }

  lemma OutMade()
    ensures OneNew(ROUTE_MADE + Calls(Out, 6, 7, 23), map[], 5, One(1, 2, 21), One(3, 4, 22), One(6, 7, 23))
  {
    RouteMade();
    MadeKeys();
    OneCarries(6, 7, 23);
    hide Route, OneNew, Built, Kept, HasTear, ViewOf, Names, Keys, RouteGraph, Calls, Of, Carries;
    var mine := RouteGraph(5, One(1, 2, 21), One(3, 4, 22));
    StillRoute(ROUTE_MADE, ROUTE_MADE, map[], 5, One(1, 2, 21), One(3, 4, 22));
    OneBuilt(ROUTE_MADE, mine, Out, 6, 7, 23);
    OutBuilt(ROUTE_MADE, ROUTE_MADE + Calls(Out, 6, 7, 23), map[], 5,
             One(1, 2, 21), One(3, 4, 22), One(6, 7, 23), [23]);
  }

  lemma MadeKeys()
    ensures var mine := RouteGraph(5, One(1, 2, 21), One(3, 4, 22));
            && mine.Keys == {1, 2, 3, 4, 5}
            && (mine + Of(Out, One(6, 7, 23))).Keys == {1, 2, 3, 4, 5, 6, 7}
  {
    OneNames(1, 2, 21);
    OneNames(3, 4, 22);
    OneNames(6, 7, 23);
    ThreeTargets(5, Entry(1, 3), One(1, 2, 21), One(3, 4, 22));
    TargetsOf(Out, One(6, 7, 23));
  }

  lemma OneCarries(g: Handle, h: Handle, port: Handle)
    requires g != 0 && h != 0 && g != h
    ensures var b := One(g, h, port); Sized(b.list) && Carries(b.members, Listed(b.list), [port])
  {
    assert Listed(List(1, [h])) == [h];
  }

  lemma RpfMade(log: seq<Call>, obj: Handle, r: Held, o: Held, o': Held, g: Handle, h: Handle, port: Handle)
    requires OneNew(log, map[], obj, r, o, o')
    requires {g, h} !! (RouteGraph(obj, r, o) + Of(Out, o')).Keys && g != 0 && h != 0 && g != h
    ensures Busy(log + Calls(Rpf, g, h, port), map[], obj, r, o, o', One(g, h, port))
  {
    OneNames(g, h, port);
    assert Kept(ViewOf(log), map[], RouteGraph(obj, r, o) + Of(Out, o')) && !HasTear(log);
    hide OneNew, Busy, Built, HasTear, ViewOf, Names, Keys, RouteGraph, Calls, Of, Kept;
    OneBuilt(log, RouteGraph(obj, r, o) + Of(Out, o'), Rpf, g, h, port);
    BothBuilt(log, log + Calls(Rpf, g, h, port), map[], obj, r, o, o', One(g, h, port));
  }

  lemma UpdateBegun()
    ensures Busy(UPDATE_BEGUN, map[], 5, One(1, 2, 21), One(3, 4, 22), One(6, 7, 23), One(8, 9, 21))
  {
    OutMade();
    MadeKeys();
    hide Busy, OneNew, RouteGraph, Calls, Of;
    RpfMade(ROUTE_MADE + Calls(Out, 6, 7, 23), 5, One(1, 2, 21), One(3, 4, 22), One(6, 7, 23), 8, 9, 21);
  }

  /** A concrete tear: the last of these calls deletes the output group the entry refers to. */
  lemma TearExample()
    ensures var log := UPDATE_BEGUN + [Set(5, Out, 6, true)] + [Set(5, Rpf, 8, false)]
                       + CleanupCalls(Rpf, 8, List(1, [9])) + CleanupCalls(Out, 6, List(1, [7]));
            Honours(UPDATE_BEGUN) && HasTear(log) && !Honours(log)
  {
    UpdateBegun();
    hide After, HasTear, CleanupCalls;
    Torn(UPDATE_BEGUN, map[], 5, One(1, 2, 21), One(3, 4, 22), One(6, 7, 23), One(8, 9, 21));
  }

  lemma BothTaken(log: seq<Call>, rest: Graph, obj: Handle, r: Held, o: Held, o': Held, r': Held)
    requires Busy(log, rest, obj, r, o, o', r')
    ensures Route(log + [Set(obj, Out, o'.group, true)] + [Set(obj, Rpf, r'.group, true)]
                  + CleanupCalls(Out, o.group, o.list) + CleanupCalls(Rpf, r.group, r.list), rest, obj, r', o')
  {
    OutTaken(log, rest, obj, r, o, o', r');
    var e, log1 := Entry(r.group, o'.group), log + [Set(obj, Out, o'.group, true)];
    BusyPoints(obj, e, r, o, o', r');
    PointKeeps(log1, rest, BusyGraph(obj, e, r, o, o', r'), obj, e, Rpf, r'.group, true);
    OldGroupsGo(log1 + [Set(obj, Rpf, r'.group, true)], rest, obj, r, o, o', r');
  }

  /** The reverse-path group alone is replaced, or not. */
  lemma RpfSet(log: seq<Call>, rest: Graph, obj: Handle, r: Held, o: Held, r': Held, ok: bool)
    requires Apart3(obj, r, o, r') && !HasTear(log) && !EndsInOutSet(log)
    requires Kept(ViewOf(log), rest, TrioGraph(obj, Entry(r.group, o.group), r, o, r'))
    ensures var log' := log + [Set(obj, Rpf, r'.group, ok)];
            if ok then Route(log' + CleanupCalls(Rpf, r.group, r.list), rest, obj, r', o)
            else Route(log' + CleanupCalls(Rpf, r'.group, r'.list), rest, obj, r, o)
  {
    var e := Entry(r.group, o.group);
    TrioPoints(obj, e, r, o, r');
    PointKeeps(log, rest, TrioGraph(obj, e, r, o, r'), obj, e, Rpf, r'.group, ok);
    if ok {
      OldRpfGoes(log + [Set(obj, Rpf, r'.group, ok)], rest, obj, r, o, r');
    } else {
      NewRpfGoes(log + [Set(obj, Rpf, r'.group, ok)], rest, obj, r, o, r');
    }
  }

  lemma RouteGoes(log: seq<Call>, rest: Graph, obj: Handle, r: Held, o: Held)
    requires Route(log, rest, obj, r, o)
    ensures var log' := log + [Deleted(Entry(0, 0), obj)] + CleanupCalls(Rpf, r.group, r.list)
                        + CleanupCalls(Out, o.group, o.list);
            !HasTear(log') && Kept(ViewOf(log'), rest, map[])
  {
    EntryGoes(log, rest, obj, r, o);
    TwoGroupsGo(log + [Deleted(Entry(0, 0), obj)], rest, r, o);
  }
}
