/** Every run of route calls, over any number of routes that share one plugin. */
module FalRuns {
  import opened FalContract
  import opened FalGroups
  import opened FalMroute
  import opened FalRouteGraph
  import opened FalRoutes

  // ----- a graph in parts -----

  ghost predicate Sub(part: Graph, g: Graph) {
    forall h :: h in part ==> h in g && g[h] == part[h]
  }

  ghost predicate Each(live: Graph, parts: seq<Graph>) {
    forall i :: 0 <= i < |parts| ==> Sub(parts[i], live) && Closed(parts[i])
  }

  ghost predicate Apart(parts: seq<Graph>) {
    forall i, j :: 0 <= i < j < |parts| ==> parts[i].Keys !! parts[j].Keys
  }

  ghost predicate Covered(live: Graph, parts: seq<Graph>) {
    forall h :: h in live ==> exists i :: 0 <= i < |parts| && h in parts[i]
  }

  /** Every live object is in exactly one part, and no part refers to another. */
  ghost predicate Partition(live: Graph, parts: seq<Graph>) {
    Each(live, parts) && Apart(parts) && Covered(live, parts)
  }

  lemma PartDisjoint(live: Graph, parts: seq<Graph>, i: int, j: int)
    requires Partition(live, parts) && 0 <= i < |parts| && 0 <= j < |parts| && i != j
    ensures parts[i].Keys !! parts[j].Keys
  {
  }

  lemma PartOf(live: Graph, parts: seq<Graph>, i: int)
    requires Partition(live, parts) && 0 <= i < |parts|
    ensures Sub(parts[i], live) && Closed(parts[i])
  {
  }

  lemma Owner(live: Graph, parts: seq<Graph>, h: Handle) returns (i: int)
    requires Partition(live, parts) && h in live
    ensures 0 <= i < |parts| && h in parts[i]
  {
    i :| 0 <= i < |parts| && h in parts[i];
  }

  /** One part against all the others. */
  lemma TakePart(live: Graph, parts: seq<Graph>, i: nat)
    requires Partition(live, parts) && i < |parts|
    ensures Split(live, live - parts[i].Keys, parts[i])
  {
    hide Partition;
    var rest := live - parts[i].Keys;
    PartOf(live, parts, i);
    assert live == rest + parts[i];
    forall h | h in rest
      ensures Refs(rest[h]) <= rest.Keys
    {
      OwnedRefs(live, parts, i, h);
    }
  }

  lemma OwnedRefs(live: Graph, parts: seq<Graph>, i: nat, h: Handle)
    requires Partition(live, parts) && i < |parts| && h in live && h !in parts[i]
    ensures Refs(live[h]) <= live.Keys - parts[i].Keys
  {
    hide Partition;
    var j := Owner(live, parts, h);
    PartOf(live, parts, j);
    PartDisjoint(live, parts, i, j);
  }

  lemma OtherPart(live: Graph, parts: seq<Graph>, i: nat, j: int)
    requires Partition(live, parts) && i < |parts| && 0 <= j < |parts| && j != i
    ensures Sub(parts[j], live - parts[i].Keys) && Closed(parts[j])
  {
    hide Partition;
    PartOf(live, parts, j);
    PartDisjoint(live, parts, i, j);
  }

  lemma PutPart(live: Graph, parts: seq<Graph>, i: nat, live': Graph, mine: Graph)
    requires Partition(live, parts) && i < |parts|
    requires Split(live', live - parts[i].Keys, mine)
    ensures Partition(live', parts[i := mine])
  {
    hide Partition, Split, Closed;
    var parts' := parts[i := mine];
    assert Each(live', parts') by {
      forall j | 0 <= j < |parts'|
        ensures Sub(parts'[j], live') && Closed(parts'[j])
      {
        PutSub(live, parts, i, live', mine, j);
      }
    }
    assert Apart(parts') by {
      forall a, b | 0 <= a < b < |parts'|
        ensures parts'[a].Keys !! parts'[b].Keys
      {
        PutDisjoint(live, parts, i, live', mine, a, b);
      }
    }
    assert Covered(live', parts') by {
      forall h | h in live'
        ensures exists j :: 0 <= j < |parts'| && h in parts'[j]
      {
        var j := PutOwner(live, parts, i, live', mine, h);
      }
    }
    InParts(live', parts');
  }

  lemma InParts(live: Graph, parts: seq<Graph>)
    requires Each(live, parts) && Apart(parts) && Covered(live, parts)
    ensures Partition(live, parts)
  {
    hide Each, Apart, Covered;
  }

  lemma PutSub(live: Graph, parts: seq<Graph>, i: nat, live': Graph, mine: Graph, j: int)
    requires Partition(live, parts) && i < |parts| && 0 <= j < |parts|
    requires Split(live', live - parts[i].Keys, mine)
    ensures Sub(parts[i := mine][j], live') && Closed(parts[i := mine][j])
  {
    hide Partition;
    if j != i {
      OtherPart(live, parts, i, j);
    }
  }

  lemma PutDisjoint(live: Graph, parts: seq<Graph>, i: nat, live': Graph, mine: Graph, a: int, b: int)
    requires Partition(live, parts) && i < |parts| && 0 <= a < b < |parts|
    requires Split(live', live - parts[i].Keys, mine)
    ensures parts[i := mine][a].Keys !! parts[i := mine][b].Keys
  {
    hide Partition;
    PartDisjoint(live, parts, a, b);
    OtherPart(live, parts, i, if a == i then b else a);
    if b != i {
      OtherPart(live, parts, i, b);
    }
  }

  lemma PutOwner(live: Graph, parts: seq<Graph>, i: nat, live': Graph, mine: Graph, h: Handle) returns (j: int)
    requires Partition(live, parts) && i < |parts| && h in live'
    requires Split(live', live - parts[i].Keys, mine)
    ensures 0 <= j < |parts| && h in parts[i := mine][j]
  {
    hide Partition;
    j := i;
    if h !in mine {
      j := Owner(live, parts, h);
    }
  }

  // ----- runs -----

  /** A call of the routing code about route `i`. `Params` is the caller recording the
      interfaces it last asked for. The plugin's answers are not part of a call. */
  datatype RouteCall =
    | New(i: nat, mfc: Mfc, iftable: seq<Vif>, l3: map<nat, Handle>, af: Family, mem: Memory)
    | Upd(i: nat, mfc: Mfc, iftable: seq<Vif>, l3: map<nat, Handle>, af: Family, mem: Memory)
    | Del(i: nat)
    | Params(i: nat, parent: nat, ifset: set<nat>)

  /** Every promise was kept, and the live objects are exactly those the routes record. */
  ghost predicate InOrder(p: Plugin, routes: seq<Mroute>, parts: seq<Graph>)
    reads p, routes
  {
    && Honours(p.log) && !HasTear(p.log)
    && |parts| == |routes|
    && (forall i :: 0 <= i < |routes| ==> routes[i].Shape() && routes[i].Mine() == parts[i])
    && Partition(After(p.log), parts)
  }

  predicate AllDistinct(routes: seq<Mroute>) {
    forall i, j :: 0 <= i < j < |routes| ==> routes[i] != routes[j]
  }

  ghost predicate AllSane(routes: seq<Mroute>)
    reads routes
  {
    forall i :: 0 <= i < |routes| ==> routes[i].Sane()
  }

  lemma RouteGood(p: Plugin, rt: Mroute, rest: Graph)
    requires rt.Shape() && Honours(p.log) && !HasTear(p.log) && Split(After(p.log), rest, rt.Mine())
    ensures Good(p, rt, rest)
  {
    hide Apart2, RouteGraph, Split, HasTear, Honours, After;
  }

  lemma GoodRoute(p: Plugin, rt: Mroute, rest: Graph)
    requires Good(p, rt, rest)
    ensures rt.Shape() && Honours(p.log) && !HasTear(p.log) && Split(After(p.log), rest, rt.Mine())
  {
    hide Apart2, RouteGraph, Split, HasTear, Honours, After;
  }

  // ----- keys -----

  /** Every live key is that of a route, held by the route's entry. */
  ghost predicate Owned(log: seq<Call>, objs: seq<Handle>, keys: seq<Key>) {
    && |objs| == |keys|
    && forall h :: h in KeysAfter(log) ==>
         h != 0 && exists i :: 0 <= i < |objs| && objs[i] == h && keys[i] == KeysAfter(log)[h]
  }

  predicate OneKeyEach(keys: seq<Key>) {
    forall i, j :: 0 <= i < j < |keys| ==> keys[i] != keys[j]
  }

  ghost function Objs(routes: seq<Mroute>): seq<Handle>
    reads routes
  {
    seq(|routes|, i requires 0 <= i < |routes| reads routes => routes[i].obj)
  }

  function KeysOf(routes: seq<Mroute>): seq<Key> {
    seq(|routes|, i requires 0 <= i < |routes| => routes[i].key)
  }

  /** The promise about keys was kept, every live key has its owner, and every call was proper. */
  ghost predicate Keyed(log: seq<Call>, objs: seq<Handle>, keys: seq<Key>) {
    KeysFresh(log) && Owned(log, objs, keys) && AllProper([], log)
  }

  /** Entries are made under keys, so a live entry has one. */
  lemma {:induction false} EntriesKeyed(log: seq<Call>, h: Handle)
    requires AllProper([], log) && h in After(log) && After(log)[h].Entry?
    ensures h in KeysAfter(log)
  {
    if log != [] {
      var before, c := log[..|log| - 1], log[|log| - 1];
      assert Proper(c);
      if !(c.Created? && c.h == h) {
        assert h in After(before) && After(before)[h].Entry?;
        EntriesKeyed(before, h);
      }
    }
  }

  /** The route's entry is live, under the route's own key. */
  ghost predicate LiveUnderKey(log: seq<Call>, rt: Mroute)
    reads rt
  {
    && rt.obj in After(log) && After(log)[rt.obj] == Entry(rt.rpf, rt.ol)
    && rt.obj in KeysAfter(log) && KeysAfter(log)[rt.obj] == rt.key
  }

  lemma EntryIsMine(rt: Mroute)
    requires rt.Shape() && rt.obj != 0
    ensures rt.obj in rt.Mine() && rt.Mine()[rt.obj] == Entry(rt.rpf, rt.ol)
  {
  }

  lemma RouteIsLive(p: Plugin, routes: seq<Mroute>, parts: seq<Graph>, i: nat)
    requires InOrder(p, routes, parts) && Keyed(p.log, Objs(routes), KeysOf(routes))
    requires i < |routes| && routes[i].obj != 0
    ensures LiveUnderKey(p.log, routes[i])
  {
    hide Partition, Honours, HasTear, Mroute.Mine, Mroute.Shape, After, KeysAfter, KeysFresh, Proper;
    var h := routes[i].obj;
    PartOf(After(p.log), parts, i);
    EntryIsMine(routes[i]);
    EntriesKeyed(p.log, h);
    var j :| 0 <= j < |routes| && Objs(routes)[j] == h && KeysOf(routes)[j] == KeysAfter(p.log)[h];
    if j != i {
      EntryIsMine(routes[j]);
      PartDisjoint(After(p.log), parts, i, j);
    }
  }

  lemma ProperMore(log: seq<Call>, log': seq<Call>)
    requires AllProper([], log) && log <= log' && AllProper(log, log')
    ensures AllProper([], log')
  {
    assert forall k :: 0 <= k < |log| ==> log'[k] == log[k];
    hide Proper;
  }

  lemma KeyedGrew(log: seq<Call>, log': seq<Call>, objs: seq<Handle>, keys: seq<Key>)
    requires Grew(log, log') && Keyed(log, objs, keys)
    ensures Keyed(log', objs, keys)
  {
    hide KeysAfter, KeysFresh, Proper;
    ProperMore(log, log');
  }

  lemma KeyedGone(log: seq<Call>, log': seq<Call>, objs: seq<Handle>, keys: seq<Key>, i: nat)
    requires Grew(log, log') && Keyed(log, objs, keys) && i < |objs|
    requires objs[i] != 0 ==> objs[i] !in KeysAfter(log')
    ensures Keyed(log', objs[i := 0], keys)
  {
    hide KeysAfter, KeysFresh, Proper;
    ProperMore(log, log');
    forall h | h in KeysAfter(log')
      ensures exists j :: 0 <= j < |objs| && objs[i := 0][j] == h && keys[j] == KeysAfter(log')[h]
    {
      var j :| 0 <= j < |objs| && objs[j] == h && keys[j] == KeysAfter(log)[h];
      assert objs[i := 0][j] == h;
    }
  }

  /** A route without an entry may create one: no live object has its key. */
  lemma KeyedNew(log: seq<Call>, log': seq<Call>, objs: seq<Handle>, keys: seq<Key>, i: nat, obj: Handle)
    requires Keyed(log, objs, keys) && OneKeyEach(keys) && i < |objs| && objs[i] == 0
    requires GrewBy(log, log', keys[i], obj) && keys[i] != NoKey
    ensures Keyed(log', objs[i := obj], keys)
  {
    hide KeysAfter, KeysFresh, Proper;
    ProperMore(log, log');
    forall h | h in KeysAfter(log)
      ensures KeysAfter(log)[h] != keys[i]
    {
      var j :| 0 <= j < |objs| && objs[j] == h && keys[j] == KeysAfter(log)[h];
      assert i != j;
    }
    forall h | h in KeysAfter(log')
      ensures h != 0 && exists j :: 0 <= j < |objs| && objs[i := obj][j] == h && keys[j] == KeysAfter(log')[h]
    {
      if h in KeysAfter(log) && KeysAfter(log)[h] == KeysAfter(log')[h] {
        var j :| 0 <= j < |objs| && objs[j] == h && keys[j] == KeysAfter(log)[h];
        assert objs[i := obj][j] == h;
      } else {
        assert objs[i := obj][i] == h;
      }
    }
  }

  method SetParams(p: Plugin, rt: Mroute, parent: nat, ifset: set<nat>, ghost rest: Graph)
    requires rt.Sane()
    modifies rt
    ensures rt.Sane() && rt.parent == parent && rt.ifset == ifset && rt.obj == old(rt.obj)
    ensures old(Good(p, rt, rest)) ==> Good(p, rt, rest)
  {
    hide Apart2, RouteGraph, Kept, Route, HasTear;
    rt.parent, rt.ifset := parent, ifset;
    assert rt.R() == old(rt.R()) && rt.O() == old(rt.O());
  }

  method Step(p: Plugin, routes: seq<Mroute>, c: RouteCall, ghost parts: seq<Graph>)
    returns (ret: int, ghost parts': seq<Graph>)
    requires AllDistinct(routes) && AllSane(routes) && c.i < |routes| && OneKeyEach(KeysOf(routes))
    modifies p, routes
    ensures old(p.log) <= p.log && AllSane(routes)
    ensures old(InOrder(p, routes, parts)) ==>
              if HasTear(p.log) then !Honours(p.log) else InOrder(p, routes, parts')
    ensures old(Keyed(p.log, Objs(routes), KeysOf(routes))) ==> Keyed(p.log, Objs(routes), KeysOf(routes))
    ensures forall j :: 0 <= j < |routes| && j != c.i ==> routes[j].obj == old(routes[j].obj)
    ensures EntryAfter(c, old(routes[c.i].obj), routes[c.i].obj, ret)
    ensures c.New? || c.Upd? ==>
              (ret == 0 <==> Succeeds(c, old(routes[c.i].obj), old(routes[c.i].parent), old(routes[c.i].ifset),
                                      old(p.log), p.log))
  {
    hide Partition, Split, Good, Mroute.Mine, Mroute.Shape, HasTear, Honours, After, Mroute.Sane, Keyed, Grew, GrewBy;
    var rt := routes[c.i];
    ghost var good, live := InOrder(p, routes, parts), After(p.log);
    parts' := parts;
    ghost var rest: Graph := map[];
    if good {
      rest := live - parts[c.i].Keys;
      TakePart(live, parts, c.i);
      RouteGood(p, rt, rest);
    }
    ret := Call(p, routes, c, rest);
    if good && Good(p, rt, rest) {
      GoodRoute(p, rt, rest);
      PutPart(live, parts, c.i, After(p.log), rt.Mine());
      parts' := parts[c.i := rt.Mine()];
    }
  }

  /** What a call does to a route's entry. */
  predicate EntryAfter(c: RouteCall, obj: Handle, obj': Handle, ret: int) {
    match c
    case New(_, mfc, _, _, _, _) =>
      if obj != 0 || mfc.parent == 0 || mfc.ifCount == 0 then obj' == obj else obj' != 0 <==> ret == 0
    case Upd(_, _, _, _, _, _) => obj' == obj
    case Del(_) => obj' == 0
    case Params(_, _, _) => obj' == obj
  }

  /** When making or updating a route succeeds. */
  ghost predicate Succeeds(c: RouteCall, obj: Handle, parent: nat, ifset: set<nat>, log: seq<Call>, log': seq<Call>)
    requires c.New? || c.Upd?
  {
    match c
    case New(_, mfc, _, l3, af, mem) =>
      || obj != 0 || mfc.parent == 0 || mfc.ifCount == 0
      || (Smooth(log, log') && RpfPossible(mfc, l3, mem) && OutPossible(af, mem))
    case Upd(_, mfc, _, l3, af, mem) =>
      || obj == 0 || (mfc.ifset == ifset && mfc.parent == parent)
      || (Smooth(log, log') && RpfPossible(mfc, l3, mem) && (mfc.ifset != ifset ==> OutPossible(af, mem)))
  }

  /** The call itself, and what it does to the keys. */
  method Call(p: Plugin, routes: seq<Mroute>, c: RouteCall, ghost rest: Graph) returns (ret: int)
    requires AllDistinct(routes) && AllSane(routes) && c.i < |routes| && OneKeyEach(KeysOf(routes))
    modifies p, routes[c.i]
    ensures old(p.log) <= p.log && routes[c.i].Sane()
    ensures old(Good(p, routes[c.i], rest)) ==>
              Good(p, routes[c.i], rest) || (HasTear(p.log) && !Honours(p.log))
    ensures old(Keyed(p.log, Objs(routes), KeysOf(routes))) ==> Keyed(p.log, Objs(routes), KeysOf(routes))
    ensures EntryAfter(c, old(routes[c.i].obj), routes[c.i].obj, ret)
    ensures c.New? || c.Upd? ==>
              (ret == 0 <==> Succeeds(c, old(routes[c.i].obj), old(routes[c.i].parent), old(routes[c.i].ifset),
                                      old(p.log), p.log))
  {
    hide Good, HasTear, Honours, Mroute.Sane, Keyed, KeysAfter, KeysFresh, OneKeyEach;
    var rt := routes[c.i];
    ghost var log0, objs, keys := p.log, Objs(routes), KeysOf(routes);
    ghost var keyed := Keyed(log0, objs, keys);
    match c {
      case New(_, mfc, iftable, l3, af, mem) =>
        ret := NewMroute(p, rt, mfc, iftable, l3, af, mem, rest);
        if keyed && old(rt.obj) == 0 {
          KeyedNew(log0, p.log, objs, keys, c.i, rt.obj);
        }
      case Upd(_, mfc, iftable, l3, af, mem) =>
        ret := UpdMroute(p, rt, mfc, iftable, l3, af, mem, rest);
        if keyed {
          KeyedGrew(log0, p.log, objs, keys);
        }
      case Del(_) =>
        ret := DelMroute(p, rt, rest);
        if keyed {
          KeyedGone(log0, p.log, objs, keys, c.i);
        }
      case Params(_, parent, ifset) =>
        SetParams(p, rt, parent, ifset, rest);
        ret := 0;
    }
    assert Objs(routes) == objs[c.i := rt.obj] && objs[c.i := objs[c.i]] == objs;
  }

  ghost predicate Blank(p: Plugin, routes: seq<Mroute>)
    reads p, routes
  {
    p.log == [] && forall i :: 0 <= i < |routes| ==> routes[i].obj == 0 && routes[i].Shape()
  }

  lemma BlankInOrder(p: Plugin, routes: seq<Mroute>)
    requires Blank(p, routes)
    ensures InOrder(p, routes, seq(|routes|, _ => map[])) && AllSane(routes)
  {
  }

  /** Route `i` was deleted and no call since could make it again. */
  predicate Gone(calls: seq<RouteCall>, i: nat) {
    calls != [] &&
    var before, c := calls[..|calls| - 1], calls[|calls| - 1];
    (c.Del? && c.i == i) || (Gone(before, i) && !(c.New? && c.i == i))
  }

  /** Safety over whole runs. From the start, over any calls about any routes, each with its own
      key, and any answers of the plugin, all promises are kept if and only if the plugin never
      tore an entry; and then the live objects are exactly those the routes record, each entry
      under its route's key. The promise about keys is kept in any case, no member is ever made
      for an interface the plugin does not know, and a deleted route has no entry. */
  method Run(p: Plugin, routes: seq<Mroute>, calls: seq<RouteCall>) returns (ghost parts: seq<Graph>)
    requires AllDistinct(routes) && Blank(p, routes) && OneKeyEach(KeysOf(routes))
    requires forall k :: 0 <= k < |calls| ==> calls[k].i < |routes|
    modifies p, routes
    ensures Promises(p.log) <==> !HasTear(p.log)
    ensures KeysFresh(p.log) && AllProper([], p.log)
    ensures Honours(p.log) ==> InOrder(p, routes, parts)
    ensures Honours(p.log) ==> forall i :: 0 <= i < |routes| && routes[i].obj != 0 ==> LiveUnderKey(p.log, routes[i])
    ensures forall i :: 0 <= i < |routes| && Gone(calls, i) ==> routes[i].obj == 0
    ensures Honours(p.log) && (forall i :: 0 <= i < |routes| ==> routes[i].obj == 0) ==> After(p.log) == map[]
  {
    parts := seq(|routes|, _ => map[]);
    BlankInOrder(p, routes);
    assert Keyed(p.log, Objs(routes), KeysOf(routes));
    var k := 0;
    while k < |calls|
      invariant 0 <= k <= |calls| && AllSane(routes)
      invariant if HasTear(p.log) then !Honours(p.log) else InOrder(p, routes, parts)
      invariant Keyed(p.log, Objs(routes), KeysOf(routes))
      invariant forall i :: 0 <= i < |routes| && Gone(calls[..k], i) ==> routes[i].obj == 0
    {
      hide Partition, Mroute.Mine, Mroute.Shape, HasTear, Honours, After, Mroute.Sane, Keyed, Succeeds;
      ghost var log0 := p.log;
      assert calls[..k + 1][..k] == calls[..k];
      var ret;
      ret, parts := Step(p, routes, calls[k], parts);
      assert p.log == log0 + p.log[|log0|..];
      if HasTear(log0) {
        BreachIsForever(log0, p.log[|log0|..]);
        TearIsForever(log0, p.log[|log0|..]);
      }
      k := k + 1;
    }
    assert calls[..k] == calls;
    assert KeysFresh(p.log) && AllProper([], p.log);
    if Honours(p.log) {
      hide HasTear, Honours, After, Mroute.Sane, Partition, Keyed, Gone, Mroute.Mine, Mroute.Shape, LiveUnderKey,
           KeysFresh, AllProper;
      RoutesAreLive(p, routes, parts);
      NoneIsLeft(p, routes, parts);
    }
  }

  lemma RoutesAreLive(p: Plugin, routes: seq<Mroute>, parts: seq<Graph>)
    requires InOrder(p, routes, parts) && Keyed(p.log, Objs(routes), KeysOf(routes))
    ensures forall i :: 0 <= i < |routes| && routes[i].obj != 0 ==> LiveUnderKey(p.log, routes[i])
  {
    hide InOrder, Keyed, LiveUnderKey;
    forall i | 0 <= i < |routes| && routes[i].obj != 0
      ensures LiveUnderKey(p.log, routes[i])
    {
      RouteIsLive(p, routes, parts, i);
    }
  }

  lemma NoneIsLeft(p: Plugin, routes: seq<Mroute>, parts: seq<Graph>)
    requires InOrder(p, routes, parts)
    ensures (forall i :: 0 <= i < |routes| ==> routes[i].obj == 0) ==> After(p.log) == map[]
  {
    if forall i :: 0 <= i < |routes| ==> routes[i].obj == 0 {
      hide HasTear, Honours, After, Each, Apart;
      assert Covered(After(p.log), parts);
      assert forall i :: 0 <= i < |parts| ==> parts[i] == map[];
      assert After(p.log) == map[];
    }
  }
}
