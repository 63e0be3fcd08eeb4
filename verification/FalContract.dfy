/**
 What the dataplane promises a FAL plugin, for the objects of a multicast route
 (`include/fal_plugin.h`, promises 1 to 3).

 The promises are about the sequence of calls a plugin sees, so they are stated on that
 sequence: replaying the calls gives the graph of live objects and of the handles held in
 their attributes, and every call must be legal in the graph the calls before it left.
 */
module FalContract {

  type Handle = nat  // 0 is the null handle

  /** A multicast entry names one reverse-path group and one output group. */
  datatype Side = Rpf | Out

  /** `port` is the router interface of a member. Interfaces are other objects' concern. */
  datatype Obj = Group(side: Side) | Member(side: Side, group: Handle, port: Handle) | Entry(rpf: Handle, out: Handle)

  type Graph = map<Handle, Obj>

  /** An entry is created under the network it is in, its source and its group; groups and
      members have no key. */
  datatype Key = NoKey | Key(vrf: nat, source: nat, group: nat)

  /** A call and its answer. `Refused` is a create that returned an error. */
  datatype Call =
    | Created(obj: Obj, key: Key, h: Handle)
    | Refused(obj: Obj, key: Key)
    | Set(entry: Handle, side: Side, group: Handle, ok: bool)
    | Deleted(was: Obj, h: Handle)

  function Refs(o: Obj): set<Handle> {
    match o
    case Group(_) => {}
    case Member(_, g, _) => {g}
    case Entry(r, o) => {r, o}
  }

  /** Same object type; the attributes may differ. */
  predicate SameType(a: Obj, b: Obj) {
    match a
    case Group(s) => b.Group? && b.side == s
    case Member(s, _, _) => b.Member? && b.side == s
    case Entry(_, _) => b.Entry?
  }

  predicate IsGroup(g: Graph, h: Handle, side: Side) {
    h in g && g[h] == Group(side)
  }

  /** Every handle in the attributes of `o` names a live object of the documented type. */
  predicate RefsLive(g: Graph, o: Obj) {
    match o
    case Group(_) => true
    case Member(s, h, _) => IsGroup(g, h, s)
    case Entry(r, o) => IsGroup(g, r, Rpf) && IsGroup(g, o, Out)
  }

  predicate Legal(g: Graph, c: Call) {
    match c
    case Created(o, _, _) => RefsLive(g, o)
    case Refused(o, _) => RefsLive(g, o)
    case Set(e, s, h, _) => e in g && g[e].Entry? && IsGroup(g, h, s)
    case Deleted(o, h) => h in g && SameType(g[h], o) && forall k :: k in g ==> h !in Refs(g[k])
  }

  function Point(o: Obj, side: Side, h: Handle): Obj
    requires o.Entry?
  {
    if side == Rpf then o.(rpf := h) else o.(out := h)
  }

  function Replay(g: Graph, c: Call): Graph {
    match c
    case Created(o, _, h) => g[h := o]
    case Refused(_, _) => g
    case Set(e, s, h, ok) => if ok && e in g && g[e].Entry? then g[e := Point(g[e], s, h)] else g
    case Deleted(_, h) => g - {h}
  }

  function After(log: seq<Call>): Graph {
    if log == [] then map[] else Replay(After(log[..|log| - 1]), log[|log| - 1])
  }

  /** The promises about handles held at every call. */
  predicate Honours(log: seq<Call>) {
    log == [] || (Honours(log[..|log| - 1]) && Legal(After(log[..|log| - 1]), log[|log| - 1]))
  }

  predicate EndsInOutSet(log: seq<Call>) {
    log != [] && var c := log[|log| - 1]; c.Set? && c.side == Out && c.ok
  }

  /** The plugin once took a new output group for an entry and then refused the
      reverse-path group that goes with it. */
  predicate HasTear(log: seq<Call>) {
    log != [] &&
    var before, c := log[..|log| - 1], log[|log| - 1];
    HasTear(before) || (EndsInOutSet(before) && c.Set? && c.side == Rpf && !c.ok)
  }

  lemma {:induction false} BreachIsForever(log: seq<Call>, more: seq<Call>)
    requires !Honours(log)
    ensures !Honours(log + more)
  {
    if more == [] {
      assert log + more == log;
    } else {
      BreachIsForever(log, more[..|more| - 1]);
      assert (log + more)[..|log + more| - 1] == log + more[..|more| - 1];
    }
  }

  lemma {:induction false} TearIsForever(log: seq<Call>, more: seq<Call>)
    requires HasTear(log)
    ensures HasTear(log + more)
  {
    if more == [] {
      assert log + more == log;
    } else {
      TearIsForever(log, more[..|more| - 1]);
      assert (log + more)[..|log + more| - 1] == log + more[..|more| - 1];
    }
  }

  /** All a later call depends on. */
  datatype View = View(honoured: bool, torn: bool, outSet: bool, live: Graph)

  function ViewOf(log: seq<Call>): View {
    View(Honours(log), HasTear(log), EndsInOutSet(log), After(log))
  }

  function Next(v: View, c: Call): View {
    View(v.honoured && Legal(v.live, c),
         v.torn || (v.outSet && c.Set? && c.side == Rpf && !c.ok),
         c.Set? && c.side == Out && c.ok,
         Replay(v.live, c))
  }

  lemma ViewStep(log: seq<Call>, c: Call)
    ensures ViewOf(log + [c]) == Next(ViewOf(log), c)
  {
    assert (log + [c])[..|log + [c]| - 1] == log;
  }

  function NextAll(v: View, calls: seq<Call>): View {
    if calls == [] then v else Next(NextAll(v, calls[..|calls| - 1]), calls[|calls| - 1])
  }

  lemma {:induction false} ViewSteps(log: seq<Call>, calls: seq<Call>)
    ensures ViewOf(log + calls) == NextAll(ViewOf(log), calls)
  {
    if calls == [] {
      assert log + calls == log;
    } else {
      var init, c := calls[..|calls| - 1], calls[|calls| - 1];
      ViewSteps(log, init);
      ViewStep(log + init, c);
      assert log + calls == log + init + [c];
    }
  }

  // ----- keys -----

  /** The keys of the live objects. */
  function KeysAfter(log: seq<Call>): map<Handle, Key> {
    if log == [] then map[]
    else
      var ks := KeysAfter(log[..|log| - 1]);
      match log[|log| - 1]
      case Created(_, key, h) => if key == NoKey then ks - {h} else ks[h := key]
      case Deleted(_, h) => ks - {h}
      case _ => ks
  }

  predicate KeyFree(ks: map<Handle, Key>, key: Key) {
    key == NoKey || forall h :: h in ks ==> ks[h] != key
  }

  /** The promise about keys held at every call: no create under the key of a live object. */
  predicate KeysFresh(log: seq<Call>) {
    log == [] ||
    var before, c := log[..|log| - 1], log[|log| - 1];
    KeysFresh(before) && (c.Created? || c.Refused? ==> KeyFree(KeysAfter(before), c.key))
  }

  /** All promises held at every call. */
  predicate Promises(log: seq<Call>) {
    Honours(log) && KeysFresh(log)
  }

  ghost predicate Within(ks: map<Handle, Key>, of: map<Handle, Key>) {
    forall h :: h in ks ==> h in of && of[h] == ks[h]
  }

  // ----- what every call looks like, and what the plugin answers -----

  /** A member is made for an interface that the plugin knows, an entry under a key. */
  predicate Proper(c: Call) {
    match c
    case Created(o, key, _) => (o.Member? ==> o.port != 0) && (o.Entry? ==> key != NoKey)
    case Refused(o, key) => (o.Member? ==> o.port != 0) && (o.Entry? ==> key != NoKey)
    case _ => true
  }

  ghost predicate AllProper(log: seq<Call>, log': seq<Call>) {
    forall k :: |log| <= k < |log'| ==> Proper(log'[k])
  }

  predicate Refusal(c: Call) {
    c.Refused? || (c.Set? && !c.ok)
  }

  /** The plugin refused nothing since. */
  ghost predicate Smooth(log: seq<Call>, log': seq<Call>) {
    forall k :: |log| <= k < |log'| ==> !Refusal(log'[k])
  }

  lemma SmoothStep(log: seq<Call>, c: Call)
    ensures Smooth(log, log + [c]) <==> !Refusal(c)
    ensures Smooth(log, log)
  {
    assert (log + [c])[|log|] == c;
  }

  lemma SmoothMore(a: seq<Call>, b: seq<Call>, c: seq<Call>)
    requires Grew(a, b) && Grew(b, c)
    ensures Smooth(a, c) <==> Smooth(a, b) && Smooth(b, c)
  {
    assert forall k :: |a| <= k < |b| ==> c[k] == b[k];
    hide Within, KeysAfter, KeysFresh, Refusal, Proper;
  }

  lemma SmoothBy(a: seq<Call>, b: seq<Call>, c: seq<Call>, key: Key, h: Handle)
    requires Grew(a, b) && GrewBy(b, c, key, h)
    ensures Smooth(a, c) <==> Smooth(a, b) && Smooth(b, c)
  {
    assert forall k :: |a| <= k < |b| ==> c[k] == b[k];
    hide Within, KeysAfter, KeysFresh, Refusal, Proper;
  }

  /** More calls, none of which brings in a key. */
  ghost predicate Grew(log: seq<Call>, log': seq<Call>) {
    && log <= log' && AllProper(log, log')
    && Within(KeysAfter(log'), KeysAfter(log)) && (KeysFresh(log) ==> KeysFresh(log'))
  }

  /** More calls, of which one may have brought in an object `h` under `key`. */
  ghost predicate GrewBy(log: seq<Call>, log': seq<Call>, key: Key, h: Handle) {
    && log <= log' && (key != NoKey ==> AllProper(log, log'))
    && (forall x :: x in KeysAfter(log') ==>
          || (x in KeysAfter(log) && KeysAfter(log)[x] == KeysAfter(log')[x])
          || (x == h && h != 0 && KeysAfter(log')[x] == key))
    && (KeysFresh(log) && KeyFree(KeysAfter(log), key) ==> KeysFresh(log'))
  }

  lemma GrewStep(log: seq<Call>, c: Call)
    ensures Proper(c) && (c.Created? || c.Refused? ==> c.key == NoKey) ==> Grew(log, log + [c])
  {
    assert (log + [c])[..|log + [c]| - 1] == log;
  }

  lemma GrewSame(log: seq<Call>)
    ensures Grew(log, log) && forall key :: GrewBy(log, log, key, 0)
  {
    hide KeysAfter, KeysFresh;
  }

  lemma GrewByStep(log: seq<Call>, o: Obj, key: Key, h: Handle)
    requires o.Entry?
    ensures h != 0 ==> GrewBy(log, log + [Created(o, key, h)], key, h)
    ensures GrewBy(log, log + [Refused(o, key)], key, 0)
  {
    assert (log + [Created(o, key, h)])[..|log|] == log;
    assert (log + [Refused(o, key)])[..|log|] == log;
  }

  /** Calls that bring no key around one that may. */
  lemma GrewAround(a: seq<Call>, b: seq<Call>, c: seq<Call>, d: seq<Call>, key: Key, h: Handle)
    requires Grew(a, b) && GrewBy(b, c, key, h) && Grew(c, d)
    ensures GrewBy(a, d, key, h)
  {
    hide KeysAfter, KeysFresh, Proper;
  }

  lemma GrewMore(a: seq<Call>, b: seq<Call>, c: seq<Call>)
    requires Grew(a, b) && Grew(b, c)
    ensures Grew(a, c)
  {
    hide KeysAfter, KeysFresh, Proper;
  }

  // ----- one owner's part of the graph -----

  /** No object of `g` refers outside `g`. */
  predicate Closed(g: Graph) {
    forall h :: h in g ==> Refs(g[h]) <= g.Keys
  }

  predicate Unreferenced(g: Graph, h: Handle) {
    forall k :: k in g ==> h !in Refs(g[k])
  }

  /** The live objects are those of `rest` and those of `mine`, and neither refers to the other. */
  ghost predicate Split(live: Graph, rest: Graph, mine: Graph) {
    && rest.Keys !! mine.Keys
    && live == rest + mine
    && Closed(rest) && Closed(mine)
  }

  /** Every promise was kept so far, whatever the plugin answered. */
  ghost predicate Kept(v: View, rest: Graph, mine: Graph) {
    v.honoured && Split(v.live, rest, mine)
  }

  lemma CreateKeeps(v: View, rest: Graph, mine: Graph, o: Obj, key: Key, h: Handle)
    requires Kept(v, rest, mine) && h !in v.live && RefsLive(mine, o)
    ensures Kept(Next(v, Created(o, key, h)), rest, mine[h := o])
  {
  }

  lemma RefuseKeeps(v: View, rest: Graph, mine: Graph, o: Obj, key: Key)
    requires Kept(v, rest, mine) && RefsLive(mine, o)
    ensures Kept(Next(v, Refused(o, key)), rest, mine)
  {
  }

  lemma DeleteKeeps(v: View, rest: Graph, mine: Graph, o: Obj, h: Handle)
    requires Kept(v, rest, mine) && h in mine && SameType(mine[h], o)
    ensures Unreferenced(mine, h) ==> Kept(Next(v, Deleted(o, h)), rest, mine - {h})
    ensures Next(v, Deleted(o, h)).honoured <==> Unreferenced(mine, h)
  {
    if k :| k in mine && h in Refs(mine[k]) {
      assert v.live[k] == mine[k];
    } else {
      assert (rest + mine) - {h} == rest + (mine - {h});
    }
  }

  lemma SetKeeps(v: View, rest: Graph, mine: Graph, e: Handle, side: Side, h: Handle, ok: bool)
    requires Kept(v, rest, mine) && e in mine && mine[e].Entry? && IsGroup(mine, h, side)
    ensures Kept(Next(v, Set(e, side, h, ok)), rest, if ok then mine[e := Point(mine[e], side, h)] else mine)
  {
  }
}
