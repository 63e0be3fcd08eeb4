/** The table of loaded backends and the choice among them by declared capability, from
    src/fal.c and src/fal_capability.c. */
module Backends {
  import opened Options

  type Handler = nat

  const MAX := 4

  datatype Cap =
    Ipv4 | Ipv6 | Vrf | Vlan | Qinq | Mpls | Vxlan | Evpn | Acl | Qos | Multicast | HwOffload | Any

  const CAPS := [Ipv4, Ipv6, Vrf, Vlan, Qinq, Mpls, Vxlan, Evpn, Acl, Qos, Multicast, HwOffload]

  datatype Group = Ip | IpV6 | Ipmc | AclOps | QosOps | MplsOps | Tun | VlanOps | VrfOps | AnyOps

  function GroupCap(g: Group): Cap {
    match g
    case Ip => Ipv4
    case IpV6 => Ipv6
    case Ipmc => Multicast
    case AclOps => Acl
    case QosOps => Qos
    case MplsOps => Mpls
    case Tun => Vxlan
    case VlanOps => Vlan
    case VrfOps => Vrf
    case AnyOps => Any
  }

  /** What the backends said when they were last asked. */
  type Claims = (Handler, Cap) -> bool

  ghost function NoClaims(): Claims {
    (_, _) => false
  }

  // ----- the choice -----

  /** The first loaded backend that claims a capability; for no capability, the first loaded. */
  function Pick(order: seq<Handler>, claims: Claims, cap: Cap): Option<Handler> {
    if order == [] then None
    else if cap == Any || claims(order[0], cap) then Some(order[0])
    else Pick(order[1..], claims, cap)
  }

  lemma {:induction false} PickIsFirst(order: seq<Handler>, claims: Claims, cap: Cap, k: nat)
    requires k < |order| && (cap == Any || claims(order[k], cap))
    requires forall j :: 0 <= j < k ==> cap != Any && !claims(order[j], cap)
    ensures Pick(order, claims, cap) == Some(order[k])
  {
    if k > 0 {
      assert !claims(order[0], cap);
      assert forall j :: 0 <= j < k - 1 ==> order[1..][j] == order[j + 1];
      PickIsFirst(order[1..], claims, cap, k - 1);
    }
  }

  lemma {:induction false} PickNone(order: seq<Handler>, claims: Claims, cap: Cap)
    ensures Pick(order, claims, cap) == None <==>
            order == [] || (cap != Any && forall j :: 0 <= j < |order| ==> !claims(order[j], cap))
  {
    if order != [] && cap != Any && !claims(order[0], cap) {
      PickNone(order[1..], claims, cap);
      assert order == [order[0]] + order[1..];
    }
  }

  lemma {:induction false} PickConcat(a: seq<Handler>, b: seq<Handler>, claims: Claims, cap: Cap)
    ensures Pick(a + b, claims, cap) ==
            if Pick(a, claims, cap) != None then Pick(a, claims, cap) else Pick(b, claims, cap)
  {
    if a == [] {
      assert a + b == b;
    } else if cap != Any && !claims(a[0], cap) {
      assert (a + b)[1..] == a[1..] + b;
      PickConcat(a[1..], b, claims, cap);
    }
  }

  function Without(order: seq<Handler>, h: Handler): seq<Handler> {
    if order == [] then []
    else if order[0] == h then order[1..]
    else [order[0]] + Without(order[1..], h)
  }

  lemma {:induction false} WithoutAt(order: seq<Handler>, h: Handler, k: nat)
    requires k < |order| && order[k] == h && h !in order[..k]
    ensures Without(order, h) == order[..k] + order[k + 1..]
  {
    if k > 0 {
      assert order[0] in order[..k] && order[1..][..k - 1] == order[..k][1..];
      WithoutAt(order[1..], h, k - 1);
    }
  }

  /** A backend that goes takes with it only the choices that fell on it, and those pass to the
      next that claims them. */
  lemma UnloadKeepsChoice(order: seq<Handler>, claims: Claims, cap: Cap, k: nat)
    requires k < |order| && order[k] !in order[..k] && order[k] !in order[k + 1..]
    ensures var h, was := order[k], Pick(order, claims, cap);
            var now := Pick(Without(order, h), claims, cap);
            && (was != Some(h) ==> now == was)
            && (was == Some(h) ==> now == Pick(order[k + 1..], claims, cap) && now != Some(h))
  {
    hide Pick;
    var h := order[k];
    WithoutAt(order, h, k);
    assert order == order[..k] + ([h] + order[k + 1..]);
    PickConcat(order[..k], [h] + order[k + 1..], claims, cap);
    PickConcat([h], order[k + 1..], claims, cap);
    PickConcat(order[..k], order[k + 1..], claims, cap);
    PickLoaded(order[..k], claims, cap);
    PickLoaded([h], claims, cap);
    PickLoaded(order[k + 1..], claims, cap);
  }

  lemma {:induction false} PickLoaded(order: seq<Handler>, claims: Claims, cap: Cap)
    ensures Pick(order, claims, cap).Some? ==> Pick(order, claims, cap).value in order
  {
    if order != [] && cap != Any && !claims(order[0], cap) {
      PickLoaded(order[1..], claims, cap);
    }
  }

  /** A backend loaded later takes only what no earlier one claims. */
  lemma LoadKeepsChoice(order: seq<Handler>, claims: Claims, cap: Cap, h: Handler)
    ensures var was, now := Pick(order, claims, cap), Pick(order + [h], claims, cap);
            now == if was != None then was else if cap == Any || claims(h, cap) then Some(h) else None
  {
    PickConcat(order, [h], claims, cap);
    assert [h][1..] == [];
  }

  /** A next-hop group is made by the backend the IPv4 capability picks, whatever routes will use
      it. The backend of an IPv6 route knows the group exactly when the first backend that
      claims either family claims both. */
  lemma GroupReachesRoute(order: seq<Handler>, claims: Claims, k: nat)
    requires k < |order| && (claims(order[k], Ipv4) || claims(order[k], Ipv6))
    requires forall j :: 0 <= j < k ==> !claims(order[j], Ipv4) && !claims(order[j], Ipv6)
    ensures var maker, user := Pick(order, claims, GroupCap(Ip)), Pick(order, claims, GroupCap(IpV6));
            maker == user <==> claims(order[k], Ipv4) && claims(order[k], Ipv6)
  {
    forall cap | cap == Ipv4 || cap == Ipv6
      ensures Pick(order, claims, cap) == Some(order[k]) <==> claims(order[k], cap)
    {
      FirstPicked(order, claims, cap, k);
    }
  }

  lemma {:induction false} FirstPicked(order: seq<Handler>, claims: Claims, cap: Cap, k: nat)
    requires k < |order| && cap != Any && forall j :: 0 <= j < k ==> !claims(order[j], cap)
    ensures Pick(order, claims, cap) == Some(order[k]) <==> claims(order[k], cap)
  {
    if claims(order[k], cap) {
      PickIsFirst(order, claims, cap, k);
    } else {
      PickClaims(order, claims, cap);
    }
  }

  lemma {:induction false} PickClaims(order: seq<Handler>, claims: Claims, cap: Cap)
    requires cap != Any
    ensures Pick(order, claims, cap).Some? ==> claims(Pick(order, claims, cap).value, cap)
  {
    if order != [] && !claims(order[0], cap) {
      PickClaims(order[1..], claims, cap);
    }
  }

  // ----- the table -----

  class Table {
    var handlers: array<Option<Handler>>
    var n: nat
    var loading: int
    var can: array2<bool>
    ghost var order: seq<Handler>
    ghost var claims: Claims

    /** The first slots hold the loaded backends in order, the others nothing. */
    ghost predicate Slots()
      reads this, handlers
    {
      && handlers.Length == MAX && n == |order| <= MAX
      && (forall b :: 0 <= b < n ==> handlers[b] == Some(order[b]))
      && (forall b :: n <= b < MAX ==> handlers[b] == None)
      && (forall a, b :: 0 <= a < b < n ==> order[a] != order[b])
    }

    /** The cache holds what the loaded backends claim, and nothing for the empty slots. */
    ghost predicate Cached()
      reads this, can
    {
      && can.Length0 == MAX && can.Length1 == |CAPS|
      && (forall b, c :: 0 <= b < MAX && 0 <= c < |CAPS| ==>
            can[b, c] == (b < |order| && claims(order[b], CAPS[c])))
    }

    constructor ()
      ensures Slots() && Cached() && order == [] && claims == NoClaims() && loading == -1
      ensures fresh(handlers) && fresh(can)
    {
      handlers := new Option<Handler>[MAX](_ => None);
      can := new bool[MAX, |CAPS|]((_, _) => false);
      n, loading, order, claims := 0, -1, [], NoClaims();
    }

    /** Asks every backend everything again. */
    method Refresh(answers: Claims)
      requires Slots() && can.Length0 == MAX && can.Length1 == |CAPS|
      modifies can, `claims
      ensures Cached() && claims == answers
    {
      claims := answers;
      forall b, c | 0 <= b < MAX && 0 <= c < |CAPS| {
        can[b, c] := false;
      }
      for b := 0 to n
        invariant claims == answers
        invariant forall a, c :: 0 <= a < MAX && 0 <= c < |CAPS| ==>
          can[a, c] == (a < b && claims(order[a], CAPS[c]))
      {
        for i := 0 to |CAPS|
          invariant claims == answers
          invariant forall a, c :: 0 <= a < MAX && 0 <= c < |CAPS| ==>
            can[a, c] == ((a < b || (a == b && c < i)) && claims(order[a], CAPS[c]))
        {
          can[b, i] := answers(handlers[b].value, CAPS[i]);
        }
      }
    }

    /** The slot of the earliest backend whose cached answer is yes. */
    method Select(cap: Cap) returns (slot: Option<nat>)
      requires Slots() && Cached()
      ensures slot.Some? <==> Pick(order, claims, cap).Some?
      ensures slot.Some? ==> slot.value < n && Pick(order, claims, cap) == Some(order[slot.value])
    {
      PickNone(order, claims, cap);
      if n == 0 {
        return None;
      }
      if cap == Any {
        return Some(0);
      }
      var c := CapIndex(cap);
      for b := 0 to n
        invariant forall a :: 0 <= a < b ==> !claims(order[a], cap)
      {
        if can[b, c] {
          PickIsFirst(order, claims, cap, b);
          return Some(b);
        }
      }
      return None;
    }

    /** The handler an operation of a group is sent to. */
    method Dispatch(g: Group) returns (h: Option<Handler>)
      requires Slots() && Cached()
      ensures h == Pick(order, claims, GroupCap(g))
    {
      var slot := Select(GroupCap(g));
      if slot == None || slot.value >= n {
        return None;
      }
      h := handlers[slot.value];
    }

    method Register(h: Handler)
      requires Slots() && (loading >= 0 ==> loading == n < MAX && handlers[n] == None)
      modifies handlers
      ensures loading < 0 ==> handlers[..] == old(handlers[..])
      ensures loading >= 0 ==> handlers[..] == old(handlers[..])[loading := Some(h)]
    {
      if loading < 0 {
        return;
      }
      handlers[loading] := Some(h);
    }

    /** A plugin becomes the last backend when there is a slot, it loads and it registers a
        handler; otherwise the table stays as it was. */
    method InitPlugin(loads: bool, registers: Option<Handler>)
      requires Slots() && loading == -1
      requires registers.Some? ==> registers.value !in order
      modifies this, handlers
      ensures Slots() && loading == -1 && handlers == old(handlers) && can == old(can) && claims == old(claims)
      ensures order == old(order) + if |old(order)| < MAX && loads && registers.Some? then [registers.value] else []
    {
      if n >= MAX || !loads {
        return;
      }
      loading := n;
      if registers.Some? {
        Register(registers.value);
      }
      if handlers[loading] != None {
        n := n + 1;
        order := order + [registers.value];
      }
      loading := -1;
    }

    /** Loads the configured plugins in order and then asks them what they can do. */
    method InitPlugins(plugins: seq<(bool, Option<Handler>)>, answers: Claims)
      requires Slots() && loading == -1 && can.Length0 == MAX && can.Length1 == |CAPS|
      requires forall i :: 0 <= i < |plugins| && plugins[i].1.Some? ==> plugins[i].1.value !in order
      requires forall i, j :: 0 <= i < j < |plugins| && plugins[i].1.Some? ==> plugins[i].1 != plugins[j].1
      modifies this, handlers, can
      ensures Slots() && Cached() && loading == -1 && claims == answers
      ensures handlers == old(handlers) && can == old(can)
      ensures order == Loaded(old(order), plugins)
    {
      for i := 0 to |plugins|
        invariant Slots() && loading == -1 && handlers == old(handlers) && can == old(can)
        invariant order == Loaded(old(order), plugins[..i])
        invariant forall j :: i <= j < |plugins| && plugins[j].1.Some? ==> plugins[j].1.value !in order
      {
        InitPlugin(plugins[i].0, plugins[i].1);
        assert plugins[..i + 1][..i] == plugins[..i];
      }
      assert plugins[..|plugins|] == plugins;
      Refresh(answers);
    }

    /** Takes a backend out of the table, moves those behind it up, and asks again. */
    method Delete(h: Handler, answers: Claims)
      requires Slots() && Cached() && loading == -1
      modifies this, handlers, can
      ensures Slots() && Cached() && loading == -1
      ensures handlers == old(handlers) && can == old(can)
      ensures order == Without(old(order), h)
      ensures claims == if h in old(order) then answers else old(claims)
    {
      var b := 0;
      while b < n && handlers[b] != Some(h)
        invariant b <= n && h !in order[..b]
      {
        b := b + 1;
      }
      if b >= n {
        WithoutNone(order, h);
        return;
      }
      WithoutAt(order, h, b);
      CloseGap(b);
      Refresh(answers);
    }

    method CloseGap(at: nat)
      requires Slots() && at < n
      modifies handlers, `n, `order
      ensures Slots() && order == old(order[..at] + order[at + 1..])
    {
      var b := at;
      while b + 1 < n
        invariant at <= b < n && unchanged(`n) && unchanged(`order)
        invariant forall a :: 0 <= a < at || b < a < MAX ==> handlers[a] == old(handlers[a])
        invariant forall a :: at <= a < b ==> handlers[a] == old(handlers[a + 1])
      {
        handlers[b] := handlers[b + 1];
        b := b + 1;
      }
      handlers[b] := None;
      n := n - 1;
      order := order[..at] + order[at + 1..];
    }
  }

  function Loaded(order: seq<Handler>, plugins: seq<(bool, Option<Handler>)>): seq<Handler> {
    if plugins == [] then order
    else
      var was, p := Loaded(order, plugins[..|plugins| - 1]), plugins[|plugins| - 1];
      was + if |was| < MAX && p.0 && p.1.Some? then [p.1.value] else []
  }

  method CapIndex(cap: Cap) returns (c: nat)
    requires cap != Any
    ensures c < |CAPS| && CAPS[c] == cap
  {
    c := match cap
      case Ipv4 => 0 case Ipv6 => 1 case Vrf => 2 case Vlan => 3 case Qinq => 4 case Mpls => 5
      case Vxlan => 6 case Evpn => 7 case Acl => 8 case Qos => 9 case Multicast => 10 case HwOffload => 11;
  }

  lemma {:induction false} WithoutNone(order: seq<Handler>, h: Handler)
    requires h !in order
    ensures Without(order, h) == order
  {
    if order != [] {
      WithoutNone(order[1..], h);
    }
  }

  // ----- runs -----

  /** Plugins are loaded, or one is unloaded; then the backends answer afresh. */
  datatype Op = Init(plugins: seq<(bool, Option<Handler>)>, answers: Claims) | Unload(h: Handler, answers: Claims)

  function OrderAfter(order: seq<Handler>, ops: seq<Op>): seq<Handler> {
    if ops == [] then order
    else
      var was := OrderAfter(order, ops[..|ops| - 1]);
      match ops[|ops| - 1]
      case Init(plugins, _) => Loaded(was, plugins)
      case Unload(h, _) => Without(was, h)
  }

  /** The answers the cache was last filled from. */
  ghost function ClaimsAfter(ops: seq<Op>): Claims {
    if ops == [] then NoClaims()
    else
      var before, op := ops[..|ops| - 1], ops[|ops| - 1];
      if op.Init? || op.h in OrderAfter([], before) then op.answers else ClaimsAfter(before)
  }

  /** Every handler is newly allocated when it is registered. */
  ghost predicate NewHandlers(order: seq<Handler>, plugins: seq<(bool, Option<Handler>)>) {
    && (forall i :: 0 <= i < |plugins| && plugins[i].1.Some? ==> plugins[i].1.value !in order)
    && (forall i, j :: 0 <= i < j < |plugins| && plugins[i].1.Some? ==> plugins[i].1 != plugins[j].1)
  }

  ghost predicate AllNew(ops: seq<Op>) {
    forall k :: 0 <= k < |ops| && ops[k].Init? ==> NewHandlers(OrderAfter([], ops[..k]), ops[k].plugins)
  }

  /** After any loads and unloads the slots hold the loaded backends in order, the cache what
      they answered, and an operation goes to the first that claims its capability. */
  method Run(ops: seq<Op>, g: Group) returns (t: Table, to: Option<Handler>)
    requires AllNew(ops)
    ensures t.Slots() && t.order == OrderAfter([], ops)
    ensures t.Cached() && t.claims == ClaimsAfter(ops)
    ensures to == Pick(OrderAfter([], ops), ClaimsAfter(ops), GroupCap(g))
  {
    t := new Table();
    for k := 0 to |ops|
      invariant t.Slots() && t.Cached() && t.loading == -1
      invariant t.order == OrderAfter([], ops[..k]) && t.claims == ClaimsAfter(ops[..k])
      invariant fresh(t) && fresh(t.handlers) && fresh(t.can)
    {
      assert ops[..k + 1][..k] == ops[..k];
      match ops[k]
      case Init(plugins, answers) =>
        t.InitPlugins(plugins, answers);
      case Unload(h, answers) =>
        t.Delete(h, answers);
    }
    assert ops[..|ops|] == ops;
    to := t.Dispatch(g);
  }
}
