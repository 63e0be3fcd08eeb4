/**
 The two connection machines of `src/controller.c` with a remote controller. The uplink
 machine talks to the local controller; the main machine talks to the remote one, over an
 address the uplink learns. This module is the specification the methods of `Controller`
 are proved against, and what holds over every run of it.
 */
module ControlLoop {

  datatype State = Idle | Setup | SetupWait | ResyncNeeded | Connect | ConnectWait | SocketCreate
                 | Resync | Ready | Reset

  datatype Src = Main | Uplink

  // Retry delays in seconds; the source counts in timer ticks, a fixed number a second.
  const RETRY_MIN: nat := 10
  const RETRY_MAX: nat := 40
  const EAGAIN: int := 11

  /** `ini` and `alt` are the lengths of the two request lists of the main source, `iniUp`
      that of the uplink's main list. `addr`: a control address is held; `ipSet`: the local
      address is set. `lost`: an INIPORT of main's connection was discarded unanswered. */
  datatype Ctl = Ctl(main: State, uplink: State, addr: bool, ipSet: bool, delay: nat, running: bool,
                     ini: nat, alt: nat, iniUp: nat, lost: bool)

  function StateOf(c: Ctl, src: Src): State {
    if src == Main then c.main else c.uplink
  }

  /** A request was found by its number: an INIPORT that went on or was dropped, or a
      request of the alternate list. */
  datatype Hit = NoHit | IniMoved | IniDropped | AltDone

  /** What callbacks and timers do. `loses`: flushing the uplink's interfaces took the
      control address away. */
  datatype Effect =
    | AsyncFail(src: Src, loses: bool)       // an answer that cannot be used
    | PortReply(src: Src, hit: Hit)
    | SnapshotEnd(src: Src, keys: bool, loses: bool) // last part of a snapshot; the key daemon was reached
    | ByHand(src: Src, loses: bool)          // a reset asked for by an operator or the route broker
    | AddrAdd
    | AddrDel
    | Plugged(n: nat, teardown: bool)        // requests of main for ports that came or went
    | ResetFires(src: Src)
    | ConnectFires(src: Src, loses: bool)
    | SnapshotFires(src: Src, loses: bool)
    | ExpireFires(src: Src, loses: bool)     // a port request timed out

  // ----- state changes -----

  function SetMain(c: Ctl, s: State): Ctl {
    if c.main == s then c
    else if s == Idle then c.(main := s, ini := 0, alt := 0, lost := c.lost || c.ini > 0)
    else if s == Ready then c.(main := s, delay := RETRY_MIN)
    else c.(main := s)
  }

  function SetState(c: Ctl, src: Src, s: State): Ctl {
    if src == Main then SetMain(c, s)
    else if c.uplink == s then c
    else (if c.uplink == Ready then SetMain(c, Idle) else c).(uplink := s)
  }

  function AddrGone(c: Ctl): Ctl {
    if !c.ipSet then c else SetMain(c.(addr := false, ipSet := false), Idle)
  }

  function ResetTimer(c: Ctl, src: Src): Ctl {
    if src == Uplink || c.delay > RETRY_MAX then c.(running := false)
    else SetMain(c.(delay := c.delay + RETRY_MIN), Idle)
  }

  function ResetSrc(c: Ctl, src: Src, delayed: bool, loses: bool): Ctl {
    var c1 := SetState(c, src, Reset);
    var c2 := if src == Uplink && loses then AddrGone(c1) else c1;
    if delayed then c2
    else ResetTimer(if src == Main then c2.(delay := RETRY_MIN) else c2, src)
  }

  function Apply(c: Ctl, e: Effect): Ctl {
    match e
    case AsyncFail(src, loses) => ResetSrc(c, src, true, loses)
    case PortReply(src, hit) =>
      (match hit
       case NoHit => c
       case IniMoved => if src == Main && c.ini > 0 then c.(ini := c.ini - 1, alt := c.alt + 1)
                        else if src == Uplink && c.iniUp > 0 then c.(iniUp := c.iniUp - 1) else c
       case IniDropped => if src == Main && c.ini > 0 then c.(ini := c.ini - 1)
                          else if src == Uplink && c.iniUp > 0 then c.(iniUp := c.iniUp - 1) else c
       case AltDone => if src == Main && c.alt > 0 then c.(alt := c.alt - 1) else c)
    case SnapshotEnd(src, keys, loses) =>
      if StateOf(c, src) != Resync then c
      else
        var c1 := SetState(c, src, Ready);
        if keys then c1 else ResetSrc(c1, src, true, loses)
    case ByHand(src, loses) => ResetSrc(c, src, false, loses)
    case AddrAdd => if c.addr then c else c.(addr := true, ipSet := true)
    case AddrDel => AddrGone(c)
    case Plugged(n, teardown) => if teardown then c.(alt := c.alt + n) else c.(ini := c.ini + n)
    case ResetFires(src) => ResetTimer(c, src)
    case ConnectFires(src, loses) => if StateOf(c, src) == ConnectWait then ResetSrc(c, src, true, loses) else c
    case SnapshotFires(src, loses) => if StateOf(c, src) == Resync then ResetSrc(c, src, true, loses) else c
    case ExpireFires(src, loses) => ResetSrc(c, src, true, loses)
  }

  function ApplyAll(c: Ctl, es: seq<Effect>): Ctl {
    if es == [] then c else Apply(ApplyAll(c, es[..|es| - 1]), es[|es| - 1])
  }

  // ----- one turn of the main loop -----

  /** The answers of sockets, routes and peers. `asked` is how many INIPORT requests were
      queued, `sent` whether all could be. */
  datatype Io = Io(bound: bool, routed: bool, connected: bool, brokered: bool, response: int,
                   asked: nat, sent: bool, snapshot: bool, loses: bool)

  function AddAsked(c: Ctl, src: Src, n: nat): Ctl {
    if src == Main then c.(ini := c.ini + n) else c.(iniUp := c.iniUp + n)
  }

  predicate PortsDone(c: Ctl, src: Src) {
    if src == Main then c.ini == 0 else c.iniUp == 0
  }

  /** The switch of the main loop. `es` are the callbacks of the poll, in the states that poll. */
  function Switch(c: Ctl, src: Src, io: Io, es: seq<Effect>): Ctl {
    match StateOf(c, src)
    case Idle =>
      if src == Uplink then SetState(c, Uplink, SocketCreate)
      else if c.uplink == Ready && c.addr then SetState(c.(lost := false), Main, SocketCreate) else c
    case SocketCreate => if io.bound then SetState(c, src, Connect) else c
    case Connect =>
      if !io.routed then c
      else
        var c1 := if io.connected then SetState(c, src, ConnectWait) else ResetSrc(c, src, true, io.loses);
        if io.brokered then c1 else ResetSrc(c1, src, true, io.loses)
    case ConnectWait =>
      if io.response >= 0 then SetState(c, src, Setup)
      else if io.response != -EAGAIN then ResetSrc(c, src, true, io.loses) else c
    case Setup =>
      var c1 := AddAsked(c, src, io.asked);
      if io.sent then SetState(c1, src, SetupWait) else ResetSrc(c1, src, true, io.loses)
    case SetupWait =>
      var c1 := ApplyAll(c, es);
      if PortsDone(c1, src) then SetState(c1, src, ResyncNeeded) else c1
    case ResyncNeeded => if io.snapshot then SetState(c, src, Resync) else ResetSrc(c, src, true, io.loses)
    case _ => ApplyAll(c, es)
  }

  /** Timers run first, then the switch. */
  function Turn(c: Ctl, src: Src, timers: seq<Effect>, io: Io, es: seq<Effect>): Ctl {
    Switch(ApplyAll(c, timers), src, io, es)
  }

  // ----- invariants -----

  /** The retry delay is a multiple of the minimum and at most one step past the maximum. */
  predicate Bounded(c: Ctl) {
    c.delay % RETRY_MIN == 0 && RETRY_MIN <= c.delay <= RETRY_MAX + RETRY_MIN
  }

  /** The states of main from the start of a connection to the wait for its ports. */
  predicate Early(s: State) {
    s in {SocketCreate, Connect, ConnectWait, Setup, SetupWait}
  }

  /** What holds in every run. */
  predicate Base(c: Ctl) {
    Bounded(c) && (c.addr ==> c.ipSet) && (Early(c.main) ==> !c.lost)
  }

  /** An idle main has no requests. */
  predicate Tidy(c: Ctl) {
    c.main == Idle ==> c.ini == 0 && c.alt == 0
  }

  predicate Inv(c: Ctl) {
    Base(c) && Tidy(c)
  }

  /** The main machine only runs over a ready uplink and a control address. */
  predicate Coupled(c: Ctl) {
    c.main != Idle ==> c.uplink == Ready && c.addr
  }

  /** No callback of the main source once its sockets are gone, no timeout of a request that
      does not exist, no port that comes or goes while main is idle. */
  predicate Timely(c: Ctl, e: Effect) {
    match e
    case AsyncFail(src, _) => src == Main ==> c.main != Idle
    case PortReply(src, _) => src == Main ==> c.main != Idle
    case ExpireFires(src, _) => src == Main ==> c.ini + c.alt > 0
    case Plugged(_, _) => c.main != Idle
    case _ => true
  }

  predicate AllTimely(c: Ctl, es: seq<Effect>) {
    es == [] || (AllTimely(c, es[..|es| - 1]) && Timely(ApplyAll(c, es[..|es| - 1]), es[|es| - 1]))
  }

  lemma SetMainKeeps(c: Ctl, s: State)
    requires Base(c) && (Early(s) ==> !c.lost)
    ensures var c' := SetMain(c, s);
            && Base(c') && c'.main == s && c'.uplink == c.uplink && c'.addr == c.addr && (Tidy(c) ==> Tidy(c'))
  {
  }

  lemma SetStateKeeps(c: Ctl, src: Src, s: State)
    requires Base(c) && (src == Main && Early(s) ==> !c.lost)
    ensures var c' := SetState(c, src, s);
            && Base(c') && StateOf(c', src) == s && (Tidy(c) ==> Tidy(c'))
            && (Coupled(c) && (src == Main ==> c.uplink == Ready && c.addr) ==> Coupled(c'))
  {
    hide SetMain;
    SetMainKeeps(c, if src == Main then s else Idle);
  }

  lemma ResetTimerKeeps(c: Ctl, src: Src)
    requires Base(c)
    ensures var c' := ResetTimer(c, src);
            && Base(c') && (Tidy(c) ==> Tidy(c')) && (Coupled(c) ==> Coupled(c'))
            && (src == Main && c.delay <= RETRY_MAX ==> c'.main == Idle)
  {
  }

  /** Resetting main needs it to be up; resetting the uplink takes main down first. */
  lemma ResetKeeps(c: Ctl, src: Src, delayed: bool, loses: bool)
    requires Base(c)
    ensures var c' := ResetSrc(c, src, delayed, loses);
            && Base(c') && (Tidy(c) ==> Tidy(c'))
            && (Coupled(c) && (src == Main && delayed ==> c.main != Idle) ==> Coupled(c'))
  {
    var c1 := SetState(c, src, Reset);
    var c2 := if src == Uplink && loses then AddrGone(c1) else c1;
    assert Base(c2);
    if !delayed {
      ResetTimerKeeps(if src == Main then c2.(delay := RETRY_MIN) else c2, src);
    }
  }

  lemma ApplyKeeps(c: Ctl, e: Effect)
    requires Base(c)
    ensures Base(Apply(c, e))
    ensures Tidy(c) && Timely(c, e) ==> Tidy(Apply(c, e))
    ensures Tidy(c) && Coupled(c) && Timely(c, e) ==> Coupled(Apply(c, e))
  {
    hide ResetSrc, ResetTimer;
    match e
    case AsyncFail(src, loses) => ResetKeeps(c, src, true, loses);
    case PortReply(src, hit) =>
    case SnapshotEnd(src, keys, loses) =>
      if StateOf(c, src) == Resync {
        ResetKeeps(SetState(c, src, Ready), src, true, loses);
      }
    case ByHand(src, loses) => ResetKeeps(c, src, false, loses);
    case AddrAdd =>
    case AddrDel =>
    case Plugged(n, teardown) =>
    case ResetFires(src) => ResetTimerKeeps(c, src);
    case ConnectFires(src, loses) => ResetKeeps(c, src, true, loses);
    case SnapshotFires(src, loses) => ResetKeeps(c, src, true, loses);
    case ExpireFires(src, loses) => ResetKeeps(c, src, true, loses);
  }

  lemma {:induction false} EffectsKeep(c: Ctl, es: seq<Effect>)
    requires Base(c)
    ensures Base(ApplyAll(c, es))
    ensures Tidy(c) && AllTimely(c, es) ==> Tidy(ApplyAll(c, es))
    ensures Tidy(c) && Coupled(c) && AllTimely(c, es) ==> Coupled(ApplyAll(c, es))
  {
    if es != [] {
      EffectsKeep(c, es[..|es| - 1]);
      ApplyKeeps(ApplyAll(c, es[..|es| - 1]), es[|es| - 1]);
    }
  }

  lemma AskedKeeps(c: Ctl, src: Src, n: nat)
    requires StateOf(c, src) == Setup
    ensures var c' := AddAsked(c, src, n);
            && (Base(c) ==> Base(c')) && (Tidy(c) ==> Tidy(c')) && (Coupled(c) ==> Coupled(c'))
            && c'.main == c.main && c'.uplink == c.uplink && c'.addr == c.addr && c'.lost == c.lost
  {
  }

  /** The bounds hold after every turn, whatever happens in it. */
  lemma SwitchKeeps(c: Ctl, src: Src, io: Io, es: seq<Effect>)
    requires Base(c)
    ensures Base(Switch(c, src, io, es))
  {
    hide ResetSrc, ApplyAll, SetState, AddAsked;
    match StateOf(c, src) {
      case Idle => SetStateKeeps(if src == Main then c.(lost := false) else c, src, SocketCreate);
      case SocketCreate => SetStateKeeps(c, src, Connect);
      case Connect =>
        ResetKeeps(c, src, true, io.loses);
        SetStateKeeps(c, src, ConnectWait);
        ResetKeeps(if io.connected then SetState(c, src, ConnectWait) else ResetSrc(c, src, true, io.loses),
                   src, true, io.loses);
      case ConnectWait =>
        SetStateKeeps(c, src, Setup);
        ResetKeeps(c, src, true, io.loses);
      case Setup =>
        AskedKeeps(c, src, io.asked);
        SetStateKeeps(AddAsked(c, src, io.asked), src, SetupWait);
        ResetKeeps(AddAsked(c, src, io.asked), src, true, io.loses);
      case SetupWait =>
        EffectsKeep(c, es);
        SetStateKeeps(ApplyAll(c, es), src, ResyncNeeded);
      case ResyncNeeded =>
        SetStateKeeps(c, src, Resync);
        ResetKeeps(c, src, true, io.loses);
      case _ => EffectsKeep(c, es);
    }
  }

  // ----- main waiting for its ports while the uplink goes -----

  predicate Downs(e: Effect) {
    match e
    case AsyncFail(src, _) => src == Uplink
    case ByHand(src, _) => src == Uplink
    case ExpireFires(src, _) => src == Uplink
    case _ => false
  }

  /** One of the callbacks takes the uplink down. */
  predicate UplinkDown(es: seq<Effect>) {
    exists i :: 0 <= i < |es| && Downs(es[i])
  }

  /** A control address is still held after the callbacks, if it was held before. */
  predicate AddrLeft(es: seq<Effect>) {
    es == [] ||
    match es[|es| - 1]
    case AddrAdd => true
    case AddrDel => false
    case _ => AddrLeft(es[..|es| - 1])
  }

  lemma UplinkDownLast(es: seq<Effect>)
    requires es != []
    ensures UplinkDown(es) <==> UplinkDown(es[..|es| - 1]) || Downs(es[|es| - 1])
  {
    var init := es[..|es| - 1];
    if UplinkDown(init) {
      var i :| 0 <= i < |init| && Downs(init[i]);
      assert Downs(es[i]);
    }
    if i :| 0 <= i < |es| && Downs(es[i]) {
      assert i < |init| ==> Downs(init[i]);
    }
  }

  lemma ResetUplink(c: Ctl, src: Src, delayed: bool, loses: bool)
    ensures var c' := ResetSrc(c, src, delayed, loses);
            && c'.uplink == (if src == Uplink then Reset else c.uplink)
            && (src == Main ==> c'.addr == c.addr)
  {
  }

  lemma ApplyUplink(c: Ctl, e: Effect)
    requires c.uplink in {Ready, Reset} && Base(c)
    ensures Apply(c, e).uplink == if Downs(e) then Reset else c.uplink
    ensures !Downs(e) && c.uplink == Ready ==>
              Apply(c, e).addr == if e.AddrAdd? then true else if e.AddrDel? then false else c.addr
  {
    hide ResetSrc;
    match e
    case AsyncFail(src, loses) => ResetUplink(c, src, true, loses);
    case SnapshotEnd(src, keys, loses) =>
      if StateOf(c, src) == Resync {
        ResetUplink(SetState(c, src, Ready), src, true, loses);
      }
    case ByHand(src, loses) => ResetUplink(c, src, false, loses);
    case ConnectFires(src, loses) => ResetUplink(c, src, true, loses);
    case SnapshotFires(src, loses) => ResetUplink(c, src, true, loses);
    case ExpireFires(src, loses) => ResetUplink(c, src, true, loses);
    case _ =>
  }

  lemma {:induction false} PollUplink(c: Ctl, es: seq<Effect>)
    requires Base(c) && c.uplink == Ready && c.addr
    ensures var c' := ApplyAll(c, es);
            && c'.uplink == (if UplinkDown(es) then Reset else Ready)
            && (!UplinkDown(es) ==> c'.addr == AddrLeft(es))
  {
    if es != [] {
      var init := es[..|es| - 1];
      PollUplink(c, init);
      EffectsKeep(c, init);
      UplinkDownLast(es);
      ApplyUplink(ApplyAll(c, init), es[|es| - 1]);
    }
  }

  /** The main loop asks whether all ports are done after the poll, without looking whether
      the poll left main waiting. When the poll idled main its requests are gone, so the
      ports count as done and main goes on. */
  predicate Overtaken(c: Ctl, src: Src, es: seq<Effect>) {
    src == Main && c.main == SetupWait && (UplinkDown(es) || !AddrLeft(es))
  }

  predicate Polls(c: Ctl, src: Src) {
    StateOf(c, src) in {SetupWait, Resync, Ready, Reset}
  }

  lemma SetupWaitCouples(c: Ctl, src: Src, io: Io, es: seq<Effect>)
    requires Inv(c) && Coupled(c) && StateOf(c, src) == SetupWait && AllTimely(c, es)
    ensures Inv(Switch(c, src, io, es))
    ensures Coupled(Switch(c, src, io, es)) <==> !Overtaken(c, src, es)
  {
    hide ResetSrc, ApplyAll, UplinkDown, AddrLeft;
    EffectsKeep(c, es);
    if src == Main {
      PollUplink(c, es);
    }
  }

  lemma ConnectCouples(c: Ctl, src: Src, io: Io, es: seq<Effect>)
    requires Inv(c) && Coupled(c) && StateOf(c, src) == Connect
    ensures Inv(Switch(c, src, io, es)) && Coupled(Switch(c, src, io, es))
  {
    hide ResetSrc, ApplyAll;
    ResetKeeps(c, src, true, io.loses);
    SecondReset(c, src, io.loses);
  }

  /** Outside that one state and poll, a turn keeps the machines coupled. */
  lemma SwitchCouples(c: Ctl, src: Src, io: Io, es: seq<Effect>)
    requires Inv(c) && Coupled(c) && (Polls(c, src) ==> AllTimely(c, es))
    ensures Inv(Switch(c, src, io, es))
    ensures Coupled(Switch(c, src, io, es)) <==> !Overtaken(c, src, es)
  {
    SwitchKeeps(c, src, io, es);
    hide ResetSrc, ApplyAll, SetState, AddAsked, UplinkDown, AddrLeft;
    match StateOf(c, src) {
      case Idle => SetStateKeeps(if src == Main then c.(lost := false) else c, src, SocketCreate);
      case SocketCreate => SetStateKeeps(c, src, Connect);
      case SetupWait => SetupWaitCouples(c, src, io, es);
      case Connect => ConnectCouples(c, src, io, es);
      case ConnectWait =>
        SetStateKeeps(c, src, Setup);
        ResetKeeps(c, src, true, io.loses);
      case Setup =>
        AskedKeeps(c, src, io.asked);
        SetStateKeeps(AddAsked(c, src, io.asked), src, SetupWait);
        ResetKeeps(AddAsked(c, src, io.asked), src, true, io.loses);
      case ResyncNeeded =>
        SetStateKeeps(c, src, Resync);
        ResetKeeps(c, src, true, io.loses);
      case _ => EffectsKeep(c, es);
    }
  }

  /** A failed connection is reset, and reset again when the broker fails too. */
  lemma SecondReset(c: Ctl, src: Src, loses: bool)
    requires Inv(c) && Coupled(c) && StateOf(c, src) == Connect
    ensures var c1 := SetState(c, src, ConnectWait);
            var c2 := ResetSrc(c, src, true, loses);
            && Inv(ResetSrc(c1, src, true, loses)) && Coupled(ResetSrc(c1, src, true, loses))
            && Inv(ResetSrc(c2, src, true, loses)) && Coupled(ResetSrc(c2, src, true, loses))
  {
    var c1, c2 := SetState(c, src, ConnectWait), ResetSrc(c, src, true, loses);
    ResetKeeps(c, src, true, loses);
    ResetKeeps(c1, src, true, loses);
    ResetKeeps(c2, src, true, loses);
  }

  /** A concrete case: one port is still unanswered when the local controller's answer cannot
      be used. Main ends up asking for a snapshot over an uplink that is being reset. */
  lemma OvertakenExample()
    ensures var c := Ctl(SetupWait, Ready, true, true, RETRY_MIN, true, 1, 0, 0, false);
            var io := Io(true, true, true, true, 0, 0, true, true, false);
            var c' := Switch(c, Main, io, [AsyncFail(Uplink, false)]);
            Inv(c) && Coupled(c) && c'.main == ResyncNeeded && c'.uplink == Reset
  {
    var c := Ctl(SetupWait, Ready, true, true, RETRY_MIN, true, 1, 0, 0, false);
    var es := [AsyncFail(Uplink, false)];
    assert es[..|es| - 1] == [];
    assert ApplyAll(c, es) == Apply(c, es[0]);
  }

  // ----- main going on with unanswered requests -----

  /** A reset of the uplink takes main down with it. */
  predicate TakesMain(c: Ctl, loses: bool) {
    c.uplink == Ready || (loses && c.ipSet)
  }

  /** A callback or timer that takes a main that is up to idle. */
  predicate Idles(c: Ctl, e: Effect) {
    match e
    case AsyncFail(src, loses) => src == Uplink && TakesMain(c, loses)
    case ExpireFires(src, loses) => src == Uplink && TakesMain(c, loses)
    case ByHand(src, loses) => src == Main || TakesMain(c, loses)
    case SnapshotEnd(src, keys, _) => src == Uplink && c.uplink == Resync && !keys
    case AddrDel => c.ipSet
    case ResetFires(src) => src == Main && c.delay <= RETRY_MAX
    case ConnectFires(src, loses) => src == Uplink && c.uplink == ConnectWait && loses && c.ipSet
    case SnapshotFires(src, loses) => src == Uplink && c.uplink == Resync && loses && c.ipSet
    case _ => false
  }

  /** ... while an INIPORT waits for its answer. An operator's reset goes through idle even from
      there. */
  predicate Drops(c: Ctl, e: Effect) {
    c.ini > 0 && if c.main == Idle then e.ByHand? && e.src == Main else Idles(c, e)
  }

  predicate Discards(c: Ctl, es: seq<Effect>) {
    es != [] && (Discards(c, es[..|es| - 1]) || Drops(ApplyAll(c, es[..|es| - 1]), es[|es| - 1]))
  }

  lemma ResetIdles(c: Ctl, src: Src, delayed: bool, loses: bool)
    ensures var c' := ResetSrc(c, src, delayed, loses);
            var idles := if src == Main then !delayed else TakesMain(c, loses) && c.main != Idle;
            && (c.main != Idle && src == Uplink ==> (c'.main == Idle <==> idles))
            && (c.main != Idle && src == Main ==> (c'.main == Idle <==> idles))
            && (c'.lost <==> c.lost || (c.ini > 0 && idles))
  {
  }

  /** Main goes to idle, and its requests are lost, exactly then. */
  lemma DropsExactly(c: Ctl, e: Effect)
    ensures c.main != Idle ==> (Apply(c, e).main == Idle <==> Idles(c, e))
    ensures Apply(c, e).lost <==> c.lost || Drops(c, e)
  {
    hide ResetSrc;
    match e
    case AsyncFail(src, loses) => ResetIdles(c, src, true, loses);
    case SnapshotEnd(src, keys, loses) =>
      if StateOf(c, src) == Resync {
        ResetIdles(SetState(c, src, Ready), src, true, loses);
      }
    case ByHand(src, loses) => ResetIdles(c, src, false, loses);
    case ConnectFires(src, loses) => ResetIdles(c, src, true, loses);
    case SnapshotFires(src, loses) => ResetIdles(c, src, true, loses);
    case ExpireFires(src, loses) => ResetIdles(c, src, true, loses);
    case _ =>
  }

  lemma {:induction false} DiscardsExactly(c: Ctl, es: seq<Effect>)
    ensures ApplyAll(c, es).lost <==> c.lost || Discards(c, es)
  {
    if es != [] {
      DiscardsExactly(c, es[..|es| - 1]);
      DropsExactly(ApplyAll(c, es[..|es| - 1]), es[|es| - 1]);
    }
  }

  /** Main leaves the wait for its ports with every INIPORT of its connection answered if and
      only if no callback of the poll took it to idle while one was not. */
  lemma SwitchAnswers(c: Ctl, io: Io, es: seq<Effect>)
    requires Base(c) && c.main == SetupWait && Switch(c, Main, io, es).main == ResyncNeeded
    ensures Switch(c, Main, io, es).ini == 0
    ensures Switch(c, Main, io, es).lost <==> Discards(c, es)
  {
    DiscardsExactly(c, es);
    EffectsKeep(c, es);
    NeverResyncs(c, es);
  }

  /** No callback makes main ask for a snapshot; the loop does. */
  lemma {:induction false} NeverResyncs(c: Ctl, es: seq<Effect>)
    requires c.main != ResyncNeeded
    ensures ApplyAll(c, es).main != ResyncNeeded
  {
    if es != [] {
      NeverResyncs(c, es[..|es| - 1]);
      NotResyncing(ApplyAll(c, es[..|es| - 1]), es[|es| - 1]);
    }
  }

  lemma ResetGoesTo(c: Ctl, src: Src, delayed: bool, loses: bool)
    ensures ResetSrc(c, src, delayed, loses).main in {c.main, Idle, Reset}
  {
  }

  lemma NotResyncing(c: Ctl, e: Effect)
    requires c.main != ResyncNeeded
    ensures Apply(c, e).main != ResyncNeeded
  {
    hide ResetSrc;
    match e
    case AsyncFail(src, loses) => ResetGoesTo(c, src, true, loses);
    case SnapshotEnd(src, keys, loses) => ResetGoesTo(SetState(c, src, Ready), src, true, loses);
    case ByHand(src, loses) => ResetGoesTo(c, src, false, loses);
    case ConnectFires(src, loses) => ResetGoesTo(c, src, true, loses);
    case SnapshotFires(src, loses) => ResetGoesTo(c, src, true, loses);
    case ExpireFires(src, loses) => ResetGoesTo(c, src, true, loses);
    case _ =>
  }

  /** A concrete case: the operator resets the connection while one port is unanswered. The
      machines stay coupled, and main asks for a snapshot without the answer. */
  lemma DiscardsExample()
    ensures var c := Ctl(SetupWait, Ready, true, true, RETRY_MIN, true, 1, 0, 0, false);
            var io := Io(true, true, true, true, 0, 0, true, true, false);
            var es := [ByHand(Main, false)];
            var c' := Switch(c, Main, io, es);
            && Inv(c) && Coupled(c) && AllTimely(c, es) && !Overtaken(c, Main, es)
            && c'.main == ResyncNeeded && c'.lost && Coupled(c')
  {
    var c := Ctl(SetupWait, Ready, true, true, RETRY_MIN, true, 1, 0, 0, false);
    var es := [ByHand(Main, false)];
    assert es[..|es| - 1] == [];
    assert ApplyAll(c, es) == Apply(c, es[0]);
    assert !UplinkDown(es) && AddrLeft(es[..0]);
  }

  // ----- where a source goes -----

  /** The state a source tries for next. */
  function Onward(s: State): State {
    match s
    case Idle => SocketCreate
    case SocketCreate => Connect
    case Connect => ConnectWait
    case ConnectWait => Setup
    case Setup => SetupWait
    case ResyncNeeded => Resync
    case _ => s
  }

  /** What it needs for that. */
  predicate Granted(c: Ctl, src: Src, io: Io) {
    match StateOf(c, src)
    case Idle => src == Uplink || (c.uplink == Ready && c.addr)
    case SocketCreate => io.bound
    case Connect => io.routed && io.connected && io.brokered
    case ConnectWait => io.response >= 0
    case Setup => io.sent
    case ResyncNeeded => io.snapshot
    case _ => false
  }

  /** What makes it give up the connection. Without a socket or a route to the peer it tries
      again, and so it does while the peer has not answered. */
  predicate Denied(c: Ctl, src: Src, io: Io) {
    match StateOf(c, src)
    case Connect => io.routed && !(io.connected && io.brokered)
    case ConnectWait => io.response < 0 && io.response != -EAGAIN
    case Setup => !io.sent
    case ResyncNeeded => !io.snapshot
    case _ => false
  }

  lemma ResetStates(c: Ctl, src: Src, loses: bool)
    ensures StateOf(ResetSrc(c, src, true, loses), src) == Reset
  {
  }

  /** A turn that does not poll takes its source on exactly when granted, to reset exactly when
      denied, and otherwise leaves it. */
  lemma SwitchMoves(c: Ctl, src: Src, io: Io, es: seq<Effect>)
    requires !Polls(c, src)
    ensures StateOf(Switch(c, src, io, es), src) ==
            if Granted(c, src, io) then Onward(StateOf(c, src))
            else if Denied(c, src, io) then Reset else StateOf(c, src)
  {
    hide ResetSrc, ApplyAll;
    ResetStates(c, src, io.loses);
    ResetStates(SetState(c, src, ConnectWait), src, io.loses);
    ResetStates(ResetSrc(c, src, true, io.loses), src, io.loses);
    ResetStates(AddAsked(c, src, io.asked), src, io.loses);
  }

  /** A callback or timer that takes its own source to reset. A reset of main by hand goes on to
      idle. */
  predicate Fails(c: Ctl, e: Effect, src: Src) {
    match e
    case AsyncFail(s, _) => s == src
    case ExpireFires(s, _) => s == src
    case ByHand(s, _) => s == src == Uplink
    case ConnectFires(s, _) => s == src && StateOf(c, src) == ConnectWait
    case SnapshotFires(s, _) => s == src && StateOf(c, src) == Resync
    case SnapshotEnd(s, keys, _) => s == src && StateOf(c, src) == Resync && !keys
    case _ => false
  }

  lemma ResetMoves(c: Ctl, s: Src, delayed: bool, loses: bool, src: Src)
    ensures var c' := ResetSrc(c, s, delayed, loses);
            StateOf(c', src) ==
            if s == src then
              if src == Main && !delayed then Idle else Reset
            else if src == Main && c.main != Idle && TakesMain(c, loses) then Idle else StateOf(c, src)
  {
  }

  /** It is in reset afterwards exactly when this took it there, or when it was and main was not
      sent to idle; and it becomes ready exactly at the end of its snapshot. */
  lemma ApplyMoves(c: Ctl, e: Effect, src: Src)
    ensures StateOf(Apply(c, e), src) == Reset <==>
            Fails(c, e, src) || (StateOf(c, src) == Reset && !(src == Main && Idles(c, e)))
    ensures StateOf(c, src) != Ready ==>
              (StateOf(Apply(c, e), src) == Ready <==>
               e.SnapshotEnd? && e.src == src && e.keys && StateOf(c, src) == Resync)
  {
    hide ResetSrc;
    match e
    case AsyncFail(s, loses) => ResetMoves(c, s, true, loses, src);
    case SnapshotEnd(s, keys, loses) => ResetMoves(SetState(c, s, Ready), s, true, loses, src);
    case ByHand(s, loses) => ResetMoves(c, s, false, loses, src);
    case ConnectFires(s, loses) => ResetMoves(c, s, true, loses, src);
    case SnapshotFires(s, loses) => ResetMoves(c, s, true, loses, src);
    case ExpireFires(s, loses) => ResetMoves(c, s, true, loses, src);
    case _ =>
  }
}
