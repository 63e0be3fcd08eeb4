/** The main thread of `src/controller.c` with a remote controller, proved against the
    specification in `ControlLoop`. */
module Controller {
  import opened PortRequests
  import opened ControlLoop
  import opened ControlRuns

  /** The effects that do not go through the request lists. */
  type Direct = e: Effect | !e.PortReply? && !e.Plugged? witness AddrAdd

  /** A direct effect, an answer to a port request that has still to be looked up, or a port
      that came or went. */
  datatype Happening =
    | Plain(e: Direct)
    | Answer(src: Src, seqno: nat, reply: Reply)
    | Plug(port: nat, teardown: bool, ports: PortList)

  /** The ports a turn in the setup state asks about. */
  datatype PortList = PortList(count: nat, max: nat, wanted: nat -> bool, sendable: nat -> bool, seed: nat)

  datatype TurnIn = TurnIn(timers: seq<Happening>, io: Io, ports: PortList, polled: seq<Happening>)

  /** Whether asking about the ports succeeds, and how many requests that makes: all wanted
      ports, or those before the first whose request cannot be sent. */
  ghost predicate AsksFor(ports: PortList, asked: nat, sent: bool) {
    && (sent <==> ports.count <= ports.max && AllSendable(0, ports.count, ports.wanted, ports.sendable))
    && (sent ==> asked == |Chosen(0, ports.count, ports.wanted)|)
    && (!sent ==> if ports.count > ports.max then asked == 0
                  else exists p :: && 0 <= p < ports.count && ports.wanted(p) && !ports.sendable(p)
                                   && AllSendable(0, p, ports.wanted, ports.sendable)
                                   && asked == |Chosen(0, p, ports.wanted)|)
  }

  /** A port makes one request when it is within bounds and wanted and the request, unless it is
      for a port that goes, can be sent. */
  predicate PlugAsks(port: nat, teardown: bool, ports: PortList) {
    port < ports.max && ports.wanted(port) && (teardown || ports.sendable(port))
  }

  /** An answer is some reply of its source. */
  predicate FollowsOne(h: Happening, e: Effect) {
    match h
    case Plain(d) => e == d
    case Answer(src, _, _) => e.PortReply? && e.src == src
    case Plug(_, teardown, _) => e == Plugged(if PlugAsks(h.port, teardown, h.ports) then 1 else 0, teardown)
  }

  /** The effects are those of the happenings. */
  ghost predicate Follows(hs: seq<Happening>, es: seq<Effect>) {
    |es| == |hs| && forall i :: 0 <= i < |hs| ==> FollowsOne(hs[i], es[i])
  }

  /** An input of the specification that is what was given to a turn, with what comes of asking
      about its ports, up to looking answers up. */
  ghost predicate Matches(c: Ctl, src: Src, t: TurnIn, i: Input) {
    && Follows(t.timers, i.timers)
    && i.io == t.io.(asked := i.io.asked, sent := i.io.sent)
    && (StateOf(ApplyAll(c, i.timers), src) == Setup ==> AsksFor(t.ports, i.io.asked, i.io.sent))
    && (Polls(ApplyAll(c, i.timers), src) ==> Follows(t.polled, i.es))
  }

  /** A run of the specification on what was given to the turns. */
  ghost predicate AllMatch(c: Ctl, turns: seq<TurnIn>, ins: seq<Input>) {
    && |ins| <= |turns|
    && forall k :: 0 <= k < |ins| ==> Matches(RunTurns(c, ins[..k]), Whose(k), turns[k], ins[k])
  }

  lemma MatchNone(c: Ctl, turns: seq<TurnIn>)
    ensures AllMatch(c, turns, []) && RunTurns(c, []) == c
  {
  }

  lemma MatchMore(c: Ctl, turns: seq<TurnIn>, ins: seq<Input>, i: Input)
    requires AllMatch(c, turns, ins) && |ins| < |turns|
    requires Matches(RunTurns(c, ins), Whose(|ins|), turns[|ins|], i)
    ensures AllMatch(c, turns, ins + [i])
    ensures RunTurns(c, ins + [i]) == Turn(RunTurns(c, ins), Whose(|ins|), i.timers, i.io, i.es)
  {
    hide Matches, Turn;
    var more := ins + [i];
    assert more[..|more| - 1] == ins;
    forall k | 0 <= k < |more|
      ensures Matches(RunTurns(c, more[..k]), Whose(k), turns[k], more[k])
    {
      assert k < |ins| ==> more[..k] == ins[..k];
    }
  }

  class Controller {
    const mainReqs: Requests
    const uplinkReqs: Requests
    const counter: Counter
    var main: State
    var uplink: State
    var addr: bool
    var ipSet: bool
    var delay: nat
    var running: bool

    ghost function View(): Ctl
      reads this, mainReqs, uplinkReqs
    {
      Ctl(main, uplink, addr, ipSet, delay, running, |mainReqs.main|, |mainReqs.alt|, |uplinkReqs.main|,
          mainReqs.lost != {})
    }

    ghost predicate Sound()
      reads this, mainReqs, uplinkReqs, mainReqs.Live(), uplinkReqs.Live()
    {
      && mainReqs != uplinkReqs && mainReqs.Live() !! uplinkReqs.Live()
      && mainReqs.counter == uplinkReqs.counter == counter
      && mainReqs.Valid() && uplinkReqs.Valid()
    }

    ghost function AllReqs(): set<Request>
      reads this, mainReqs, uplinkReqs
    {
      mainReqs.Live() + uplinkReqs.Live()
    }

    constructor ()
      ensures Sound() && View() == START && AllReqs() == {}
      ensures fresh(mainReqs) && fresh(uplinkReqs) && fresh(counter)
    {
      main, uplink, addr, ipSet, delay, running := Idle, Idle, false, false, RETRY_MIN, true;
      var c := new Counter();
      counter := c;
      mainReqs := new Requests(c);
      uplinkReqs := new Requests(c);
    }

    /** `main_state_set` for the remote connection: going idle drops its requests. */
    method SetMain(s: State)
      requires Sound()
      modifies this, mainReqs
      ensures Sound() && View() == ControlLoop.SetMain(old(View()), s) && AllReqs() <= old(AllReqs())
    {
      if main == s {
        return;
      }
      main := s;
      if s == Idle {
        mainReqs.Cleanup();
      } else if s == Ready {
        delay := RETRY_MIN;
      }
    }

    method SetState(src: Src, s: State)
      requires Sound()
      modifies this, mainReqs
      ensures Sound() && View() == ControlLoop.SetState(old(View()), src, s) && AllReqs() <= old(AllReqs())
    {
      if src == Main {
        SetMain(s);
        return;
      }
      if uplink == s {
        return;
      }
      if uplink == Ready {
        SetMain(Idle);
      }
      uplink := s;
    }

    /** The address-removed half of `main_control_intf`. */
    method AddrGone()
      requires Sound()
      modifies this, mainReqs
      ensures Sound() && View() == ControlLoop.AddrGone(old(View())) && AllReqs() <= old(AllReqs())
    {
      if !ipSet {
        return;
      }
      addr, ipSet := false, false;
      SetMain(Idle);
    }

    method ResetTimer(src: Src)
      requires Sound()
      modifies this, mainReqs
      ensures Sound() && View() == ControlLoop.ResetTimer(old(View()), src) && AllReqs() <= old(AllReqs())
    {
      if src == Uplink {
        running := false;
        return;
      }
      if delay > RETRY_MAX {
        running := false;
        return;
      }
      delay := delay + RETRY_MIN;
      SetMain(Idle);
    }

    method ResetDataplane(src: Src, delayed: bool, loses: bool)
      requires Sound()
      modifies this, mainReqs
      ensures Sound() && View() == ResetSrc(old(View()), src, delayed, loses) && AllReqs() <= old(AllReqs())
    {
      SetState(src, Reset);
      if src == Uplink && loses {
        AddrGone();
      }
      if !delayed {
        if src == Main {
          delay := RETRY_MIN;
        }
        ResetTimer(src);
      }
    }

    /** `process_port_response`, seen from the connection machines. */
    method PortAnswer(src: Src, seqno: nat, reply: Reply) returns (ghost hit: Hit)
      requires Sound()
      modifies mainReqs, uplinkReqs, counter, AllReqs()
      ensures Sound() && View() == Apply(old(View()), PortReply(src, hit)) && AllReqs() <= old(AllReqs())
      ensures var reqs := if src == Main then mainReqs else uplinkReqs;
              hit == if old(Position(reqs.main, seqno)) < |old(reqs.main)|
                     then if reply.parsed && reply.sent && reply.mapped then IniMoved else IniDropped
                     else if old(Position(reqs.alt, seqno)) < |old(reqs.alt)| then AltDone else NoHit
    {
      hide Position, Cut, NoDup, Requests.Distinct, Requests.Unused, Requests.Valid;
      var reqs := if src == Main then mainReqs else uplinkReqs;
      hit := if Position(reqs.main, seqno) < |reqs.main|
             then if reply.parsed && reply.sent && reply.mapped then IniMoved else IniDropped
             else if Position(reqs.alt, seqno) < |reqs.alt| then AltDone else NoHit;
      var matched := reqs.Response(seqno, reply);
    }

    /** A port that came or went. */
    method PlugPort(port: nat, teardown: bool, ports: PortList) returns (ghost n: nat)
      requires Sound()
      modifies mainReqs, counter
      ensures Sound() && View() == Apply(old(View()), Plugged(n, teardown))
      ensures n == if PlugAsks(port, teardown, ports) then 1 else 0
      ensures fresh(AllReqs() - old(AllReqs()))
    {
      ghost var was := AllReqs();
      var _, added :=
        mainReqs.Setup(port, port + 1, ports.max, ports.wanted, teardown, ports.seed, ports.sendable);
      n := |added|;
      assert Chosen(port, port, ports.wanted) == [];
      assert AllReqs() == was + (set r | r in added);
    }

    /** A callback or a timer. */
    method Do(h: Happening) returns (ghost e: Effect)
      requires Sound()
      modifies this, mainReqs, uplinkReqs, counter, AllReqs()
      ensures Sound() && View() == Apply(old(View()), e) && FollowsOne(h, e)
      ensures fresh(AllReqs() - old(AllReqs()))
    {
      hide ResetSrc, ControlLoop.ResetTimer, ControlLoop.SetState, ControlLoop.AddrGone, Sound;
      match h
      case Answer(src, seqno, reply) =>
        ghost var hit := PortAnswer(src, seqno, reply);
        e := PortReply(src, hit);
      case Plug(port, teardown, ports) =>
        ghost var n := PlugPort(port, teardown, ports);
        e := Plugged(n, teardown);
      case Plain(AsyncFail(src, loses)) =>
        ResetDataplane(src, true, loses);
        e := h.e;
      case Plain(SnapshotEnd(src, keys, loses)) =>
        if (if src == Main then main else uplink) == Resync {
          SetState(src, Ready);
          if !keys {
            ResetDataplane(src, true, loses);
          }
        }
        e := h.e;
      case Plain(ByHand(src, loses)) =>
        ResetDataplane(src, false, loses);
        e := h.e;
      case Plain(AddrAdd) =>
        NewAddr();
        e := h.e;
      case Plain(AddrDel) =>
        AddrGone();
        e := h.e;
      case Plain(ResetFires(src)) =>
        ResetTimer(src);
        e := h.e;
      case Plain(ConnectFires(src, loses)) =>
        if (if src == Main then main else uplink) == ConnectWait {
          ResetDataplane(src, true, loses);
        }
        e := h.e;
      case Plain(SnapshotFires(src, loses)) =>
        if (if src == Main then main else uplink) == Resync {
          ResetDataplane(src, true, loses);
        }
        e := h.e;
      case Plain(ExpireFires(src, loses)) =>
        ResetDataplane(src, true, loses);
        e := h.e;
    }

    method NewAddr()
      requires Sound()
      modifies this
      ensures Sound() && View() == Apply(old(View()), AddrAdd) && AllReqs() == old(AllReqs())
    {
      if !addr {
        addr, ipSet := true, true;
      }
    }

    method DoAll(hs: seq<Happening>) returns (ghost es: seq<Effect>)
      requires Sound()
      modifies this, mainReqs, uplinkReqs, counter, AllReqs()
      ensures Sound() && View() == ApplyAll(old(View()), es) && fresh(AllReqs() - old(AllReqs()))
      ensures Follows(hs, es)
    {
      hide Apply, Sound, View, FollowsOne;
      es := [];
      var k := 0;
      while k < |hs|
        invariant 0 <= k == |es| <= |hs| && Sound() && fresh(AllReqs() - old(AllReqs()))
        invariant View() == ApplyAll(old(View()), es)
        invariant Follows(hs[..k], es)
      {
        ghost var a := AllReqs();
        ghost var e := Do(hs[k]);
        assert AllReqs() - old(AllReqs()) <= (AllReqs() - a) + (a - old(AllReqs()));
        assert (es + [e])[..|es + [e]| - 1] == es;
        es := es + [e];
        k := k + 1;
      }
      assert hs[..k] == hs;
    }

    /** `setup_interfaces` for all ports of a source. */
    method SetupPorts(src: Src, ports: PortList) returns (rc: int, ghost asked: nat)
      requires Sound()
      modifies mainReqs, uplinkReqs, counter
      ensures Sound() && View() == AddAsked(old(View()), src, asked) && fresh(AllReqs() - old(AllReqs()))
      ensures AsksFor(ports, asked, rc >= 0)
    {
      var reqs := if src == Main then mainReqs else uplinkReqs;
      ghost var added;
      ghost var was := AllReqs();
      rc, added := reqs.Setup(0, ports.count, ports.max, ports.wanted, false, ports.seed, ports.sendable);
      asked := |added|;
      assert AllReqs() == was + (set r | r in added);
    }

    ghost method NewConnection()
      requires Sound()
      modifies mainReqs
      ensures Sound() && View() == old(View()).(lost := false) && AllReqs() == old(AllReqs())
    {
      mainReqs.Begin();
    }

    /** The states before the ports are asked about. */
    method Connecting(src: Src, io: Io)
      requires Sound() && StateOf(View(), src) in {Idle, SocketCreate, Connect, ConnectWait, ResyncNeeded}
      modifies this, mainReqs
      ensures Sound() && View() == ControlLoop.Switch(old(View()), src, io, []) && AllReqs() <= old(AllReqs())
    {
      hide Apply, ApplyAll, Sound, ResetSrc, ControlLoop.SetState, AllReqs, Requests.Live;
      match (if src == Main then main else uplink)
      case Idle =>
        if src == Uplink {
          SetState(Uplink, SocketCreate);
        } else if uplink == Ready && addr {
          NewConnection();
          SetState(Main, SocketCreate);
        }
      case SocketCreate =>
        if io.bound {
          SetState(src, Connect);
        }
      case Connect =>
        if io.routed {
          if io.connected {
            SetState(src, ConnectWait);
          } else {
            ResetDataplane(src, true, io.loses);
          }
          if !io.brokered {
            ResetDataplane(src, true, io.loses);
          }
        }
      case ConnectWait =>
        if io.response < 0 {
          if io.response != -EAGAIN {
            ResetDataplane(src, true, io.loses);
          }
        } else {
          SetState(src, Setup);
        }
      case ResyncNeeded =>
        if io.snapshot {
          SetState(src, Resync);
        } else {
          ResetDataplane(src, true, io.loses);
        }
    }

    /** In the setup state `io.asked` and `io.sent` are what asking about the ports came to;
        what is given for them is not used. */
    method Asking(src: Src, io: Io, ports: PortList) returns (ghost io': Io)
      requires Sound() && StateOf(View(), src) == Setup
      modifies this, mainReqs, uplinkReqs, counter, AllReqs()
      ensures Sound() && View() == ControlLoop.Switch(old(View()), src, io', [])
      ensures fresh(AllReqs() - old(AllReqs()))
      ensures io' == io.(asked := io'.asked, sent := io'.sent) && AsksFor(ports, io'.asked, io'.sent)
    {
      hide Apply, ApplyAll, Sound, ResetSrc, ControlLoop.SetState, AsksFor;
      ghost var asked;
      var rc;
      rc, asked := SetupPorts(src, ports);
      ghost var a := AllReqs();
      io' := io.(asked := asked, sent := rc >= 0);
      if rc < 0 {
        ResetDataplane(src, true, io.loses);
      } else {
        SetState(src, SetupWait);
      }
      assert AllReqs() <= a;
    }

    /** The states that poll. Ports count as done as soon as no INIPORT is waiting, whatever
        the callbacks did to the machine. */
    method Polling(src: Src, io: Io, polled: seq<Happening>) returns (ghost es: seq<Effect>)
      requires Sound() && Polls(View(), src)
      modifies this, mainReqs, uplinkReqs, counter, AllReqs()
      ensures Sound() && View() == ControlLoop.Switch(old(View()), src, io, es)
      ensures fresh(AllReqs() - old(AllReqs())) && Follows(polled, es)
    {
      hide Apply, ApplyAll, Sound, ControlLoop.SetState, AllReqs, Requests.Live, Follows;
      var waiting := (if src == Main then main else uplink) == SetupWait;
      es := DoAll(polled);
      ghost var a := AllReqs();
      if waiting && (if src == Main then mainReqs else uplinkReqs).Done() {
        SetState(src, ResyncNeeded);
      }
      assert AllReqs() <= a;
    }

    method Switch(src: Src, io: Io, ports: PortList, polled: seq<Happening>)
      returns (ghost io': Io, ghost es: seq<Effect>)
      requires Sound()
      modifies this, mainReqs, uplinkReqs, counter, AllReqs()
      ensures Sound() && View() == ControlLoop.Switch(old(View()), src, io', es)
      ensures fresh(AllReqs() - old(AllReqs()))
      ensures io' == io.(asked := io'.asked, sent := io'.sent)
      ensures StateOf(old(View()), src) == Setup ==> AsksFor(ports, io'.asked, io'.sent)
      ensures Polls(old(View()), src) ==> Follows(polled, es)
    {
      hide ControlLoop.Switch, Sound, Follows, AsksFor;
      es := [];
      io' := io;
      var s := if src == Main then main else uplink;
      if s in {Idle, SocketCreate, Connect, ConnectWait, ResyncNeeded} {
        Connecting(src, io);
      } else if s == Setup {
        io' := Asking(src, io, ports);
      } else {
        es := Polling(src, io, polled);
      }
    }

    /** One turn of `main_loop`: timers, then the switch. */
    method Turn(src: Src, timers: seq<Happening>, io: Io, ports: PortList, polled: seq<Happening>)
      returns (ghost i: Input)
      requires Sound()
      modifies this, mainReqs, uplinkReqs, counter, AllReqs()
      ensures Sound() && View() == ControlLoop.Turn(old(View()), src, i.timers, i.io, i.es)
      ensures fresh(AllReqs() - old(AllReqs()))
      ensures Matches(old(View()), src, TurnIn(timers, io, ports, polled), i)
      ensures Base(old(View())) && Leaves(old(View()), src, i) ==>
                (mainReqs.answered == mainReqs.issued <==> !Discards(ApplyAll(old(View()), i.timers), i.es))
    {
      hide Apply, ApplyAll, Sound, ControlLoop.Switch, View, Follows, Polls, AsksFor;
      ghost var a0 := AllReqs();
      ghost var ts := DoAll(timers);
      ghost var a1 := AllReqs();
      ghost var io', es := Switch(src, io, ports, polled);
      assert AllReqs() - a0 <= (AllReqs() - a1) + (a1 - a0);
      i := Input(ts, io', es);
      if Base(old(View())) && Leaves(old(View()), src, i) {
        TurnAnswers(old(View()), src, i);
        LostIsUnanswered();
      }
    }

    /** With no INIPORT waiting, the connection lost one exactly when one is unanswered. */
    lemma LostIsUnanswered()
      requires Sound()
      ensures View().ini == 0 ==> (View().lost <==> mainReqs.answered != mainReqs.issued)
    {
      if View().ini == 0 {
        mainReqs.DoneMeansAnswered();
      }
    }

    /** `main_loop`: the sources take turns, the uplink first, until the process is told to
        stop or the given turns are used up. Main asks for a snapshot with all its ports
        answered, stays coupled to the uplink and retries as the lemmas about runs say. */
    method MainLoop(turns: seq<TurnIn>) returns (ghost ins: seq<Input>)
      requires Sound()
      modifies this, mainReqs, uplinkReqs, counter, AllReqs()
      ensures Sound() && View() == RunTurns(old(View()), ins) && AllMatch(old(View()), turns, ins)
      ensures |ins| < |turns| ==> !running
      ensures Base(old(View())) ==> Bounded(View()) && AllAnswered(old(View()), ins)
      ensures forall p :: Agrees(old(View()), p) ==> Agrees(View(), RecallRun(old(View()), ins, p))
      ensures Inv(old(View())) && Coupled(old(View())) && TimelyRun(old(View()), ins) ==>
                (AllCoupled(old(View()), ins) <==> NeverOvertaken(old(View()), ins))
    {
      hide ControlLoop.Turn, Sound, View, AllMatch, Matches, RunTurns, Base, Inv, Coupled, Bounded, TimelyRun,
           AllCoupled, NeverOvertaken, AllAnswered, Agrees, RecallRun;
      ins := [];
      MatchNone(View(), turns);
      var src, k := Main, 0;
      while k < |turns| && running
        invariant 0 <= k == |ins| <= |turns| && Sound() && fresh(AllReqs() - old(AllReqs()))
        invariant src == if k % 2 == 0 then Main else Uplink
        invariant View() == RunTurns(old(View()), ins) && AllMatch(old(View()), turns, ins)
      {
        src := if src == Main then Uplink else Main;
        WhoseTurn(k);
        var t := turns[k];
        ghost var a1 := AllReqs();
        ghost var i := Turn(src, t.timers, t.io, t.ports, t.polled);
        assert AllReqs() - old(AllReqs()) <= (AllReqs() - a1) + (a1 - old(AllReqs()));
        MatchMore(old(View()), turns, ins, i);
        ins := ins + [i];
        k := k + 1;
      }
      Conclude(old(View()), ins);
    }
  }

  lemma WhoseTurn(k: nat)
    ensures Whose(k) == if k % 2 == 0 then Uplink else Main
  {
  }

  lemma Conclude(c: Ctl, ins: seq<Input>)
    ensures Base(c) ==> Bounded(RunTurns(c, ins)) && AllAnswered(c, ins)
    ensures forall p :: Agrees(c, p) ==> Agrees(RunTurns(c, ins), RecallRun(c, ins, p))
    ensures Inv(c) && Coupled(c) && TimelyRun(c, ins) ==> (AllCoupled(c, ins) <==> NeverOvertaken(c, ins))
  {
    hide *;
    if Base(c) {
      RunBounds(c, ins);
      RunAnswers(c, ins);
    }
    forall p | Agrees(c, p)
      ensures Agrees(RunTurns(c, ins), RecallRun(c, ins, p))
    {
      RunRecalls(c, ins, p);
    }
    if Inv(c) && Coupled(c) && TimelyRun(c, ins) {
      RunCouples(c, ins);
    }
  }

  /** The process from its start. */
  method Process(turns: seq<TurnIn>) returns (c: Controller, ghost ins: seq<Input>)
    ensures c.Sound() && c.View() == RunTurns(START, ins) && AllMatch(START, turns, ins)
    ensures |ins| < |turns| ==> !c.running
    ensures Bounded(c.View()) && AllAnswered(START, ins)
    ensures Agrees(c.View(), RecallRun(START, ins, Past(0, false)))
    ensures TimelyRun(START, ins) ==> (AllCoupled(START, ins) <==> NeverOvertaken(START, ins))
  {
    c := new Controller();
    assert Inv(START) && Coupled(START) && Agrees(START, Past(0, false));
    ins := c.MainLoop(turns);
  }
}
