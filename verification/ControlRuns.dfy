/** Runs of the main loop: what `ControlLoop` states of one turn, at every turn of every run. */
module ControlRuns {
  import opened ControlLoop

  /** What happens in one turn. */
  datatype Input = Input(timers: seq<Effect>, io: Io, es: seq<Effect>)

  /** The sources take turns, the uplink first. */
  function Whose(n: nat): Src {
    if n % 2 == 0 then Uplink else Main
  }

  function RunTurns(c: Ctl, ins: seq<Input>): Ctl {
    if ins == [] then c
    else
      var i := ins[|ins| - 1];
      Turn(RunTurns(c, ins[..|ins| - 1]), Whose(|ins| - 1), i.timers, i.io, i.es)
  }

  const START: Ctl := Ctl(Idle, Idle, false, false, RETRY_MIN, true, 0, 0, 0, false)

  // ----- what needs no hypothesis -----

  lemma TurnKeeps(c: Ctl, src: Src, i: Input)
    requires Base(c)
    ensures Base(Turn(c, src, i.timers, i.io, i.es))
  {
    EffectsKeep(c, i.timers);
    SwitchKeeps(ApplyAll(c, i.timers), src, i.io, i.es);
  }

  /** In every run the retry delay is a multiple of the minimum and at most the maximum and
      one minimum more. */
  lemma {:induction false} RunBounds(c: Ctl, ins: seq<Input>)
    requires Base(c)
    ensures Base(RunTurns(c, ins)) && Bounded(RunTurns(c, ins))
  {
    if ins != [] {
      RunBounds(c, ins[..|ins| - 1]);
      TurnKeeps(RunTurns(c, ins[..|ins| - 1]), Whose(|ins| - 1), ins[|ins| - 1]);
    }
  }

  /** This turn is main's, finds it waiting for its ports and leaves it asking for a snapshot. */
  predicate Leaves(c: Ctl, src: Src, i: Input) {
    && src == Main && ApplyAll(c, i.timers).main == SetupWait
    && Turn(c, src, i.timers, i.io, i.es).main == ResyncNeeded
  }

  predicate Answered(c: Ctl, src: Src, i: Input) {
    Leaves(c, src, i) ==>
      var c' := Turn(c, src, i.timers, i.io, i.es);
      c'.ini == 0 && (c'.lost <==> Discards(ApplyAll(c, i.timers), i.es))
  }

  ghost predicate AllAnswered(c: Ctl, ins: seq<Input>) {
    forall k :: 0 <= k < |ins| ==> Answered(RunTurns(c, ins[..k]), Whose(k), ins[k])
  }

  lemma TurnAnswers(c: Ctl, src: Src, i: Input)
    requires Base(c)
    ensures Answered(c, src, i)
  {
    if Leaves(c, src, i) {
      EffectsKeep(c, i.timers);
      SwitchAnswers(ApplyAll(c, i.timers), i.io, i.es);
    }
  }

  /** Whenever main asks for a snapshot after its ports, every INIPORT of the connection is
      answered if and only if no callback of that poll took main to idle while one was not. */
  lemma RunAnswers(c: Ctl, ins: seq<Input>)
    requires Base(c)
    ensures AllAnswered(c, ins)
  {
    forall k | 0 <= k < |ins|
      ensures Answered(RunTurns(c, ins[..k]), Whose(k), ins[k])
    {
      RunBounds(c, ins[..k]);
      TurnAnswers(RunTurns(c, ins[..k]), Whose(k), ins[k]);
    }
  }

  // ----- the coupling -----

  predicate TimelyTurn(c: Ctl, src: Src, i: Input) {
    && AllTimely(c, i.timers)
    && var c1 := ApplyAll(c, i.timers); (Polls(c1, src) ==> AllTimely(c1, i.es))
  }

  predicate TimelyRun(c: Ctl, ins: seq<Input>) {
    ins == [] ||
    var before, i := ins[..|ins| - 1], ins[|ins| - 1];
    TimelyRun(c, before) && TimelyTurn(RunTurns(c, before), Whose(|before|), i)
  }

  predicate OvertakenTurn(c: Ctl, src: Src, i: Input) {
    Overtaken(ApplyAll(c, i.timers), src, i.es)
  }

  predicate NeverOvertaken(c: Ctl, ins: seq<Input>) {
    ins == [] ||
    var before, i := ins[..|ins| - 1], ins[|ins| - 1];
    NeverOvertaken(c, before) && !OvertakenTurn(RunTurns(c, before), Whose(|before|), i)
  }

  ghost predicate AllCoupled(c: Ctl, ins: seq<Input>) {
    forall n :: 0 <= n <= |ins| ==> Coupled(RunTurns(c, ins[..n]))
  }

  lemma TurnCouples(c: Ctl, src: Src, i: Input)
    requires Inv(c) && Coupled(c) && TimelyTurn(c, src, i)
    ensures var c' := Turn(c, src, i.timers, i.io, i.es);
            Inv(c') && (Coupled(c') <==> !OvertakenTurn(c, src, i))
  {
    EffectsKeep(c, i.timers);
    SwitchCouples(ApplyAll(c, i.timers), src, i.io, i.es);
  }

  /** In every run the machines are coupled at every turn so far exactly when no poll
      overtook main waiting for its ports. */
  lemma {:induction false} RunCouples(c: Ctl, ins: seq<Input>)
    requires Inv(c) && Coupled(c) && TimelyRun(c, ins)
    ensures AllCoupled(c, ins) <==> NeverOvertaken(c, ins)
    ensures NeverOvertaken(c, ins) ==> Inv(RunTurns(c, ins))
  {
    assert ins[..|ins|] == ins;
    if ins == [] {
      assert forall n :: 0 <= n <= |ins| ==> ins[..n] == [];
    } else {
      var before := ins[..|ins| - 1];
      RunCouples(c, before);
      assert forall n :: 0 <= n <= |before| ==> ins[..n] == before[..n];
      if NeverOvertaken(c, before) {
        assert before[..|before|] == before;
        TurnCouples(RunTurns(c, before), Whose(|before|), ins[|ins| - 1]);
        forall n | 0 <= n <= |ins|
          ensures n < |ins| ==> Coupled(RunTurns(c, ins[..n]))
        {
          if n < |ins| {
            assert Coupled(RunTurns(c, before[..n]));
          }
        }
      } else {
        var n :| 0 <= n <= |before| && !Coupled(RunTurns(c, before[..n]));
        assert !Coupled(RunTurns(c, ins[..n]));
      }
    }
  }

  // ----- two such runs -----

  const WELL: Io := Io(true, true, true, true, 0, 0, true, true, false)

  /** A timely run of `n` turns from the start leads to `c`. */
  ghost predicate Reaches(n: nat, c: Ctl) {
    exists ins: seq<Input> :: |ins| == n && TimelyRun(START, ins) && RunTurns(START, ins) == c
  }

  lemma ReachesNext(n: nat, c: Ctl, io: Io, es: seq<Effect>)
    requires Reaches(n, c) && AllTimely(c, es)
    ensures Reaches(n + 1, Switch(c, Whose(n), io, es))
  {
    var ins: seq<Input> :| |ins| == n && TimelyRun(START, ins) && RunTurns(START, ins) == c;
    var next := ins + [Input([], io, es)];
    assert next[..|next| - 1] == ins;
    hide Switch, Timely;
    assert TimelyRun(START, next) && RunTurns(START, next) == Switch(c, Whose(n), io, es);
  }

  /** Two turns without callbacks, the uplink's and main's. */
  lemma ReachesQuietly(n: nat, c: Ctl, io: Io)
    requires n % 2 == 0 && Reaches(n, c)
    ensures Reaches(n + 2, Switch(Switch(c, Uplink, WELL, []), Main, io, []))
  {
    hide Switch, Reaches;
    ReachesNext(n, c, WELL, []);
    ReachesNext(n + 1, Switch(c, Uplink, WELL, []), io, []);
  }

  lemma ReachesStart()
    ensures Reaches(0, START)
  {
    var none: seq<Input> := [];
    assert RunTurns(START, none) == START && TimelyRun(START, none);
  }

  lemma UplinkConnects()
    ensures Reaches(8, START.(uplink := Setup))
  {
    hide Reaches;
    ReachesStart();
    ReachesQuietly(0, START, WELL);
    ReachesQuietly(2, START.(uplink := SocketCreate), WELL);
    ReachesQuietly(4, START.(uplink := Connect), WELL);
    ReachesQuietly(6, START.(uplink := ConnectWait), WELL);
  }

  lemma UplinkResyncs()
    ensures Reaches(14, START.(uplink := Resync))
  {
    UplinkConnects();
    hide Reaches;
    ReachesQuietly(8, START.(uplink := Setup), WELL);
    ReachesQuietly(10, START.(uplink := SetupWait), WELL);
    ReachesQuietly(12, START.(uplink := ResyncNeeded), WELL);
  }

  lemma UplinkComesUp()
    ensures Reaches(15, START.(uplink := Ready, addr := true, ipSet := true))
  {
    UplinkResyncs();
    hide Reaches;
    var c, es := START.(uplink := Resync), [SnapshotEnd(Uplink, true, false), AddrAdd];
    assert es[..1] == [es[0]] && es[..1][..0] == [];
    assert ApplyAll(c, es[..1]) == Apply(c, es[0]);
    assert ApplyAll(c, es) == Apply(Apply(c, es[0]), es[1]);
    ReachesNext(14, c, WELL, es);
  }

  /** Main has asked about one port and waits for the answer. */
  const WAITING: Ctl := Ctl(SetupWait, Ready, true, true, RETRY_MIN, true, 1, 0, 0, false)

  lemma MainWaits()
    ensures Reaches(25, WAITING)
  {
    UplinkComesUp();
    var c := START.(uplink := Ready, addr := true, ipSet := true);
    hide Reaches;
    ReachesNext(15, c, WELL, []);
    ReachesQuietly(16, c.(main := SocketCreate), WELL);
    ReachesQuietly(18, c.(main := Connect), WELL);
    ReachesQuietly(20, c.(main := ConnectWait), WELL);
    ReachesQuietly(22, c.(main := Setup), WELL.(asked := 1));
    ReachesNext(24, WAITING, WELL, []);
  }

  /** From the start, with one port asked about and one answer of the local controller that
      cannot be used, main asks for its snapshot while the uplink is being reset. */
  lemma OvertakenRun()
    ensures exists c :: Reaches(26, c) && c.main == ResyncNeeded && c.uplink == Reset && c.lost && !Coupled(c)
  {
    MainWaits();
    hide Reaches;
    var es := [AsyncFail(Uplink, false)];
    assert es[..0] == [];
    assert ApplyAll(WAITING, es) == Apply(WAITING, es[0]);
    ReachesNext(25, WAITING, WELL, es);
  }

  /** From the start, with one port asked about and a reset by the operator, main asks for its
      snapshot without the answer, over a ready uplink. */
  lemma DiscardsRun()
    ensures exists c :: Reaches(26, c) && c.main == ResyncNeeded && c.lost && Coupled(c)
  {
    MainWaits();
    hide Reaches;
    var es := [ByHand(Main, false)];
    assert es[..0] == [];
    assert ApplyAll(WAITING, es) == Apply(WAITING, es[0]);
    ReachesNext(25, WAITING, WELL, es);
  }

  // ----- retries -----

  /** What the past says: the resets of main since it was last ready or reset by hand, the one
      by hand included, and whether one ended the process. */
  datatype Past = Past(resets: nat, ended: bool)

  /** It is read off the callbacks and timers, and off main becoming ready. */
  function Recall(c: Ctl, e: Effect, p: Past): Past {
    match e
    case ByHand(src, _) => if src == Main then p.(resets := 1) else p.(ended := true)
    case SnapshotEnd(src, _, _) => if src == Main && c.main == Resync then p.(resets := 0) else p
    case ResetFires(src) =>
      if src == Uplink || p.resets >= 4 then p.(ended := true) else p.(resets := p.resets + 1)
    case _ => p
  }

  function RecallAll(c: Ctl, es: seq<Effect>, p: Past): Past {
    if es == [] then p
    else Recall(ApplyAll(c, es[..|es| - 1]), es[|es| - 1], RecallAll(c, es[..|es| - 1], p))
  }

  function RecallTurn(c: Ctl, src: Src, i: Input, p: Past): Past {
    var c1, p1 := ApplyAll(c, i.timers), RecallAll(c, i.timers, p);
    if Polls(c1, src) then RecallAll(c1, i.es, p1) else p1
  }

  function RecallRun(c: Ctl, ins: seq<Input>, p: Past): Past {
    if ins == [] then p
    else
      var before := ins[..|ins| - 1];
      RecallTurn(RunTurns(c, before), Whose(|before|), ins[|ins| - 1], RecallRun(c, before, p))
  }

  /** The delay tells the resets, and the process runs until one ended it. */
  predicate Agrees(c: Ctl, p: Past) {
    p.resets <= 4 && c.delay == RETRY_MIN * (1 + p.resets) && c.running == !p.ended
  }

  lemma ResetRecalls(c: Ctl, src: Src, loses: bool)
    ensures var c' := ResetSrc(c, src, true, loses); c'.delay == c.delay && c'.running == c.running
  {
  }

  lemma ByHandRecalls(c: Ctl, src: Src, loses: bool)
    ensures var c' := ResetSrc(c, src, false, loses);
            if src == Main then c'.delay == 2 * RETRY_MIN && c'.running == c.running && c'.main == Idle
            else c'.delay == c.delay && !c'.running
  {
  }

  lemma ApplyRecalls(c: Ctl, e: Effect, p: Past)
    requires Agrees(c, p)
    ensures Agrees(Apply(c, e), Recall(c, e, p))
    ensures e == ResetFires(Main) ==>
              if p.resets < 4 then Apply(c, e).main == Idle && Apply(c, e).running == c.running
              else !Apply(c, e).running
  {
    hide ResetSrc;
    match e
    case AsyncFail(src, loses) => ResetRecalls(c, src, loses);
    case SnapshotEnd(src, keys, loses) => ResetRecalls(SetState(c, src, Ready), src, loses);
    case ByHand(src, loses) => ByHandRecalls(c, src, loses);
    case ConnectFires(src, loses) => ResetRecalls(c, src, loses);
    case SnapshotFires(src, loses) => ResetRecalls(c, src, loses);
    case ExpireFires(src, loses) => ResetRecalls(c, src, loses);
    case _ =>
  }

  lemma {:induction false} EffectsRecall(c: Ctl, es: seq<Effect>, p: Past)
    requires Agrees(c, p)
    ensures Agrees(ApplyAll(c, es), RecallAll(c, es, p))
  {
    if es != [] {
      EffectsRecall(c, es[..|es| - 1], p);
      ApplyRecalls(ApplyAll(c, es[..|es| - 1]), es[|es| - 1], RecallAll(c, es[..|es| - 1], p));
    }
  }

  lemma SwitchRecalls(c: Ctl, src: Src, io: Io, es: seq<Effect>, p: Past)
    requires Agrees(c, p)
    ensures Agrees(Switch(c, src, io, es), if Polls(c, src) then RecallAll(c, es, p) else p)
  {
    hide ResetSrc, ApplyAll, RecallAll;
    match StateOf(c, src) {
      case Connect =>
        ResetRecalls(c, src, io.loses);
        ResetRecalls(SetState(c, src, ConnectWait), src, io.loses);
        ResetRecalls(ResetSrc(c, src, true, io.loses), src, io.loses);
      case ConnectWait => ResetRecalls(c, src, io.loses);
      case Setup => ResetRecalls(AddAsked(c, src, io.asked), src, io.loses);
      case ResyncNeeded => ResetRecalls(c, src, io.loses);
      case Idle =>
      case SocketCreate =>
      case _ => EffectsRecall(c, es, p);
    }
  }

  /** Over every run the delay is the minimum once more for each reset of main since it was
      last ready or reset by hand, and the process runs until the uplink is reset or main for
      the fifth time. */
  lemma {:induction false} RunRecalls(c: Ctl, ins: seq<Input>, p: Past)
    requires Agrees(c, p)
    ensures Agrees(RunTurns(c, ins), RecallRun(c, ins, p))
  {
    if ins != [] {
      var before, i := ins[..|ins| - 1], ins[|ins| - 1];
      RunRecalls(c, before, p);
      var b, q, src := RunTurns(c, before), RecallRun(c, before, p), Whose(|before|);
      EffectsRecall(b, i.timers, q);
      SwitchRecalls(ApplyAll(b, i.timers), src, i.io, i.es, RecallAll(b, i.timers, q));
    }
  }

  /** At any point of any turn of a run, a reset that was delayed brings main back to idle with
      a longer delay, up to the fourth; the fifth ends the process. */
  lemma ResetInRun(c: Ctl, ins: seq<Input>, es: seq<Effect>, p: Past)
    requires Agrees(c, p)
    ensures var b := ApplyAll(RunTurns(c, ins), es);
            var q := RecallAll(RunTurns(c, ins), es, RecallRun(c, ins, p));
            var b' := Apply(b, ResetFires(Main));
            if q.resets < 4 then b'.main == Idle && b'.running == b.running && b'.delay == b.delay + RETRY_MIN
            else !b'.running
  {
    RunRecalls(c, ins, p);
    EffectsRecall(RunTurns(c, ins), es, RecallRun(c, ins, p));
    hide ApplyAll, RecallAll, RunTurns, RecallRun;
    ApplyRecalls(ApplyAll(RunTurns(c, ins), es), ResetFires(Main),
                 RecallAll(RunTurns(c, ins), es, RecallRun(c, ins, p)));
  }
}
