/** Whole runs of the command cache of src/control.c against what it is for: one queue of
    commands for each interface. */
module CfgIfRuns {
  import opened CStrings
  import opened CfgIfList

  // ----- one queue of commands for each interface -----

  type Args = seq<string>

  /** Only interfaces with a command waiting have a queue. `made` is whether there is a list. */
  datatype Queues = Queues(made: bool, of: map<string, seq<Args>>) {
    function Waiting(name: string): seq<Args> {
      if name in of then of[name] else []
    }

    function With(name: string, q: seq<Args>): Queues {
      this.(of := if q == [] then of - {name} else of[name := q])
    }

    ghost predicate Proper() {
      forall name :: name in of ==> of[name] != []
    }
  }

  /** A command to be kept, with the answers of the allocations it may need; the oldest command
      of an interface dropped; an interface's commands offered to a handler, or to none; the list
      given up. */
  datatype Call =
    | Keep(name: string, argv: Args, multi: bool, listRoom: bool, room: bool, bufRoom: bool, argRoom: bool)
    | Drop(name: string)
    | Offer(name: string, handler: bool, verdict: nat -> int)
    | Close

  /** How many of `n` commands the handler takes before its first refusal. */
  function Taken(n: nat, verdict: nat -> int, k: nat := 0): (r: nat)
    requires k <= n
    ensures k <= r <= n
    decreases n - k
  {
    if k == n || verdict(k) != 0 then k else Taken(n, verdict, k + 1)
  }

  lemma {:induction false} TakenIs(n: nat, verdict: nat -> int, done: nat, k: nat)
    requires k <= done <= n && Took(verdict, done)
    requires done < n ==> verdict(done) != 0
    ensures Taken(n, verdict, k) == done
    decreases done - k
  {
    if k < done {
      TakenIs(n, verdict, done, k + 1);
    }
  }

  /** Without a handler all go. */
  function Gone(c: Call, q: seq<Args>): (k: nat)
    requires c.Offer?
    ensures k <= |q|
  {
    if c.handler then Taken(|q|, c.verdict) else |q|
  }

  /** A command that is refused before the list is touched. */
  predicate Early(qs: Queues, c: Call)
    requires c.Keep?
  {
    || !(qs.made || c.listRoom) || |c.name| >= IFNAMSIZ
    || (!c.room && (c.multi || qs.Waiting(c.name) == []))
  }

  /** The calls that work on queues: a command without arguments does not, nor does one behind
      others that finds no memory for its arguments. */
  predicate Fits(qs: Queues, c: Call) {
    c.Keep? && !Early(qs, c) ==>
      c.argv != [] && ((c.bufRoom && c.argRoom) || !c.multi || qs.Waiting(c.name) == [])
  }

  function Kept(qs: Queues, c: Call): Queues
    requires c.Keep? && Fits(qs, c)
  {
    var q, made := qs.Waiting(c.name), qs.(made := qs.made || c.listRoom);
    if Early(qs, c) then made
    else if !(c.bufRoom && c.argRoom) then made.With(c.name, if q == [] then [] else q[1..])
    else made.With(c.name, if c.multi || q == [] then q + [c.argv] else [c.argv] + q[1..])
  }

  function Next(qs: Queues, c: Call): Queues
    requires Fits(qs, c)
  {
    match c
    case Keep(_, _, _, _, _, _, _) => Kept(qs, c)
    case Drop(name) =>
      var q := qs.Waiting(name);
      qs.With(name, if q == [] then [] else q[1..])
    case Offer(name, _, _) =>
      var q := qs.Waiting(name);
      var qs' := qs.With(name, q[Gone(c, q)..]);
      qs'.(made := qs.made && qs'.of != map[])
    case Close => qs.(made := qs.made && qs.of != map[])
  }

  function Reply(qs: Queues, c: Call): int {
    match c
    case Keep(name, argv, multi, listRoom, room, bufRoom, argRoom) =>
      if qs.made || listRoom then
        if |name| >= IFNAMSIZ then EINVAL
        else if Early(qs, c) then ENOMEM
        else if argv == [] then EINVAL
        else if bufRoom && argRoom then 0 else ENOMEM
      else ENOMEM
    case Drop(name) => if qs.Waiting(name) == [] then ENOENT else 0
    case Offer(name, _, verdict) =>
      var q := qs.Waiting(name);
      if Gone(c, q) < |q| then verdict(Gone(c, q)) else 0
    case Close => if qs.made && qs.of == map[] then 0 else EINVAL
  }

  /** What the handler is shown: the commands it takes and the one it refuses. */
  function Shown(qs: Queues, c: Call): seq<Args> {
    if c.Offer? && c.handler then
      var q := qs.Waiting(c.name);
      q[..if Gone(c, q) < |q| then Gone(c, q) + 1 else |q|]
    else []
  }

  predicate AllFit(qs: Queues, calls: seq<Call>)
    decreases |calls|, 0
  {
    calls == [] ||
    (AllFit(qs, calls[..|calls| - 1]) && Fits(After(qs, calls[..|calls| - 1]), calls[|calls| - 1]))
  }

  function After(qs: Queues, calls: seq<Call>): Queues
    requires AllFit(qs, calls)
    decreases |calls|, 1
  {
    if calls == [] then qs else Next(After(qs, calls[..|calls| - 1]), calls[|calls| - 1])
  }

  // ----- the list as those queues -----

  function Packed(q: seq<Args>): (r: seq<Stored>)
    ensures |r| == |q|
  {
    if q == [] then [] else Packed(q[..|q| - 1]) + [Command(Pack(q[|q| - 1]), Offsets(q[|q| - 1]))]
  }

  lemma {:induction false} PackedAt(q: seq<Args>, k: nat)
    requires k < |q|
    ensures Packed(q)[k] == Command(Pack(q[k]), Offsets(q[k]))
  {
    hide Pack, Offsets;
    if k < |q| - 1 {
      PackedAt(q[..|q| - 1], k);
    }
  }

  ghost predicate Matches(es: seq<Entry>, qs: Queues) {
    qs.Proper() && forall name :: Queue(es, name) == Packed(qs.Waiting(name))
  }

  lemma MatchesAt(es: seq<Entry>, qs: Queues, name: string)
    requires Matches(es, qs)
    ensures Queue(es, name) == Packed(qs.Waiting(name))
  {
  }

  lemma {:induction false} InItsQueue(es: seq<Entry>, k: nat)
    requires k < |es|
    ensures es[k].stored in Queue(es, es[k].ifname)
  {
    if k < |es| - 1 {
      InItsQueue(es[..|es| - 1], k);
    }
  }

  /** A list that matches queues has a command in every entry. */
  lemma MatchesClean(es: seq<Entry>, qs: Queues)
    requires Matches(es, qs)
    ensures AllCommands(es) && NoneFreed(es)
    ensures es == [] <==> qs.of == map[]
  {
    hide Queue;
    forall k | 0 <= k < |es|
      ensures es[k].stored.Command? && es[k].ifname in qs.of
    {
      InItsQueue(es, k);
      var q := qs.Waiting(es[k].ifname);
      var j :| 0 <= j < |q| && Packed(q)[j] == es[k].stored;
      PackedAt(q, j);
    }
    if es == [] {
      forall name
        ensures name !in qs.of
      {
        NoneQueued(es, name);
        assert Queue(es, name) == Packed(qs.Waiting(name));
      }
      assert qs.of == map[];
    } else {
      assert es[0].ifname in qs.of;
    }
  }

  /** Only one interface's queue changed. */
  lemma OneChanged(es: seq<Entry>, es': seq<Entry>, qs: Queues, name: string, q: seq<Args>)
    requires Matches(es, qs) && Rest(es', name) == Rest(es, name) && Queue(es', name) == Packed(q)
    ensures Matches(es', qs.With(name, q))
  {
    hide Queue, Rest, Packed;
    var qs' := qs.With(name, q);
    forall n
      ensures Queue(es', n) == Packed(qs'.Waiting(n))
    {
      if n != name {
        QueueOfRest(es, name, n);
        QueueOfRest(es', name, n);
        assert Queue(es, n) == Packed(qs.Waiting(n));
      }
    }
  }

  lemma SameQueues(es: seq<Entry>, qs: Queues, made: bool)
    requires Matches(es, qs)
    ensures Matches(es, qs.(made := made))
  {
    forall name
      ensures Queue(es, name) == Packed(qs.(made := made).Waiting(name))
    {
      assert qs.(made := made).Waiting(name) == qs.Waiting(name);
    }
  }

  lemma {:induction false} PackedJoin(a: seq<Args>, b: seq<Args>)
    ensures Packed(a + b) == Packed(a) + Packed(b)
    decreases |b|
  {
    hide Pack, Offsets;
    if b == [] {
      assert a + b == a;
    } else {
      var init := b[..|b| - 1];
      PackedJoin(a, init);
      assert (a + b)[..|a + b| - 1] == a + init;
    }
  }

  lemma PackedSplit(q: seq<Args>, k: nat)
    requires k <= |q|
    ensures Packed(q[k..]) == Packed(q)[k..] && Packed(q[..k]) == Packed(q)[..k]
  {
    hide Packed;
    assert q[..k] + q[k..] == q;
    PackedJoin(q[..k], q[k..]);
  }

  lemma PackedOne(argv: Args)
    ensures Packed([argv]) == [Command(Pack(argv), Offsets(argv))]
  {
    hide Pack, Offsets;
  }

  /** A queue with a command put behind, or over its first. */
  lemma PackedPut(q: seq<Args>, argv: Args)
    ensures Packed(q + [argv]) == Packed(q) + [Command(Pack(argv), Offsets(argv))]
    ensures q != [] ==> Packed([argv] + q[1..]) == [Command(Pack(argv), Offsets(argv))] + Packed(q)[1..]
  {
    hide Pack, Offsets, Packed;
    PackedOne(argv);
    PackedJoin(q, [argv]);
    if q != [] {
      PackedSplit(q, 1);
      PackedJoin([argv], q[1..]);
    }
  }

  /** What a handler is shown reads back as the command that was kept. */
  lemma ShownReads(q: seq<Args>, k: nat, i: nat)
    requires k < |q| && i < |q[k]| && forall j :: 0 <= j < |q[k]| ==> NulFree(q[k][j])
    ensures var s := Packed(q)[k];
            && s.Command? && |s.at| == |q[k]| && s.at[i] < |s.buf|
            && CString(s.buf, s.at[i]) == q[k][i]
  {
    PackedAt(q, k);
    PackReads(q[k], i);
  }

  // ----- one call -----

  lemma KeptFits(es: seq<Entry>, qs: Queues, c: Call)
    requires c.Keep? && Matches(es, qs) && (qs.made || c.listRoom)
    ensures Fits(qs, c) <==> AllCommands(Added(es, c.name, c.argv, c.multi, c.room, c.bufRoom && c.argRoom))
    ensures Reply(qs, c) == AddResult(es, c.name, c.argv, c.multi, c.room, c.bufRoom && c.argRoom)
  {
    hide Queue, Added, Pack, Offsets, Matches, Packed;
    var mem := c.bufRoom && c.argRoom;
    MatchesClean(es, qs);
    QueueEmpty(es, c.name);
    MatchesAt(es, qs, c.name);
    if AddResult(es, c.name, c.argv, c.multi, c.room, mem) == 0 {
      AddedClean(es, c.name, c.argv, c.multi, c.room, mem);
    } else {
      RefusedAdd(es, c.name, c.argv, c.multi, c.room, mem);
    }
  }

  lemma BackedOutQueue(es: seq<Entry>, name: string)
    ensures var q, es' := Queue(es, name), BackedOut(es, name, First(es, name));
            && Queue(es', name) == (if q == [] then [] else q[1..])
            && Rest(es', name) == Rest(es, name)
  {
    hide Queue, Rest;
    QueueEmpty(es, name);
    if First(es, name) < |es| {
      DelFirst(es, name);
    }
  }

  lemma KeptMatches(es: seq<Entry>, qs: Queues, c: Call)
    requires c.Keep? && Matches(es, qs) && (qs.made || c.listRoom) && Fits(qs, c)
    ensures Matches(Added(es, c.name, c.argv, c.multi, c.room, c.bufRoom && c.argRoom), Kept(qs, c))
  {
    hide Queue, Rest, Packed, Pack, Offsets, Matches;
    var q, qs' := qs.Waiting(c.name), qs.(made := true);
    MatchesAt(es, qs, c.name);
    SameQueues(es, qs, true);
    QueueEmpty(es, c.name);
    if !Early(qs, c) {
      var mem := c.bufRoom && c.argRoom;
      var es' := Added(es, c.name, c.argv, c.multi, c.room, mem);
      if mem {
        AddedQueues(es, c.name, c.argv, c.multi, c.room, mem);
        PackedPut(q, c.argv);
        OneChanged(es, es', qs', c.name, if c.multi || q == [] then q + [c.argv] else [c.argv] + q[1..]);
      } else {
        BackedOutQueue(es, c.name);
        PackedSplit(q, if q == [] then 0 else 1);
        OneChanged(es, es', qs', c.name, if q == [] then [] else q[1..]);
      }
    }
  }

  /** The cache holds those queues and has freed nothing twice. */
  ghost predicate Holds(cache: Cache, qs: Queues)
    reads cache
  {
    cache.Valid() && !cache.broken && cache.exists_ == qs.made && Matches(cache.entries, qs)
  }

  /** A queue loses its first commands. */
  lemma LostSome(es: seq<Entry>, es': seq<Entry>, qs: Queues, name: string, k: nat)
    requires Matches(es, qs) && k <= |qs.Waiting(name)|
    requires Rest(es', name) == Rest(es, name) && Queue(es', name) == Queue(es, name)[k..]
    ensures Matches(es', qs.With(name, qs.Waiting(name)[k..]))
  {
    hide Queue, Rest, Packed, Matches;
    MatchesAt(es, qs, name);
    PackedSplit(qs.Waiting(name), k);
    OneChanged(es, es', qs, name, qs.Waiting(name)[k..]);
  }

  method DoKeep(cache: Cache, c: Call, ghost qs: Queues, ghost good: bool) returns (rv: int)
    requires c.Keep? && cache.Valid() && (good ==> Holds(cache, qs))
    modifies cache
    ensures cache.Valid()
    ensures good ==> (Fits(qs, c) <==> AllCommands(cache.entries)) && rv == Reply(qs, c)
    ensures good && Fits(qs, c) ==> Holds(cache, Kept(qs, c))
  {
    ghost var es := cache.entries;
    if good {
      MatchesClean(es, qs);
      if qs.made || c.listRoom {
        KeptFits(es, qs, c);
        if Fits(qs, c) {
          KeptMatches(es, qs, c);
        }
      } else {
        SameQueues(es, qs, false);
      }
    }
    hide Matches, Added, AddResult;
    if c.multi {
      rv := cache.CacheCommand(c.name, c.argv, c.listRoom, c.room, c.bufRoom, c.argRoom);
    } else {
      if !cache.exists_ {
        cache.Create(c.listRoom);
      }
      if !cache.exists_ {
        return ENOMEM;
      }
      rv := cache.Add(c.name, c.argv, false, c.room, c.bufRoom, c.argRoom);
    }
  }

  lemma Dropped(es: seq<Entry>, qs: Queues, c: Call)
    requires c.Drop? && Matches(es, qs)
    ensures First(es, c.name) < |es| <==> qs.Waiting(c.name) != []
    ensures var k := First(es, c.name);
            Matches(if k < |es| then es[..k] + es[k + 1..] else es, Next(qs, c))
  {
    hide Queue, Rest, Packed, Matches;
    MatchesAt(es, qs, c.name);
    QueueEmpty(es, c.name);
    if First(es, c.name) < |es| {
      DelFirst(es, c.name);
      LostSome(es, es[..First(es, c.name)] + es[First(es, c.name) + 1..], qs, c.name, 1);
    } else {
      LostSome(es, es, qs, c.name, 0);
    }
  }

  method DoDrop(cache: Cache, c: Call, ghost qs: Queues, ghost good: bool) returns (rv: int)
    requires c.Drop? && cache.Valid() && (good ==> Holds(cache, qs))
    modifies cache
    ensures cache.Valid()
    ensures good ==> Holds(cache, Next(qs, c)) && rv == Reply(qs, c)
  {
    hide Matches;
    if good {
      MatchesClean(cache.entries, qs);
      Dropped(cache.entries, qs, c);
    }
    rv := cache.Del(c.name);
  }

  lemma Offered(es: seq<Entry>, es': seq<Entry>, qs: Queues, c: Call, rv: int, calls: seq<Stored>, done: nat)
    requires c.Offer? && Matches(es, qs) && Rest(es', c.name) == Rest(es, c.name)
    requires Replayed(Queue(es, c.name), Queue(es', c.name), c.handler, c.verdict, rv, calls, done)
    ensures Matches(es', Next(qs, c)) && Next(qs, c).made == (qs.made && es' != [])
    ensures rv == Reply(qs, c) && (rv != 0 ==> es' != [])
    ensures calls == Packed(Shown(qs, c))
  {
    hide Queue, Rest, Packed, Matches;
    MatchesAt(es, qs, c.name);
    var q := qs.Waiting(c.name);
    if c.handler {
      TakenIs(|q|, c.verdict, done, 0);
    }
    LostSome(es, es', qs, c.name, done);
    var qs' := qs.With(c.name, q[done..]);
    MatchesClean(es', qs');
    SameQueues(es', qs', qs.made && qs'.of != map[]);
    PackedSplit(q, if done < |q| then done + 1 else |q|);
    assert Packed(q)[..|q|] == Packed(q) && Packed([]) == [];
    if es' == [] {
      NoneQueued(es', c.name);
    }
  }

  method DoOffer(cache: Cache, c: Call, ghost qs: Queues, ghost good: bool) returns (rv: int, shown: seq<Stored>)
    requires c.Offer? && cache.Valid() && (good ==> Holds(cache, qs))
    modifies cache
    ensures cache.Valid()
    ensures good ==> Holds(cache, Next(qs, c)) && rv == Reply(qs, c) && shown == Packed(Shown(qs, c))
  {
    hide Matches, Replayed, Next, Reply, Shown;
    ghost var es := cache.entries;
    if good {
      MatchesClean(es, qs);
    }
    ghost var done;
    rv, shown, done := cache.Replay(c.name, c.handler, c.verdict);
    if good {
      Offered(es, cache.entries, qs, c, rv, shown, done);
    }
  }

  /** One call keeps the cache in step with the queues exactly when it fits them. */
  method Do(cache: Cache, c: Call, ghost qs: Queues, ghost good: bool) returns (rv: int, shown: seq<Stored>)
    requires cache.Valid() && (good ==> Holds(cache, qs))
    modifies cache
    ensures cache.Valid()
    ensures good ==> (Fits(qs, c) <==> AllCommands(cache.entries))
    ensures good ==> rv == Reply(qs, c) && shown == Packed(Shown(qs, c))
    ensures good && Fits(qs, c) ==> Holds(cache, Next(qs, c))
  {
    shown := [];
    match c {
    case Keep(_, _, _, _, _, _, _) =>
      rv := DoKeep(cache, c, qs, good);
    case Drop(_) =>
      rv := DoDrop(cache, c, qs, good);
    case Offer(_, _, _) =>
      rv, shown := DoOffer(cache, c, qs, good);
    case Close =>
      if good {
        MatchesClean(cache.entries, qs);
        SameQueues(cache.entries, qs, qs.made && qs.of != map[]);
      }
      rv := cache.Destroy();
    }
    if good && Fits(qs, c) {
      MatchesClean(cache.entries, Next(qs, c));
    }
  }

  // ----- any run -----

  predicate AllClean(seen: seq<seq<Entry>>) {
    forall i :: 0 <= i < |seen| ==> AllCommands(seen[i])
  }

  lemma CleanNext(seen: seq<seq<Entry>>, es: seq<Entry>)
    ensures AllClean(seen + [es]) <==> AllClean(seen) && AllCommands(es)
  {
    hide AllCommands;
    assert (seen + [es])[|seen|] == es;
    if AllClean(seen + [es]) {
      assert forall i :: 0 <= i < |seen| ==> seen[i] == (seen + [es])[i];
    }
  }

  /** Over any calls, every entry holds a command after each call if and only if every call fits
      the queues. The list is then those queues at the end, nothing was freed twice, every reply
      is the one the queues give, and every handler was shown exactly the commands they hold.
      `seen` is the list before the first call and after each. */
  method Run(cache: Cache, calls: seq<Call>, ghost qs: Queues)
    returns (replies: seq<int>, shown: seq<seq<Stored>>, ghost seen: seq<seq<Entry>>)
    requires Holds(cache, qs)
    modifies cache
    ensures cache.Valid() && |replies| == |shown| == |calls| && |seen| == |calls| + 1
    ensures seen[0] == old(cache.entries) && seen[|calls|] == cache.entries
    ensures AllFit(qs, calls) <==> AllClean(seen)
    ensures AllFit(qs, calls) ==> Holds(cache, After(qs, calls)) && cache.Clean()
    ensures forall i :: 0 <= i < |calls| && AllFit(qs, calls[..i]) ==>
                          && replies[i] == Reply(After(qs, calls[..i]), calls[i])
                          && shown[i] == Packed(Shown(After(qs, calls[..i]), calls[i]))
  {
    hide Matches, Packed, Fits, Reply, Next, Shown, AllCommands;
    replies, shown, seen := [], [], [cache.entries];
    ghost var good := true;
    MatchesClean(cache.entries, qs);
    for n := 0 to |calls|
      invariant cache.Valid() && |replies| == |shown| == n && |seen| == n + 1
      invariant seen[0] == old(cache.entries) && seen[n] == cache.entries
      invariant good == AllFit(qs, calls[..n])
      invariant good <==> AllClean(seen)
      invariant good ==> Holds(cache, After(qs, calls[..n]))
      invariant forall i :: 0 <= i < n && AllFit(qs, calls[..i]) ==>
                              && replies[i] == Reply(After(qs, calls[..i]), calls[i])
                              && shown[i] == Packed(Shown(After(qs, calls[..i]), calls[i]))
    {
      assert calls[..n + 1][..n] == calls[..n];
      ghost var now := if good then After(qs, calls[..n]) else qs;
      var rv, s := Do(cache, calls[n], now, good);
      CleanNext(seen, cache.entries);
      replies, shown, seen := replies + [rv], shown + [s], seen + [cache.entries];
      good := good && Fits(now, calls[n]);
    }
    assert calls[..|calls|] == calls;
    if good {
      MatchesClean(cache.entries, After(qs, calls));
    }
  }

  /** The second of two commands for one interface finds no memory for its arguments: it is
      refused, and the run does not fit any more. */
  lemma RefusedExample(name: string, argv: Args)
    requires |name| < IFNAMSIZ && argv != []
    ensures var qs, first := Queues(false, map[]), Keep(name, argv, true, true, true, true, true);
            var second := first.(argRoom := false);
            && AllFit(qs, [first]) && !AllFit(qs, [first, second])
            && Reply(After(qs, [first]), second) == ENOMEM && After(qs, [first]).Waiting(name) == [argv]
  {
    var qs, first := Queues(false, map[]), Keep(name, argv, true, true, true, true, true);
    var second := first.(argRoom := false);
    assert [first][..0] == [] && [first, second][..1] == [first];
    assert AllFit(qs, []) && After(qs, []) == qs;
    assert AllFit(qs, [first]) && After(qs, [first]) == Next(qs, first);
    assert Next(qs, first).Waiting(name) == [] + [argv] == [argv];
  }

  /** The refusal took the older command's entry and left a blank one. Deleting that one, as a
      replay does, leaves a list that holds commands only: at the end the failure does not show. */
  lemma CleanAgain(name: string, argv: Args)
    requires |name| < IFNAMSIZ && argv != []
    ensures var es := [Entry(name, Command(Pack(argv), Offsets(argv)))];
            var es' := Added(es, name, argv, true, true, false);
            var k := First(es', name);
            && AllCommands(es) && es' == [Entry(name, Nothing)] && !AllCommands(es')
            && k == 0 && AllCommands(es'[..k] + es'[k + 1..])
  {
    hide Pack, Offsets;
    var es := [Entry(name, Command(Pack(argv), Offsets(argv)))];
    assert First(es, name) == 0;
    assert Added(es, name, argv, true, true, false) == [Entry(name, Nothing)];
    assert [Entry(name, Nothing)][0].stored == Nothing;
  }
}
