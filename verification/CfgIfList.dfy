/** Commands cached for interfaces that do not exist yet, from src/control.c. A command is kept
    with its arguments copied into one buffer, and replayed when its interface appears. */
module CfgIfList {
  import opened CStrings

  const IFNAMSIZ := 16
  const ENOENT := -2
  const ENOMEM := -12
  const EINVAL := -22

  // ----- the packed arguments -----

  function Pack(argv: seq<string>): seq<char> {
    if argv == [] then [] else Pack(argv[..|argv| - 1]) + (argv[|argv| - 1] + ['\0'])
  }

  function Offsets(argv: seq<string>): seq<nat> {
    if argv == [] then [] else Offsets(argv[..|argv| - 1]) + [|Pack(argv[..|argv| - 1])|]
  }

  lemma PackNext(argv: seq<string>, i: nat)
    requires i < |argv|
    ensures Pack(argv[..i + 1]) == Pack(argv[..i]) + (argv[i] + ['\0'])
    ensures Offsets(argv[..i + 1]) == Offsets(argv[..i]) + [|Pack(argv[..i])|]
  {
    assert argv[..i + 1][..i] == argv[..i];
  }

  lemma {:induction false} OffsetsAt(argv: seq<string>, i: nat)
    requires i < |argv|
    ensures |Offsets(argv)| == |argv| && Offsets(argv)[i] == |Pack(argv[..i])|
  {
    var init := argv[..|argv| - 1];
    if i < |init| {
      OffsetsAt(init, i);
      assert init[..i] == argv[..i];
    } else if init != [] {
      OffsetsAt(init, 0);
    }
  }

  lemma {:induction false} PackGrows(argv: seq<string>, i: nat)
    requires i <= |argv|
    ensures Pack(argv[..i]) <= Pack(argv)
  {
    if i == |argv| {
      assert argv[..i] == argv;
    } else {
      PackGrows(argv[..|argv| - 1], i);
      assert argv[..|argv| - 1][..i] == argv[..i];
    }
  }

  lemma PrefixReads(p: seq<char>, s: string, buf: seq<char>)
    requires p + (s + ['\0']) <= buf && NulFree(s)
    ensures CString(buf, |p|) == s
  {
    var upto := p + (s + ['\0']);
    assert buf[..|upto|] == upto;
    assert buf[|p|..|p| + |s|] == upto[|p|..|p| + |s|] == s;
    assert buf[|p| + |s|] == upto[|p| + |s|];
    CStringReads(buf, |p|, s);
  }

  /** Every argument reads back from its place in the buffer. */
  lemma PackReads(argv: seq<string>, i: nat)
    requires i < |argv| && forall k :: 0 <= k < |argv| ==> NulFree(argv[k])
    ensures |Offsets(argv)| == |argv| && Offsets(argv)[i] < |Pack(argv)|
    ensures CString(Pack(argv), Offsets(argv)[i]) == argv[i]
  {
    hide Pack, Offsets, CString;
    OffsetsAt(argv, i);
    PackNext(argv, i);
    PackGrows(argv, i + 1);
    PrefixReads(Pack(argv[..i]), argv[i], Pack(argv));
  }

  method CopyTo(buf: array<char>, ptr: nat, s: seq<char>)
    requires ptr + |s| <= buf.Length
    modifies buf
    ensures buf[..ptr + |s|] == old(buf[..ptr]) + s
    ensures buf[ptr + |s|..] == old(buf[ptr + |s|..])
  {
    for k := 0 to |s|
      invariant buf[..ptr + k] == old(buf[..ptr]) + s[..k]
      invariant buf[ptr + |s|..] == old(buf[ptr + |s|..])
    {
      buf[ptr + k] := s[k];
    }
  }

  method PackArgs(argv: seq<string>) returns (buf: array<char>, at: array<nat>)
    ensures fresh(buf) && fresh(at)
    ensures buf[..] == Pack(argv) && at[..] == Offsets(argv)
  {
    var size := 0;
    for i := 0 to |argv|
      invariant size == |Pack(argv[..i])|
    {
      PackNext(argv, i);
      size := size + |argv[i]| + 1;
    }
    assert argv[..|argv|] == argv;
    buf, at := new char[size], new nat[|argv|];
    var ptr := 0;
    for i := 0 to |argv|
      invariant ptr == |Pack(argv[..i])| <= size && |Offsets(argv[..i])| == i
      invariant buf[..ptr] == Pack(argv[..i]) && at[..i] == Offsets(argv[..i])
    {
      hide Pack, Offsets;
      PackNext(argv, i);
      PackGrows(argv, i + 1);
      CopyTo(buf, ptr, argv[i] + ['\0']);
      at[i] := ptr;
      ptr := ptr + |argv[i]| + 1;
    }
  }

  // ----- a list of entries as one queue for each interface -----

  /** What an entry's pointers hold: nothing usable, memory already freed, or a command. */
  datatype Stored = Nothing | Freed | Command(buf: seq<char>, at: seq<nat>)

  datatype Entry = Entry(ifname: string, stored: Stored)

  function First(es: seq<Entry>, name: string): (k: nat)
    ensures k <= |es|
    ensures k < |es| ==> es[k].ifname == name
    ensures forall j :: 0 <= j < k ==> es[j].ifname != name
  {
    if es == [] || es[0].ifname == name then 0 else 1 + First(es[1..], name)
  }

  function Queue(es: seq<Entry>, name: string): seq<Stored> {
    if es == [] then []
    else
      var e := es[|es| - 1];
      Queue(es[..|es| - 1], name) + if e.ifname == name then [e.stored] else []
  }

  /** The entries of all other interfaces, in order. */
  function Rest(es: seq<Entry>, name: string): seq<Entry> {
    if es == [] then []
    else
      var e := es[|es| - 1];
      Rest(es[..|es| - 1], name) + if e.ifname == name then [] else [e]
  }

  lemma QueueSnoc(es: seq<Entry>, e: Entry, name: string)
    ensures e.ifname == name ==> Queue(es + [e], name) == Queue(es, name) + [e.stored]
    ensures e.ifname == name ==> Rest(es + [e], name) == Rest(es, name)
    ensures e.ifname != name ==> Queue(es + [e], name) == Queue(es, name)
    ensures e.ifname != name ==> Rest(es + [e], name) == Rest(es, name) + [e]
  {
    assert (es + [e])[..|es|] == es;
  }

  lemma Assoc<T>(a: seq<T>, b: seq<T>, c: seq<T>)
    ensures a + b + c == a + (b + c)
  {
  }

  lemma {:induction false} QueueSplit(a: seq<Entry>, b: seq<Entry>, name: string)
    ensures Queue(a + b, name) == Queue(a, name) + Queue(b, name)
    decreases |b|
  {
    if b == [] {
      assert a + b == a;
    } else {
      var init, e := b[..|b| - 1], b[|b| - 1];
      QueueSplit(a, init, name);
      hide Queue;
      assert b == init + [e];
      Assoc(a, init, [e]);
      QueueSnoc(a + init, e, name);
      QueueSnoc(init, e, name);
      Assoc(Queue(a, name), Queue(init, name), [e.stored]);
    }
  }

  lemma {:induction false} RestSplit(a: seq<Entry>, b: seq<Entry>, name: string)
    ensures Rest(a + b, name) == Rest(a, name) + Rest(b, name)
    decreases |b|
  {
    if b == [] {
      assert a + b == a;
    } else {
      var init, e := b[..|b| - 1], b[|b| - 1];
      RestSplit(a, init, name);
      hide Rest;
      assert b == init + [e];
      Assoc(a, init, [e]);
      QueueSnoc(a + init, e, name);
      QueueSnoc(init, e, name);
      Assoc(Rest(a, name), Rest(init, name), [e]);
    }
  }

  lemma {:induction false} NoneQueued(es: seq<Entry>, name: string)
    requires forall j :: 0 <= j < |es| ==> es[j].ifname != name
    ensures Queue(es, name) == [] && Rest(es, name) == es
  {
    if es != [] {
      NoneQueued(es[..|es| - 1], name);
      assert es == es[..|es| - 1] + [es[|es| - 1]];
    }
  }

  /** The other queues depend on the other entries only. */
  lemma {:induction false} QueueOfRest(es: seq<Entry>, name: string, other: string)
    requires other != name
    ensures Queue(Rest(es, name), other) == Queue(es, other)
  {
    if es != [] {
      var init, e := es[..|es| - 1], es[|es| - 1];
      QueueOfRest(init, name, other);
      assert es == init + [e];
      hide Queue, Rest;
      QueueSnoc(init, e, name);
      QueueSnoc(init, e, other);
      QueueSnoc(Rest(init, name), e, other);
    }
  }

  /** The queues around the first entry for an interface. */
  lemma Around(a: seq<Entry>, e: Entry, c: seq<Entry>, name: string)
    requires e.ifname == name && forall j :: 0 <= j < |a| ==> a[j].ifname != name
    ensures Queue(a + [e] + c, name) == [e.stored] + Queue(c, name)
    ensures Rest(a + [e] + c, name) == a + Rest(c, name)
    ensures Queue(a + c, name) == Queue(c, name)
    ensures Rest(a + c, name) == a + Rest(c, name)
  {
    hide Queue, Rest;
    NoneQueued(a, name);
    QueueSnoc(a, e, name);
    QueueSplit(a + [e], c, name);
    QueueSplit(a, c, name);
    RestSplit(a + [e], c, name);
    RestSplit(a, c, name);
    assert Queue(a + [e], name) == [e.stored];
    assert [] + Queue(c, name) == Queue(c, name);
  }

  /** Taking out the first entry takes the oldest command off its queue. */
  lemma DelFirst(es: seq<Entry>, name: string)
    requires First(es, name) < |es|
    ensures var k := First(es, name);
            var es' := es[..k] + es[k + 1..];
            && Queue(es, name) == [es[k].stored] + Queue(es', name)
            && Rest(es', name) == Rest(es, name)
  {
    hide Queue, Rest;
    var k := First(es, name);
    assert es == es[..k] + [es[k]] + es[k + 1..];
    Around(es[..k], es[k], es[k + 1..], name);
  }

  lemma SetFirst(es: seq<Entry>, name: string, s: Stored)
    requires First(es, name) < |es|
    ensures var k := First(es, name);
            var es' := es[k := Entry(name, s)];
            && |Queue(es, name)| > 0
            && Queue(es', name) == [s] + Queue(es, name)[1..]
            && Rest(es', name) == Rest(es, name)
  {
    hide Queue, Rest;
    var k := First(es, name);
    assert es == es[..k] + [es[k]] + es[k + 1..];
    Around(es[..k], es[k], es[k + 1..], name);
    assert es[k := Entry(name, s)] == es[..k] + [Entry(name, s)] + es[k + 1..];
    Around(es[..k], Entry(name, s), es[k + 1..], name);
  }

  predicate NoneFreed(es: seq<Entry>) {
    forall k :: 0 <= k < |es| ==> es[k].stored != Freed
  }

  predicate AllCommands(es: seq<Entry>) {
    forall k :: 0 <= k < |es| ==> es[k].stored.Command?
  }

  /** The handler takes the first `n`. */
  predicate Took(verdict: nat -> int, n: nat) {
    forall k :: 0 <= k < n ==> verdict(k) == 0
  }

  /** A queue handed to a handler: `done` commands went and `calls` are those it was shown. Only
      the last of these can have been refused. */
  predicate Replayed(q: seq<Stored>, q': seq<Stored>, handler: bool, verdict: nat -> int,
                     rv: int, calls: seq<Stored>, done: nat)
  {
    && done <= |q| && q' == q[done..]
    && calls == (if !handler then [] else if done < |q| then q[..done + 1] else q)
    && (handler ==> Took(verdict, done))
    && rv == (if done < |q| then verdict(done) else 0)
    && (done < |q| ==> handler && rv != 0)
  }

  // ----- the cache -----

  class Cache {
    var exists_: bool
    var entries: seq<Entry>
    var count: int
    /** Set when a pointer that was already freed is freed again. */
    ghost var broken: bool

    ghost predicate Valid()
      reads this
    {
      && count == |entries|
      && (!exists_ ==> entries == [])
      && (forall k :: 0 <= k < |entries| ==> |entries[k].ifname| < IFNAMSIZ)
    }

    /** No freed pointer is kept and none was freed twice. */
    ghost predicate Sound()
      reads this
    {
      !broken && NoneFreed(entries)
    }

    constructor ()
      ensures Valid() && Sound() && !exists_ && entries == []
    {
      exists_, entries, count, broken := false, [], 0, false;
    }

    method Free(s: Stored)
      modifies `broken
      ensures broken == (old(broken) || s == Freed)
    {
      if s == Freed {
        broken := true;
      }
    }

    method Lookup(name: string) returns (k: nat)
      ensures k == First(entries, name)
    {
      k := 0;
      while k < |entries| && entries[k].ifname != name
        invariant k <= |entries| && First(entries, name) == k + First(entries[k..], name)
      {
        k := k + 1;
      }
    }

    /** Deletes the oldest entry of one interface and nothing else. */
    method Del(name: string) returns (rv: int)
      requires Valid()
      modifies this
      ensures Valid() && exists_ == old(exists_)
      ensures rv == 0 || rv == ENOENT
      ensures rv == 0 <==> old(First(entries, name) < |entries|)
      ensures rv != 0 ==> entries == old(entries) && broken == old(broken)
      ensures rv == 0 ==> var k := old(First(entries, name));
                          && entries == old(entries[..k] + entries[k + 1..])
                          && broken == old(broken || entries[k].stored == Freed)
    {
      if !exists_ || count == 0 {
        return ENOENT;
      }
      var k := Lookup(name);
      if k == |entries| {
        return ENOENT;
      }
      var e := entries[k];
      entries, count := entries[..k] + entries[k + 1..], count - 1;
      Free(e.stored);
      return 0;
    }

    /** The new entry, or the old one with its command freed. */
    method Place(name: string, multi: bool, room: bool) returns (k: nat)
      requires Valid() && exists_ && |name| < IFNAMSIZ
      modifies this
      ensures Valid() && exists_
      ensures var old_k := old(First(entries, name));
              if !multi && old_k < |old(entries)| then
                && k == old_k && entries == old(entries)[k := Entry(name, Freed)]
                && broken == old(broken || entries[k].stored == Freed)
              else
                && k == |old(entries)| && broken == old(broken)
                && entries == if room then old(entries) + [Entry(name, Nothing)] else old(entries)
    {
      k := |entries|;
      if !multi {
        k := Lookup(name);
      }
      if k < |entries| {
        Free(entries[k].stored);
        entries := entries[k := Entry(name, Freed)];
      } else if room {
        entries, count := entries + [Entry(name, Nothing)], count + 1;
      }
    }

    /** Every entry holds a command. */
    ghost predicate Clean()
      reads this
    {
      !broken && AllCommands(entries)
    }

    /** `room`, `bufRoom` and `argRoom` are the answers of the three allocations. */
    method Add(name: string, argv: seq<string>, multi: bool, room: bool, bufRoom: bool, argRoom: bool)
      returns (rv: int)
      requires Valid() && exists_
      modifies this
      ensures Valid() && exists_
      ensures rv == AddResult(old(entries), name, argv, multi, room, bufRoom && argRoom)
      ensures entries == Added(old(entries), name, argv, multi, room, bufRoom && argRoom)
      ensures NoneFreed(old(entries)) ==> broken == old(broken)
    {
      if |name| + 1 > IFNAMSIZ {
        return EINVAL;
      }
      hide Pack, Offsets;
      ghost var es := entries;
      var k := Place(name, multi, room);
      if k == |entries| {
        return ENOMEM;
      }
      rv := Store(name, k, argv, bufRoom && argRoom, es);
    }

    /** Puts the command into its entry, or backs out by deleting the interface's first. */
    method Store(name: string, k: nat, argv: seq<string>, argRoom: bool, ghost es: seq<Entry>)
      returns (rv: int)
      requires Valid() && exists_ && k < |entries| && entries[k].ifname == name
      requires k == |es| || k == First(es, name)
      requires entries == Put(es, k, entries[k])
      modifies this
      ensures Valid() && exists_
      ensures rv == if argv == [] then EINVAL else if !argRoom then ENOMEM else 0
      ensures rv == EINVAL ==> entries == old(entries) && broken == old(broken)
      ensures rv == ENOMEM ==> entries == BackedOut(es, name, k) && (NoneFreed(es) ==> broken == old(broken))
      ensures rv == 0 ==> broken == old(broken) &&
                          entries == Put(es, k, Entry(name, Command(Pack(argv), Offsets(argv))))
    {
      hide Pack, Offsets, BackedOut;
      if argv == [] {
        return EINVAL;
      }
      if !argRoom {
        entries := entries[k := Entry(name, Nothing)];
        assert entries == Put(es, k, Entry(name, Nothing));
        BackoutFirst(es, name, k);
        Backout(es, name, k);
        var _ := Del(name);
        return ENOMEM;
      }
      var buf, at := PackArgs(argv);
      entries := entries[k := Entry(name, Command(buf[..], at[..]))];
      return 0;
    }

    method Create(room: bool)
      requires Valid() && !exists_
      modifies this
      ensures Valid() && exists_ == room && entries == [] && broken == old(broken)
    {
      exists_, entries, count := room, [], 0;
    }

    /** Queues a command behind the others of its interface, creating the list when needed. */
    method CacheCommand(name: string, argv: seq<string>, listRoom: bool, room: bool, bufRoom: bool, argRoom: bool)
      returns (rv: int)
      requires Valid()
      modifies this
      ensures Valid() && exists_ == (old(exists_) || listRoom)
      ensures !exists_ ==> rv == ENOMEM && entries == []
      ensures exists_ ==> rv == AddResult(old(entries), name, argv, true, room, bufRoom && argRoom)
      ensures exists_ ==> entries == Added(old(entries), name, argv, true, room, bufRoom && argRoom)
      ensures NoneFreed(old(entries)) ==> broken == old(broken)
    {
      if !exists_ {
        Create(listRoom);
        if !exists_ {
          return ENOMEM;
        }
      }
      rv := Add(name, argv, true, room, bufRoom, argRoom);
    }

    method Destroy() returns (rv: int)
      requires Valid()
      modifies `exists_
      ensures Valid() && rv == (if old(exists_) && entries == [] then 0 else EINVAL)
      ensures exists_ == (old(exists_) && entries != [])
    {
      if !exists_ || count != 0 {
        return EINVAL;
      }
      exists_ := false;
      return 0;
    }

    /** The commands of one interface are handed to the handler oldest first, each once, up to
        the first it refuses. Those it took leave the list, the refused one and the ones behind
        it stay, and the other interfaces' entries keep their order. Without a handler they are
        all dropped. `verdict` is what the handler returns on its k-th call. */
    method Replay(name: string, handler: bool, verdict: nat -> int)
      returns (rv: int, calls: seq<Stored>, done: nat)
      requires Valid()
      modifies this
      ensures Valid() && Rest(entries, name) == old(Rest(entries, name))
      ensures Replayed(old(Queue(entries, name)), Queue(entries, name), handler, verdict, rv, calls, done)
      ensures exists_ == (old(exists_) && (rv != 0 || entries != []))
      ensures NoneFreed(old(entries)) ==> NoneFreed(entries) && broken == old(broken)
    {
      hide Queue, Rest, NoneFreed;
      ghost var q := Queue(entries, name);
      calls, done := [], 0;
      QueueEmpty(entries, name);
      if !exists_ {
        return 0, [], 0;
      }
      var i := 0;
      while i < |entries|
        invariant Valid() && exists_ && i <= |entries|
        invariant forall j :: 0 <= j < i ==> entries[j].ifname != name
        invariant done <= |q| && Queue(entries, name) == q[done..]
        invariant Rest(entries, name) == old(Rest(entries, name))
        invariant calls == if handler then q[..done] else []
        invariant handler ==> Took(verdict, done)
        invariant NoneFreed(old(entries)) ==> NoneFreed(entries) && broken == old(broken)
        decreases |entries| - i
      {
        if entries[i].ifname != name {
          i := i + 1;
          continue;
        }
        TakeNext(entries, name, i, q, done);
        if handler {
          calls := calls + [entries[i].stored];
          rv := verdict(done);
          if rv != 0 {
            return;
          }
        }
        rv := Del(name);
        done := done + 1;
        if rv != 0 {
          return;
        }
      }
      NoneQueued(entries, name);
      rv := 0;
      if count == 0 {
        rv := Destroy();
      }
    }
  }

  /** One entry written: at the end, or over another. */
  function Put(es: seq<Entry>, k: nat, e: Entry): seq<Entry>
    requires k <= |es|
  {
    if k == |es| then es + [e] else es[k := e]
  }

  /** What is left when the placed entry is blank and the interface's first is deleted: the
      placed entry is gone only where no older one precedes it. */
  function BackedOut(es: seq<Entry>, name: string, k: nat): seq<Entry>
    requires k <= |es|
  {
    var f := First(es, name);
    if k < |es| then es[..k] + es[k + 1..]
    else if f == |es| then es
    else es[..f] + es[f + 1..] + [Entry(name, Nothing)]
  }

  predicate NoRoom(es: seq<Entry>, name: string, multi: bool, room: bool) {
    !room && (multi || First(es, name) == |es|)
  }

  function AddResult(es: seq<Entry>, name: string, argv: seq<string>, multi: bool, room: bool, argRoom: bool): int {
    if |name| >= IFNAMSIZ then EINVAL
    else if NoRoom(es, name, multi, room) then ENOMEM
    else if argv == [] then EINVAL
    else if !argRoom then ENOMEM
    else 0
  }

  function Added(es: seq<Entry>, name: string, argv: seq<string>, multi: bool, room: bool, argRoom: bool)
    : seq<Entry>
  {
    var k := if multi then |es| else First(es, name);
    if |name| >= IFNAMSIZ || NoRoom(es, name, multi, room) then es
    else if argv == [] then Put(es, k, Entry(name, if k == |es| then Nothing else Freed))
    else if !argRoom then BackedOut(es, name, k)
    else Put(es, k, Entry(name, Command(Pack(argv), Offsets(argv))))
  }

  lemma FirstIs(es: seq<Entry>, name: string, k: nat)
    requires k < |es| && es[k].ifname == name && forall j :: 0 <= j < k ==> es[j].ifname != name
    ensures First(es, name) == k
  {
    var f := First(es, name);
    assert !(f < k) && !(k < f);
  }

  /** The first entry of an interface is the next of its queue. */
  lemma TakeNext(es: seq<Entry>, name: string, i: nat, q: seq<Stored>, done: nat)
    requires i < |es| && es[i].ifname == name && forall j :: 0 <= j < i ==> es[j].ifname != name
    requires done <= |q| && Queue(es, name) == q[done..]
    ensures First(es, name) == i && done < |q| && q[..done + 1] == q[..done] + [es[i].stored]
    ensures var es' := es[..i] + es[i + 1..];
            && Queue(es', name) == q[done + 1..]
            && Rest(es', name) == Rest(es, name)
            && (NoneFreed(es) ==> NoneFreed(es') && es[i].stored != Freed)
  {
    hide Queue, Rest;
    FirstIs(es, name, i);
    DelFirst(es, name);
    assert q[done..][1..] == q[done + 1..];
    assert q[done] == q[done..][0];
  }

  lemma BackoutFirst(es: seq<Entry>, name: string, k: nat)
    requires k == |es| || k == First(es, name)
    ensures var placed := Put(es, k, Entry(name, Nothing));
            && First(placed, name) == (if First(es, name) < |es| then First(es, name) else k)
            && (NoneFreed(es) ==> NoneFreed(placed))
  {
    FirstIs(Put(es, k, Entry(name, Nothing)), name, if First(es, name) < |es| then First(es, name) else k);
  }

  lemma Backout(es: seq<Entry>, name: string, k: nat)
    requires k == |es| || k == First(es, name)
    ensures var placed := Put(es, k, Entry(name, Nothing));
            var f := if First(es, name) < |es| then First(es, name) else k;
            placed[..f] + placed[f + 1..] == BackedOut(es, name, k)
  {
    var placed := Put(es, k, Entry(name, Nothing));
    var f := First(es, name);
    if k < |es| {
      assert placed[..k] == es[..k] && placed[k + 1..] == es[k + 1..];
    } else {
      assert placed[..f] == es[..f];
      assert f < |es| ==> placed[f + 1..] == es[f + 1..] + [Entry(name, Nothing)];
    }
  }

  lemma PutQueues(es: seq<Entry>, name: string, k: nat, s: Stored)
    requires k == |es| || k == First(es, name)
    ensures Rest(Put(es, k, Entry(name, s)), name) == Rest(es, name)
    ensures var q, q' := Queue(es, name), Queue(Put(es, k, Entry(name, s)), name);
            if k == |es| then q' == q + [s] else |q| > 0 && q' == [s] + q[1..]
  {
    hide Queue, Rest;
    if k == |es| {
      QueueSnoc(es, Entry(name, s), name);
    } else {
      SetFirst(es, name, s);
    }
  }

  lemma BackoutQueues(es: seq<Entry>, name: string, k: nat)
    requires k == |es| || k == First(es, name)
    ensures Rest(BackedOut(es, name, k), name) == Rest(es, name)
  {
    hide Queue, Rest;
    var f := First(es, name);
    if f < |es| {
      DelFirst(es, name);
      QueueSnoc(es[..f] + es[f + 1..], Entry(name, Nothing), name);
    }
  }

  lemma QueueEmpty(es: seq<Entry>, name: string)
    ensures Queue(es, name) == [] <==> First(es, name) == |es|
  {
    hide Queue, Rest;
    if First(es, name) == |es| {
      NoneQueued(es, name);
    } else {
      DelFirst(es, name);
    }
  }

  /** An add works on the queue of its own interface: the command goes behind the others, or in
      single mode over the oldest. */
  lemma AddedQueues(es: seq<Entry>, name: string, argv: seq<string>, multi: bool, room: bool, argRoom: bool)
    ensures var es' := Added(es, name, argv, multi, room, argRoom);
            && Rest(es', name) == Rest(es, name)
            && (AddResult(es, name, argv, multi, room, argRoom) == 0 ==>
                  var cmd, q := Command(Pack(argv), Offsets(argv)), Queue(es, name);
                  Queue(es', name) == if multi || q == [] then q + [cmd] else [cmd] + q[1..])
  {
    hide Queue, Rest, Pack, Offsets;
    var k := if multi then |es| else First(es, name);
    PutQueues(es, name, k, if k == |es| then Nothing else Freed);
    PutQueues(es, name, k, Command(Pack(argv), Offsets(argv)));
    BackoutQueues(es, name, k);
    QueueEmpty(es, name);
  }

  lemma PutClean(es: seq<Entry>, k: nat, e: Entry)
    requires AllCommands(es) && k <= |es|
    ensures AllCommands(Put(es, k, e)) <==> e.stored.Command?
    ensures NoneFreed(Put(es, k, e)) <==> e.stored != Freed
    ensures Put(es, k, e) == es ==> e.stored.Command?
  {
    assert Put(es, k, e)[k] == e;
  }

  lemma BackoutClean(es: seq<Entry>, name: string, k: nat)
    requires AllCommands(es) && (k == |es| || k == First(es, name))
    ensures BackedOut(es, name, k) == es <==> First(es, name) == |es|
    ensures AllCommands(BackedOut(es, name, k)) <==> k < |es| || First(es, name) == |es|
    ensures NoneFreed(BackedOut(es, name, k))
  {
    if k == |es| && First(es, name) < |es| {
      assert BackedOut(es, name, k)[|es| - 1].stored == Nothing;
      assert es[|es| - 1].stored.Command?;
    }
  }

  /** A refused add leaves the list as it was only when the name is too long, no entry could be
      had, or there was none to disturb. Otherwise it leaves a blank entry, or loses an older
      command, or keeps pointers it has freed. */
  lemma RefusedAdd(es: seq<Entry>, name: string, argv: seq<string>, multi: bool, room: bool, argRoom: bool)
    requires AllCommands(es) && AddResult(es, name, argv, multi, room, argRoom) != 0
    ensures var es', has := Added(es, name, argv, multi, room, argRoom), First(es, name) < |es|;
            var early := |name| >= IFNAMSIZ || NoRoom(es, name, multi, room);
            && (es' == es <==> early || (argv != [] && !has))
            && (AllCommands(es') <==> early || (argv != [] && !(multi && has)))
            && (NoneFreed(es') <==> early || argv != [] || multi || !has)
  {
    var k := if multi then |es| else First(es, name);
    PutClean(es, k, Entry(name, if k == |es| then Nothing else Freed));
    BackoutClean(es, name, k);
  }

  lemma AddedClean(es: seq<Entry>, name: string, argv: seq<string>, multi: bool, room: bool, argRoom: bool)
    requires AllCommands(es) && AddResult(es, name, argv, multi, room, argRoom) == 0
    ensures AllCommands(Added(es, name, argv, multi, room, argRoom))
  {
    var k := if multi then |es| else First(es, name);
    PutClean(es, k, Entry(name, Command(Pack(argv), Offsets(argv))));
  }
}
