/**
 Snapshot and subscription, `process_snapshot_one` and `subscriber_recv` of `src/control.c`.
 The subscription is joined before the snapshot is asked for, so updates queue up that the
 snapshot may already contain; sequence numbers tell them apart.
 */
module Resync {

  datatype Msg<T> = Msg(seqno: nat, topic: string, body: T)

  const DONE: string := "THATSALLFOLKS!"

  /** The end of a snapshot is recognised by comparing as many characters as both have. */
  predicate IsEnd(topic: string) {
    var n := if |topic| < |DONE| then |topic| else |DONE|;
    topic[..n] == DONE[..n]
  }

  function Fold<S, T>(apply: (S, Msg<T>) -> S, s: S, ms: seq<Msg<T>>): S {
    if ms == [] then s else apply(Fold(apply, s, ms[..|ms| - 1]), ms[|ms| - 1])
  }

  lemma {:induction false} FoldConcat<S, T>(apply: (S, Msg<T>) -> S, s: S, a: seq<Msg<T>>, b: seq<Msg<T>>)
    ensures Fold(apply, s, a + b) == Fold(apply, Fold(apply, s, a), b)
  {
    if b == [] {
      assert a + b == a;
    } else {
      FoldConcat(apply, s, a, b[..|b| - 1]);
      assert (a + b)[..|a + b| - 1] == a + b[..|b| - 1];
    }
  }

  // ----- which updates are applied -----

  /** The highest number seen, counting from `last`. */
  function Latest<T>(last: nat, ms: seq<Msg<T>>): nat {
    if ms == [] then last
    else
      var l, m := Latest(last, ms[..|ms| - 1]), ms[|ms| - 1];
      if m.seqno > l then m.seqno else l
  }

  function Applied<T>(last: nat, ms: seq<Msg<T>>): seq<Msg<T>> {
    if ms == [] then []
    else
      var init, m := ms[..|ms| - 1], ms[|ms| - 1];
      Applied(last, init) + if m.seqno > Latest(last, init) then [m] else []
  }

  lemma AppliedNext<T>(last: nat, ms: seq<Msg<T>>, k: nat)
    requires k < |ms|
    ensures Latest(last, ms[..k + 1]) ==
            if ms[k].seqno > Latest(last, ms[..k]) then ms[k].seqno else Latest(last, ms[..k])
    ensures Applied(last, ms[..k + 1]) ==
            Applied(last, ms[..k]) + if ms[k].seqno > Latest(last, ms[..k]) then [ms[k]] else []
  {
    assert ms[..k + 1][..k] == ms[..k];
  }

  lemma FoldNext<S, T>(apply: (S, Msg<T>) -> S, s: S, ms: seq<Msg<T>>, m: Msg<T>)
    ensures Fold(apply, s, ms + [m]) == apply(Fold(apply, s, ms), m)
    ensures ms + [] == ms
  {
    assert (ms + [m])[..|ms|] == ms;
  }

  /** The dataplane's side of a connection: its state and the last number it took. */
  class Subscriber<S(0), T> {
    var last: nat
    var state: S
    ghost var taken: seq<Msg<T>>  // every update the subscription applied

    constructor (s: S)
      ensures last == 0 && state == s && taken == []
    {
      last, state, taken := 0, s, [];
    }

    /** One message of a snapshot. Its number is taken whatever it is. */
    method SnapshotOne(m: Msg<T>, apply: (S, Msg<T>) -> S) returns (eof: bool)
      modifies this
      ensures last == m.seqno && taken == old(taken)
      ensures eof <==> m.topic <= DONE || DONE <= m.topic
      ensures state == if eof then old(state) else apply(old(state), m)
    {
      last := m.seqno;
      eof := IsEnd(m.topic);
      if !eof {
        state := apply(state, m);
      }
    }

    /** One message of the subscription. */
    method Receive(m: Msg<T>, apply: (S, Msg<T>) -> S)
      modifies this
      ensures if m.seqno > old(last)
              then last == m.seqno && state == apply(old(state), m) && taken == old(taken) + [m]
              else last == old(last) && state == old(state) && taken == old(taken)
    {
      if m.seqno > last {
        last := m.seqno;
        state := apply(state, m);
        taken := taken + [m];
      }
    }

    /** A snapshot up to its end marker. */
    method Snapshot(ms: seq<Msg<T>>, end: Msg<T>, apply: (S, Msg<T>) -> S) returns (eof: bool)
      requires forall i :: 0 <= i < |ms| ==> !IsEnd(ms[i].topic)
      requires IsEnd(end.topic)
      modifies this
      ensures eof && last == end.seqno && state == Fold(apply, old(state), ms) && taken == old(taken)
    {
      var k := 0;
      while k < |ms|
        invariant 0 <= k <= |ms|
        invariant state == Fold(apply, old(state), ms[..k]) && taken == old(taken)
      {
        FoldNext(apply, old(state), ms[..k], ms[k]);
        assert ms[..k + 1] == ms[..k] + [ms[k]];
        var more := SnapshotOne(ms[k], apply);
        k := k + 1;
      }
      assert ms[..k] == ms;
      eof := SnapshotOne(end, apply);
    }

    /** Everything the subscription delivers. */
    method ReceiveAll(ms: seq<Msg<T>>, apply: (S, Msg<T>) -> S)
      modifies this
      ensures last == Latest(old(last), ms)
      ensures taken == old(taken) + Applied(old(last), ms)
      ensures state == Fold(apply, old(state), Applied(old(last), ms))
    {
      assert Applied(last, ms[..0]) == [] && Latest(last, ms[..0]) == last && Fold(apply, state, []) == state;
      hide Fold, Applied, Latest;
      var k := 0;
      while k < |ms|
        invariant 0 <= k <= |ms|
        invariant last == Latest(old(last), ms[..k])
        invariant taken == old(taken) + Applied(old(last), ms[..k])
        invariant state == Fold(apply, old(state), Applied(old(last), ms[..k]))
      {
        AppliedNext(old(last), ms, k);
        FoldNext(apply, old(state), Applied(old(last), ms[..k]), ms[k]);
        Receive(ms[k], apply);
        k := k + 1;
      }
      assert ms[..k] == ms;
    }

    /** A whole connection: the snapshot, whose parts amount to the updates numbered up to its end
        marker, and then the subscription. Exactly the rest of the stream is applied if and only
        if it arrives in order, and then the state is that of the whole stream. */
    method Resynchronise(parts: seq<Msg<T>>, end: Msg<T>, arrivals: seq<Msg<T>>, apply: (S, Msg<T>) -> S,
                         ghost start: S, ghost stream: seq<Msg<T>>)
      requires (forall i :: 0 <= i < |parts| ==> !IsEnd(parts[i].topic)) && IsEnd(end.topic)
      requires Fold(apply, state, parts) == Fold(apply, start, Older(stream, end.seqno))
      requires Increasing(stream) && forall i :: 0 <= i < |arrivals| ==> arrivals[i] in stream
      modifies this
      ensures taken == old(taken) + Newer(stream, end.seqno) <==> InOrder(stream, end.seqno, arrivals)
      ensures InOrder(stream, end.seqno, arrivals) ==> state == Fold(apply, start, stream)
    {
      hide Fold, Applied, Newer, Older, InOrder;
      var eof := Snapshot(parts, end, apply);
      ReceiveAll(arrivals, apply);
      ExactlyTheRest(stream, end.seqno, arrivals);
      ghost var was, some, rest := old(taken), Applied(end.seqno, arrivals), Newer(stream, end.seqno);
      assert (was + some)[|was|..] == some && (was + rest)[|was|..] == rest;
      if InOrder(stream, end.seqno, arrivals) {
        ResyncConverges(apply, start, stream, end.seqno, arrivals);
      }
    }
  }

  // ----- exactly the newest so far -----

  lemma {:induction false} LatestBounds<T>(last: nat, ms: seq<Msg<T>>)
    ensures last <= Latest(last, ms)
    ensures forall i :: 0 <= i < |ms| ==> ms[i].seqno <= Latest(last, ms)
    ensures Latest(last, ms) == last || exists i :: 0 <= i < |ms| && ms[i].seqno == Latest(last, ms)
  {
    if ms != [] {
      var init := ms[..|ms| - 1];
      LatestBounds(last, init);
      if i :| 0 <= i < |init| && init[i].seqno == Latest(last, init) {
        assert ms[i] == init[i];
      }
      assert ms[|ms| - 1].seqno <= Latest(last, ms);
    }
  }

  /** An update is applied exactly when it is newer than everything taken or seen before it. */
  lemma AppliedExactly<T>(last: nat, ms: seq<Msg<T>>, i: nat)
    requires i < |ms|
    ensures var newest := ms[i].seqno > last && forall j :: 0 <= j < i ==> ms[j].seqno < ms[i].seqno;
            Applied(last, ms[..i + 1]) == Applied(last, ms[..i]) + if newest then [ms[i]] else []
  {
    AppliedNext(last, ms, i);
    LatestBounds(last, ms[..i]);
    var l := Latest(last, ms[..i]);
    assert forall j :: 0 <= j < i ==> ms[..i][j] == ms[j];
    if ms[i].seqno <= l && l != last {
      var j :| 0 <= j < i && ms[..i][j].seqno == l;
      assert ms[j].seqno == l;
    }
  }

  /** What is applied later is newer than all that came before. */
  lemma {:induction false} AppliedLater<T>(last: nat, ms: seq<Msg<T>>, i: nat) returns (later: seq<Msg<T>>)
    requires i <= |ms|
    ensures Applied(last, ms) == Applied(last, ms[..i]) + later
    ensures forall k :: 0 <= k < |later| ==> later[k].seqno > Latest(last, ms[..i])
    ensures Latest(last, ms[..i]) <= Latest(last, ms)
  {
    if i == |ms| {
      later := [];
      assert ms[..i] == ms;
    } else {
      var init := ms[..|ms| - 1];
      later := AppliedLater(last, init, i);
      assert init[..i] == ms[..i];
      AppliedNext(last, ms, |ms| - 1);
      assert ms[..|ms| - 1 + 1] == ms;
      var m := ms[|ms| - 1];
      if m.seqno > Latest(last, init) {
        assert Applied(last, init) + [m] == Applied(last, ms[..i]) + (later + [m]);
        later := later + [m];
      }
    }
  }

  lemma {:induction false} AppliedArrived<T>(last: nat, ms: seq<Msg<T>>, m: Msg<T>)
    requires m in Applied(last, ms)
    ensures m in ms
  {
    var init := ms[..|ms| - 1];
    if m in Applied(last, init) {
      AppliedArrived(last, init, m);
    }
  }

  // ----- against the stream the controller publishes -----

  predicate Increasing<T>(ms: seq<Msg<T>>) {
    forall i, j :: 0 <= i < j < |ms| ==> ms[i].seqno < ms[j].seqno
  }

  /** The messages numbered past `lo` and up to `hi`, in order. */
  function Between<T>(ms: seq<Msg<T>>, lo: nat, hi: nat): seq<Msg<T>> {
    if ms == [] then []
    else
      var m := ms[|ms| - 1];
      Between(ms[..|ms| - 1], lo, hi) + if lo < m.seqno <= hi then [m] else []
  }

  function Newer<T>(ms: seq<Msg<T>>, lo: nat): seq<Msg<T>> {
    if ms == [] then []
    else
      var m := ms[|ms| - 1];
      Newer(ms[..|ms| - 1], lo) + if lo < m.seqno then [m] else []
  }

  function Older<T>(ms: seq<Msg<T>>, hi: nat): seq<Msg<T>> {
    if ms == [] then []
    else
      var m := ms[|ms| - 1];
      Older(ms[..|ms| - 1], hi) + if m.seqno <= hi then [m] else []
  }

  /** Every newer update arrives, and none before the updates between it and the snapshot.
      Old ones and repeats may arrive anywhere. */
  ghost predicate InOrder<T>(stream: seq<Msg<T>>, s: nat, arrivals: seq<Msg<T>>) {
    && (forall u :: u in stream && u.seqno > s ==> u in arrivals)
    && (forall i, u :: 0 <= i < |arrivals| && u in stream && s < u.seqno < arrivals[i].seqno ==> u in arrivals[..i])
  }

  lemma {:induction false} BetweenNone<T>(ms: seq<Msg<T>>, lo: nat)
    ensures Between(ms, lo, lo) == []
  {
    if ms != [] {
      BetweenNone(ms[..|ms| - 1], lo);
    }
  }

  /** With nothing strictly between, the window grows by one message. */
  lemma {:induction false} BetweenGrows<T>(ms: seq<Msg<T>>, lo: nat, hi: nat, m: Msg<T>)
    requires Increasing(ms) && lo <= hi < m.seqno && m in ms
    requires forall k :: 0 <= k < |ms| ==> !(hi < ms[k].seqno < m.seqno)
    ensures Between(ms, lo, m.seqno) == Between(ms, lo, hi) + [m]
  {
    var init, x := ms[..|ms| - 1], ms[|ms| - 1];
    if x == m {
      BetweenSame(init, lo, hi, m.seqno);
    } else {
      assert m in init;
      BetweenGrows(init, lo, hi, m);
      assert x.seqno > m.seqno;
    }
  }

  lemma {:induction false} BetweenSame<T>(ms: seq<Msg<T>>, lo: nat, hi: nat, hi': nat)
    requires hi <= hi' && forall k :: 0 <= k < |ms| ==> !(hi < ms[k].seqno <= hi')
    ensures Between(ms, lo, hi') == Between(ms, lo, hi)
  {
    if ms != [] {
      BetweenSame(ms[..|ms| - 1], lo, hi, hi');
    }
  }

  lemma {:induction false} BetweenAll<T>(ms: seq<Msg<T>>, lo: nat, hi: nat)
    requires forall k :: 0 <= k < |ms| ==> ms[k].seqno <= hi || ms[k].seqno <= lo
    ensures Between(ms, lo, hi) == Newer(ms, lo)
  {
    if ms != [] {
      BetweenAll(ms[..|ms| - 1], lo, hi);
    }
  }

  lemma {:induction false} NewerHas<T>(ms: seq<Msg<T>>, lo: nat, m: Msg<T>)
    ensures m in Newer(ms, lo) <==> m in ms && m.seqno > lo
  {
    if ms != [] {
      NewerHas(ms[..|ms| - 1], lo, m);
      assert ms == ms[..|ms| - 1] + [ms[|ms| - 1]];
    }
  }

  /** While updates arrive in order, what was applied is the stream up to the latest. */
  lemma {:induction false} InOrderApplies<T>(stream: seq<Msg<T>>, s: nat, arrivals: seq<Msg<T>>, n: nat)
    requires Increasing(stream) && InOrder(stream, s, arrivals) && n <= |arrivals|
    requires forall i :: 0 <= i < |arrivals| ==> arrivals[i] in stream
    ensures Applied(s, arrivals[..n]) == Between(stream, s, Latest(s, arrivals[..n]))
  {
    if n == 0 {
      BetweenNone(stream, s);
    } else {
      InOrderApplies(stream, s, arrivals, n - 1);
      AppliedNext(s, arrivals, n - 1);
      var before, m := arrivals[..n - 1], arrivals[n - 1];
      var l := Latest(s, before);
      LatestBounds(s, before);
      if m.seqno > l {
        forall k | 0 <= k < |stream|
          ensures !(l < stream[k].seqno < m.seqno)
        {
          if s < stream[k].seqno < m.seqno {
            assert stream[k] in before;
          }
        }
        BetweenGrows(stream, s, l, m);
      }
    }
  }

  lemma InOrderSuffices<T>(stream: seq<Msg<T>>, s: nat, arrivals: seq<Msg<T>>)
    requires Increasing(stream) && InOrder(stream, s, arrivals)
    requires forall i :: 0 <= i < |arrivals| ==> arrivals[i] in stream
    ensures Applied(s, arrivals) == Newer(stream, s)
  {
    InOrderApplies(stream, s, arrivals, |arrivals|);
    assert arrivals[..|arrivals|] == arrivals;
    LatestBounds(s, arrivals);
    forall k | 0 <= k < |stream|
      ensures stream[k].seqno <= Latest(s, arrivals) || stream[k].seqno <= s
    {
      if stream[k].seqno > s {
        assert stream[k] in arrivals;
      }
    }
    BetweenAll(stream, s, Latest(s, arrivals));
  }

  lemma AllNewerArrive<T>(stream: seq<Msg<T>>, s: nat, arrivals: seq<Msg<T>>, u: Msg<T>)
    requires Applied(s, arrivals) == Newer(stream, s) && u in stream && u.seqno > s
    ensures u in arrivals
  {
    NewerHas(stream, s, u);
    AppliedArrived(s, arrivals, u);
  }

  lemma EarlierArriveFirst<T>(stream: seq<Msg<T>>, s: nat, arrivals: seq<Msg<T>>, i: nat, u: Msg<T>)
    requires Applied(s, arrivals) == Newer(stream, s) && i < |arrivals|
    requires u in stream && s < u.seqno < arrivals[i].seqno
    ensures u in arrivals[..i]
  {
    NewerHas(stream, s, u);
    var upto := arrivals[..i + 1];
    var later := AppliedLater(s, arrivals, i + 1);
    LatestBounds(s, upto);
    assert upto[i] == arrivals[i];
    assert u !in later;
    AppliedArrived(s, upto, u);
    assert upto == arrivals[..i] + [arrivals[i]];
  }

  /** Exactly the updates after the snapshot are applied, each once and in order, if and only
      if the newer ones all arrive in order. */
  lemma ExactlyTheRest<T>(stream: seq<Msg<T>>, s: nat, arrivals: seq<Msg<T>>)
    requires Increasing(stream)
    requires forall i :: 0 <= i < |arrivals| ==> arrivals[i] in stream
    ensures Applied(s, arrivals) == Newer(stream, s) <==> InOrder(stream, s, arrivals)
  {
    if InOrder(stream, s, arrivals) {
      InOrderSuffices(stream, s, arrivals);
    } else if Applied(s, arrivals) == Newer(stream, s) {
      forall u | u in stream && u.seqno > s
        ensures u in arrivals
      {
        AllNewerArrive(stream, s, arrivals, u);
      }
      forall i, u | 0 <= i < |arrivals| && u in stream && s < u.seqno < arrivals[i].seqno
        ensures u in arrivals[..i]
      {
        EarlierArriveFirst(stream, s, arrivals, i, u);
      }
    }
  }

  lemma {:induction false} NoneNewer<T>(ms: seq<Msg<T>>, s: nat)
    requires forall k :: 0 <= k < |ms| ==> ms[k].seqno <= s
    ensures Newer(ms, s) == [] && Older(ms, s) == ms
  {
    if ms != [] {
      var init := ms[..|ms| - 1];
      NoneNewer(init, s);
      assert ms == init + [ms[|ms| - 1]];
    }
  }

  lemma {:induction false} StreamSplits<T>(ms: seq<Msg<T>>, s: nat)
    requires Increasing(ms)
    ensures Older(ms, s) + Newer(ms, s) == ms
  {
    if ms != [] {
      var init, m := ms[..|ms| - 1], ms[|ms| - 1];
      if m.seqno <= s {
        NoneNewer(ms, s);
      } else {
        StreamSplits(init, s);
        assert Newer(ms, s) == Newer(init, s) + [m];
        assert Older(ms, s) + (Newer(init, s) + [m]) == Older(init, s) + Newer(init, s) + [m];
      }
    }
  }

  /** A snapshot that holds the updates up to `s`, followed by a subscription that delivers
      the later ones in order, gives the state of the whole stream. */
  lemma ResyncConverges<S, T>(
    apply: (S, Msg<T>) -> S, start: S, stream: seq<Msg<T>>, s: nat, arrivals: seq<Msg<T>>)
    requires Increasing(stream) && InOrder(stream, s, arrivals)
    requires forall i :: 0 <= i < |arrivals| ==> arrivals[i] in stream
    ensures Fold(apply, Fold(apply, start, Older(stream, s)), Applied(s, arrivals)) == Fold(apply, start, stream)
  {
    InOrderSuffices(stream, s, arrivals);
    StreamSplits(stream, s);
    FoldConcat(apply, start, Older(stream, s), Newer(stream, s));
  }

  /** In particular when the subscription delivers the stream from any point the snapshot
      already covers, so that queued updates overlap it. */
  lemma OverlapIsInOrder<T>(stream: seq<Msg<T>>, s: nat, j: nat)
    requires Increasing(stream) && j <= |stream| && forall k :: 0 <= k < j ==> stream[k].seqno <= s
    ensures InOrder(stream, s, stream[j..])
  {
    var arrivals := stream[j..];
    forall u | u in stream && u.seqno > s
      ensures u in arrivals
    {
      var k :| 0 <= k < |stream| && stream[k] == u;
      assert arrivals[k - j] == u;
    }
    forall i, u | 0 <= i < |arrivals| && u in stream && s < u.seqno < arrivals[i].seqno
      ensures u in arrivals[..i]
    {
      var k :| 0 <= k < |stream| && stream[k] == u;
      assert arrivals[i] == stream[i + j];
      assert k < i + j;
      assert arrivals[..i][k - j] == u;
    }
  }
}
