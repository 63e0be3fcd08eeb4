/**
 The port handshake of `src/controller.c`: INIPORT requests wait in the main list, ADDPORT
 and DELPORT requests in the alternate list, and the answer to an INIPORT turns its request
 into an ADDPORT.
 */
module PortRequests {

  datatype Stage = SentDel | SentIni | SentAdd

  class Request {
    const port: nat
    var stage: Stage
    var seqno: nat

    constructor (port: nat, stage: Stage, seqno: nat)
      ensures this.port == port && this.stage == stage && this.seqno == seqno
    {
      this.port, this.stage, this.seqno := port, stage, seqno;
    }
  }

  predicate NoDup(rs: seq<Request>) {
    forall i, j :: 0 <= i < j < |rs| ==> rs[i] != rs[j]
  }

  /** The position of the first request with this number, or the length of the list. */
  function Position(rs: seq<Request>, seqno: nat): (i: nat)
    reads rs
    ensures i <= |rs|
    ensures i < |rs| ==> rs[i].seqno == seqno
    ensures forall j :: 0 <= j < i ==> rs[j].seqno != seqno
  {
    if rs == [] || rs[0].seqno == seqno then 0 else 1 + Position(rs[1..], seqno)
  }

  lemma PositionFinds(rs: seq<Request>, seqno: nat)
    ensures Position(rs, seqno) < |rs| <==> exists r :: r in rs && r.seqno == seqno
  {
  }

  method Find(rs: seq<Request>, seqno: nat) returns (i: nat)
    ensures i == Position(rs, seqno)
  {
    i := 0;
    while i < |rs|
      invariant 0 <= i <= |rs|
      invariant forall j :: 0 <= j < i ==> rs[j].seqno != seqno
    {
      if rs[i].seqno == seqno {
        return;
      }
      i := i + 1;
    }
  }

  function Cut<T>(s: seq<T>, i: nat): seq<T>
    requires i < |s|
  {
    s[..i] + s[i + 1..]
  }

  lemma CutKeeps<T>(s: seq<T>, i: nat)
    requires i < |s|
    ensures forall x :: x in Cut(s, i) ==> x in s
    ensures forall x :: x in s ==> x == s[i] || x in Cut(s, i)
  {
    assert s == s[..i] + [s[i]] + s[i + 1..];
  }

  lemma AppendFresh(rs: seq<Request>, more: seq<Request>, r: Request)
    requires NoDup(rs + more) && r !in rs && r !in more
    ensures NoDup(rs + (more + [r])) && NoDup((rs + [r]) + more)
  {
    var all := rs + more;
    assert forall k :: 0 <= k < |rs| ==> rs[k] == all[k];
    assert forall k :: 0 <= k < |more| ==> more[k] == all[|rs| + k];
  }

  lemma CutOne(rs: seq<Request>, more: seq<Request>, i: nat)
    requires i < |rs| && NoDup(rs + more)
    ensures NoDup(Cut(rs, i) + more) && NoDup(Cut(rs, i) + (more + [rs[i]]))
    ensures rs[i] !in Cut(rs, i) && rs[i] !in more
  {
    var c, all := Cut(rs, i), rs + more;
    assert forall k :: 0 <= k < |c| ==> c[k] == all[if k < i then k else k + 1];
    assert forall k :: 0 <= k < |more| ==> more[k] == all[|rs| + k];
    assert rs[i] == all[i];
  }

  lemma CutOther(rs: seq<Request>, more: seq<Request>, i: nat)
    requires i < |more| && NoDup(rs + more)
    ensures NoDup(rs + Cut(more, i)) && more[i] !in Cut(more, i) && more[i] !in rs
  {
    var c, all := Cut(more, i), rs + more;
    assert forall k :: 0 <= k < |c| ==> c[k] == all[|rs| + if k < i then k else k + 1];
    assert forall k :: 0 <= k < |rs| ==> rs[k] == all[k];
    assert more[i] == all[|rs| + i];
  }

  /** The ports from `lo` up to `hi` that are asked for, in order. */
  function Chosen(lo: nat, hi: nat, wanted: nat -> bool): seq<nat>
    requires lo <= hi
  {
    if lo == hi then [] else Chosen(lo, hi - 1, wanted) + if wanted(hi - 1) then [hi - 1] else []
  }

  /** One request a port, numbered on from `seed`. */
  ghost predicate Batch(rs: seq<Request>, ports: seq<nat>, stage: Stage, seed: nat)
    reads rs
  {
    && |rs| == |ports|
    && forall k :: 0 <= k < |rs| ==> rs[k].port == ports[k] && rs[k].stage == stage && rs[k].seqno == seed + k + 1
  }

  /** The requests for the wanted ports from `lo` up to `hi` can be sent. */
  predicate AllSendable(lo: nat, hi: nat, wanted: nat -> bool, sendable: nat -> bool) {
    forall p :: lo <= p < hi && wanted(p) ==> sendable(p)
  }

  lemma SendableNext(lo: nat, hi: nat, wanted: nat -> bool, sendable: nat -> bool)
    requires lo <= hi
    ensures AllSendable(lo, lo, wanted, sendable)
    ensures AllSendable(lo, hi + 1, wanted, sendable) <==>
            AllSendable(lo, hi, wanted, sendable) && (wanted(hi) ==> sendable(hi))
    ensures wanted(hi) && !sendable(hi) ==> forall n :: n > hi ==> !AllSendable(lo, n, wanted, sendable)
  {
  }

  lemma ChosenNone(lo: nat, wanted: nat -> bool)
    ensures Chosen(lo, lo, wanted) == []
  {
  }

  lemma ChosenNext(lo: nat, hi: nat, wanted: nat -> bool)
    requires lo <= hi
    ensures Chosen(lo, hi + 1, wanted) ==
            if wanted(hi) then Chosen(lo, hi, wanted) + [hi] else Chosen(lo, hi, wanted)
  {
  }

  lemma BatchEmpty(stage: Stage, seed: nat)
    ensures Batch([], [], stage, seed)
  {
  }

  lemma BatchMore(rs: seq<Request>, ports: seq<nat>, stage: Stage, seed: nat, r: Request)
    requires Batch(rs, ports, stage, seed) && r.stage == stage && r.seqno == seed + |rs| + 1
    ensures Batch(rs + [r], ports + [r.port], stage, seed)
  {
  }

  /** What the answer to an INIPORT leads to; each step can fail. */
  datatype Reply = Reply(parsed: bool, sent: bool, mapped: bool)

  /** The number of the latest request, one for both sources. */
  class Counter {
    var last: nat

    constructor ()
    {
      last := 0;
    }
  }

  class Requests {
    var main: seq<Request>
    var alt: seq<Request>
    const counter: Counter
    ghost var issued: set<Request>    // INIPORT requests of this connection
    ghost var answered: set<Request>  // those whose answer was matched
    ghost var lost: set<Request>      // those discarded before an answer

    ghost function Live(): set<Request>
      reads this
    {
      (set r | r in main) + (set r | r in alt)
    }

    /** Each live request is in exactly one list, the list that fits its stage, and every
        INIPORT of the connection is answered, lost or in the main list. */
    ghost predicate Valid()
      reads this, Live()
    {
      && NoDup(main + alt)
      && (forall r :: r in main ==> r.stage == SentIni)
      && (forall r :: r in alt ==> r.stage != SentIni)
      && issued == answered + lost + (set r | r in main)
      && answered !! lost && (forall r :: r in main ==> r !in answered && r !in lost)
    }

    /** No two live requests share a number. */
    ghost predicate Distinct()
      reads this, Live()
    {
      forall r, r' :: r in Live() && r' in Live() && r != r' ==> r.seqno != r'.seqno
    }

    /** The number is not that of a live request. */
    ghost predicate Unused(seqno: nat)
      reads this, Live()
    {
      forall r :: r in Live() ==> r.seqno != seqno
    }

    constructor (counter: Counter)
      ensures this.counter == counter
      ensures Valid() && Distinct() && main == [] && alt == [] && issued == lost == {}
    {
      this.counter := counter;
      main, alt := [], [];
      issued, answered, lost := {}, {}, {};
    }

    /** A new connection begins: what its predecessor lost is not its own. */
    ghost method Begin()
      requires Valid()
      modifies `issued, `answered, `lost
      ensures Valid() && issued == (set r | r in main) && answered == lost == {}
    {
      issued, answered, lost := (set r | r in main), {}, {};
    }

    /** `cleanup_requests`: the INIPORT requests still waiting are lost. */
    method Cleanup()
      requires Valid()
      modifies this
      ensures Valid() && Distinct() && main == [] && alt == []
      ensures issued == old(issued) && answered == old(answered) && lost == old(lost + (set r | r in main))
      ensures lost == {} <==> old(lost == {} && main == [])
    {
      assert main != [] ==> main[0] in (set r | r in main);
      lost := lost + (set r | r in main);
      main, alt := [], [];
    }

    /** The answer to an INIPORT that was taken off the main list; it moves to the alternate
        list with a new number unless the ADDPORT could not be sent or the port not named. The
        numbers stay distinct exactly when the new one is not that of another request. */
    method TakeIni(i: nat, reply: Reply)
      requires Valid() && i < |main|
      modifies this, counter, main[i]
      ensures Valid() && main == Cut(old(main), i) && issued == old(issued) && lost == old(lost)
      ensures answered == old(answered) + {old(main)[i]}
      ensures if reply.parsed && reply.sent && reply.mapped
              then alt == old(alt) + [old(main)[i]] && old(main)[i].stage == SentAdd
                   && old(main)[i].seqno == counter.last
              else alt == old(alt) && old(main)[i].seqno == old(main[i].seqno)
      ensures counter.last == if reply.parsed then old(counter.last) + 1 else old(counter.last)
      ensures old(Distinct()) ==>
                (Distinct() <==> (alt != old(alt) ==>
                   forall r :: r in old(Live()) && r != old(main)[i] ==> old(r.seqno) != old(counter.last) + 1))
    {
      var req := main[i];
      CutOne(main, alt, i);
      CutKeeps(main, i);
      ghost var was := main;
      main := Cut(main, i);
      answered := answered + {req};
      assert (set r | r in was) == (set r | r in main) + {req};
      if reply.parsed {
        counter.last := counter.last + 1;
        if reply.sent && reply.mapped {
          req.seqno := counter.last;
          req.stage := SentAdd;
          alt := alt + [req];
          assert forall r :: r in alt ==> r in old(alt) || r == req;
          assert Live() == old(Live());
        }
      }
    }

    method TakeAlt(i: nat)
      requires Valid() && i < |alt|
      modifies this
      ensures Valid() && alt == Cut(old(alt), i) && main == old(main)
      ensures issued == old(issued) && answered == old(answered) && lost == old(lost)
      ensures old(Distinct()) ==> Distinct()
    {
      CutOther(main, alt, i);
      CutKeeps(alt, i);
      alt := Cut(alt, i);
    }

    lemma Apart(i: nat)
      requires Valid() && i < |main|
      ensures main[i] !in Cut(main, i) && main[i] !in alt && forall r :: r in Cut(main, i) ==> r in main
    {
      CutOne(main, alt, i);
      CutKeeps(main, i);
    }

    /** `process_port_response`: the first request with the number is taken, from the main list
        if it is there and else from the alternate list, and no other changes its list, stage or
        number. Every answer that finds its request makes progress. */
    method Response(seqno: nat, reply: Reply) returns (matched: bool)
      requires Valid()
      modifies this, counter, Live()
      ensures Valid()
      ensures old(Distinct() && Unused(counter.last + 1)) ==> Distinct()
      ensures matched <==> exists r :: r in old(Live()) && old(r.seqno) == seqno
      ensures var i, j := old(Position(main, seqno)), old(Position(alt, seqno));
              var last := old(counter.last);
              if i < |old(main)| then
                && main == Cut(old(main), i) && answered == old(answered) + {old(main)[i]}
                && counter.last == (if reply.parsed then last + 1 else last)
                && if reply.parsed && reply.sent && reply.mapped
                   then alt == old(alt) + [old(main)[i]]
                        && old(main)[i].stage == SentAdd && old(main)[i].seqno == last + 1
                   else alt == old(alt)
              else
                && main == old(main) && answered == old(answered) && counter.last == last
                && alt == if j < |old(alt)| then Cut(old(alt), j) else old(alt)
      ensures forall r :: r in old(Live()) && (r in main || r !in old(main)) ==>
                            r.stage == old(r.stage) && r.seqno == old(r.seqno)
      ensures !matched ==> main == old(main) && alt == old(alt) && answered == old(answered)
      ensures matched ==> 2 * |main| + |alt| < 2 * |old(main)| + |old(alt)|
      ensures matched ==> (|main| == |old(main)| - 1 && |alt| - |old(alt)| in {0, 1})
                          || (main == old(main) && |alt| == |old(alt)| - 1)
      ensures Live() <= old(Live())
      ensures issued == old(issued) && lost == old(lost) && old(answered) <= answered
    {
      hide Valid, Distinct, NoDup;
      PositionFinds(main, seqno);
      PositionFinds(alt, seqno);
      hide Position;
      var i := Find(main, seqno);
      if i < |main| {
        assert main[i] in Live();
        Apart(i);
        TakeIni(i, reply);
        return true;
      }
      i := Find(alt, seqno);
      matched := i < |alt|;
      if matched {
        assert alt[i] in Live();
        CutKeeps(alt, i);
        TakeAlt(i);
      }
    }

    method Add(port: nat, teardown: bool, seqno: nat) returns (r: Request)
      requires Valid()
      modifies this
      ensures Valid() && fresh(r) && r.port == port && r.seqno == seqno
      ensures r.stage == if teardown then SentDel else SentIni
      ensures if teardown then main == old(main) && alt == old(alt) + [r] && issued == old(issued)
              else main == old(main) + [r] && alt == old(alt) && issued == old(issued) + {r}
      ensures answered == old(answered) && lost == old(lost)
    {
      r := new Request(port, if teardown then SentDel else SentIni, seqno);
      AppendFresh(main, alt, r);
      if teardown {
        alt := alt + [r];
      } else {
        assert (set x | x in main + [r]) == (set x | x in main) + {r};
        main := main + [r];
        issued := issued + {r};
      }
    }

    /** Requests for the wanted ports from `lo`, up to the first that cannot be sent. */
    method Ask(lo: nat, hi: nat, wanted: nat -> bool, teardown: bool, seed: nat, sendable: nat -> bool)
      returns (stop: nat, seqno: nat, ghost added: seq<Request>)
      requires lo <= hi && Valid()
      modifies this
      ensures Valid() && fresh(added) && |added| <= hi - lo && lo <= stop <= hi
      ensures stop == hi ==> seqno == seed + |added|
      ensures Batch(added, Chosen(lo, stop, wanted), if teardown then SentDel else SentIni, seed)
      ensures teardown || AllSendable(lo, stop, wanted, sendable)
      ensures stop < hi ==> !teardown && wanted(stop) && !sendable(stop)
      ensures if teardown
              then main == old(main) && alt == old(alt) + added && issued == old(issued)
              else main == old(main) + added && alt == old(alt) && issued == old(issued) + (set r | r in added)
      ensures answered == old(answered) && lost == old(lost)
    {
      hide Valid, Distinct, Batch, Chosen, AllSendable;
      ChosenNone(lo, wanted);
      SendableNext(lo, lo, wanted, sendable);
      added, stop, seqno := [], lo, seed;
      ghost var stage := if teardown then SentDel else SentIni;
      BatchEmpty(stage, seed);
      while stop < hi
        invariant lo <= stop <= hi && seqno == seed + |added| && fresh(added) && |added| <= stop - lo
        invariant Batch(added, Chosen(lo, stop, wanted), stage, seed)
        invariant if teardown
                  then main == old(main) && alt == old(alt) + added && issued == old(issued)
                  else main == old(main) + added && alt == old(alt) && issued == old(issued) + (set r | r in added)
        invariant answered == old(answered) && lost == old(lost) && Valid()
        invariant teardown || AllSendable(lo, stop, wanted, sendable)
      {
        ChosenNext(lo, stop, wanted);
        SendableNext(lo, stop, wanted, sendable);
        if wanted(stop) {
          seqno := seqno + 1;
          if !teardown && !sendable(stop) {
            return;
          }
          var r := Add(stop, teardown, seqno);
          BatchMore(added, Chosen(lo, stop, wanted), stage, seed, r);
          assert (set x | x in added + [r]) == (set x | x in added) + {r};
          added := added + [r];
        }
        stop := stop + 1;
      }
    }

    /** `setup_interfaces` for ports `lo` up to `hi`. A port is passed over when it is not
        wanted, which covers the port mask, the split of ports between the two controllers and
        a failed allocation. On failure the requests sent so far stay in the list. */
    method Setup(lo: nat, hi: nat, maxPorts: nat, wanted: nat -> bool, teardown: bool, seed: nat, sendable: nat -> bool)
      returns (rc: int, ghost added: seq<Request>)
      requires lo <= hi && Valid()
      modifies this, counter
      ensures Valid() && fresh(added) && |added| <= hi - lo
      ensures rc in {0, -1}
      ensures rc == 0 <==> hi <= maxPorts && (teardown || AllSendable(lo, hi, wanted, sendable))
      ensures var stage := if teardown then SentDel else SentIni;
              if rc == 0 then counter.last == seed + |added| && Batch(added, Chosen(lo, hi, wanted), stage, seed)
              else && counter.last == old(counter.last)
                   && if hi > maxPorts then added == []
                      else exists p :: && lo <= p < hi && wanted(p) && !sendable(p)
                                       && AllSendable(lo, p, wanted, sendable)
                                       && Batch(added, Chosen(lo, p, wanted), stage, seed)
      ensures if teardown
              then main == old(main) && alt == old(alt) + added && issued == old(issued)
              else main == old(main) + added && alt == old(alt) && issued == old(issued) + (set r | r in added)
      ensures answered == old(answered) && lost == old(lost)
      ensures rc == 0 && old(main) == [] && old(alt) == [] ==> Distinct() && Unused(counter.last + 1)
    {
      hide Valid, Distinct, Batch, Chosen, AllSendable;
      if hi > maxPorts {
        added := [];
        assert main == old(main) + added && alt == old(alt) + added;
        return -1, added;
      }
      var stop, seqno;
      stop, seqno, added := Ask(lo, hi, wanted, teardown, seed, sendable);
      SendableNext(lo, stop, wanted, sendable);
      if stop < hi {
        return -1, added;
      }
      SetLast(seqno);
      if old(main) == [] && old(alt) == [] {
        assert main == if teardown then [] else added;
        assert alt == if teardown then added else [];
        BatchDistinct(added, Chosen(lo, hi, wanted), if teardown then SentDel else SentIni, seed);
      }
      rc := 0;
    }

    method SetLast(seqno: nat)
      modifies counter
      ensures counter.last == seqno && (old(Valid()) ==> Valid())
    {
      counter.last := seqno;
    }

    lemma BatchDistinct(rs: seq<Request>, ports: seq<nat>, stage: Stage, seed: nat)
      requires Batch(rs, ports, stage, seed) && counter.last == seed + |rs|
      requires (main == rs && alt == []) || (main == [] && alt == rs)
      ensures Distinct() && Unused(counter.last + 1)
    {
    }

    /** `setup_interfaces_done` */
    predicate Done()
      reads this
    {
      main == []
    }

    /** With the list empty, what is not answered was lost. */
    lemma DoneMeansAnswered()
      requires Valid() && Done()
      ensures issued - answered == lost && (answered == issued <==> lost == {})
    {
    }
  }
}
