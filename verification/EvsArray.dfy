/** Recovery on the circular array: the array handlers of EvsLoops always get what they require, and as long as no
    old packet takes the place of another one recovery there is that on the map. */
module EvsArray {
  import opened Packets
  import opened Daemon
  import opened DaemonInv
  import opened Form1
  import opened Protocol
  import opened EvsLoops
  import Evs
  import EvsRuns
  import FormWalk
  import Recovery
  import Ring
  import RingInv
  import RingSafety

  /** Read_form2 gets what it requires of the array, at every daemon the form token visited. */
  lemma Form2Fits(w: FormWalk.World, j: nat)
    requires Recovery.Walked(w) && j < |w.r.ds| && FormWalk.Visited(w, j)
    ensures w.entry.Some?
    ensures var d, e := w.r.ds[j], w.entry.value;
            && !d.exited && d.discarded <= e.aru <= d.my && e.aru <= e.highest <= e.aru + MAX_PACKETS_IN_STRUCT
            && (forall h | h in e.holes :: Within(h, e.aru))
            && |w.r.sent| <= e.aru + Ring.MAX_LIVE
  {
    Recovery.WalkedOwn(w);
    hide Recovery.Walked, Recovery.AllOwn, Recovery.OwnHeld, Recovery.WalkOwn;
    assert FormWalk.Inv(w) by { Recovery.WalkedInv(w); }
    Recovery.EntryFacts(w, j);
    FormWalk.RunningLocal(w.r, j);
    RingSafety.RunningRest(w.r);
    assert Ring.DaemonOk(w.r, j);
    hide FormWalk.Inv, RingSafety.Running, Ring.Rest;
    forall h | h in w.entry.value.holes
      ensures Within(h, w.entry.value.aru)
    {
      Recovery.HolesAbove(w, h);
    }
  }

  /** The other handlers in EVS get what they require, whatever packets of the ring arrive, and however often. */
  lemma EvsFits(d: State, sent: seq<Packet>, e: Entry, lastSeq: nat, s: nat)
    requires EvsRuns.InEvs(d, sent, e, lastSeq) && |sent| <= e.aru + Ring.MAX_LIVE && 1 <= s <= |sent|
    ensures !d.exited && d.discarded <= d.my && d.discarded <= d.hi <= d.discarded + MAX_PACKETS_IN_STRUCT
    ensures sent[s - 1].seqNo <= d.discarded + MAX_PACKETS_IN_STRUCT
  {
    EvsRuns.InEvsShape(d, sent, e, lastSeq);
    hide EvsRuns.Holds, EvsRuns.Marked, EvsRuns.Reach, InSequence, Evs.Up;
  }

  /** An old packet's entry lies far above what is live, unless the packet is older than that. */
  lemma SeatAbove(s: nat, lo: nat, live: nat)
    requires s <= lo < s + (MAX_PACKETS_IN_STRUCT - live) && live <= MAX_PACKETS_IN_STRUCT
    ensures Seat(s, lo) == s + MAX_PACKETS_IN_STRUCT > lo + live
  {
    var t := s + MAX_PACKETS_IN_STRUCT;
    assert Within(t, lo);
    SeatUnique(s, t, lo);
  }

  lemma SeatUnique(s: nat, t: nat, lo: nat)
    requires Within(t, lo) && t % MAX_PACKETS_IN_STRUCT == s % MAX_PACKETS_IN_STRUCT
    ensures Seat(s, lo) == t
  {
  }

  /** One event in EVS on the array. */
  function StepOn(d: State, e: Entry, lastSeq: nat, sent: seq<Packet>, ev: Evs.Event): Evs.Phase {
    match ev
    case Got(s) => Evs.Recovering(if 1 <= s <= |sent| then Put(d, sent[s - 1]) else d)
    case TokenAt(t) => Evs.Step(d, e, lastSeq, sent, ev)
  }

  function RunOn(d: State, e: Entry, lastSeq: nat, sent: seq<Packet>, evs: seq<Evs.Event>): Evs.Phase
    decreases |evs|
  {
    if evs == [] then Evs.Recovering(d) else
      match StepOn(d, e, lastSeq, sent, evs[0])
      case Done(f, o) => Evs.Done(f, o)
      case Recovering(f) => RunOn(f, e, lastSeq, sent, evs[1..])
  }

  /** The same daemon but for entries of the array outside the numbers lo + 1 .. hi. */
  ghost predicate Near(a: State, d: State, lo: nat, hi: nat) {
    && a == d.(store := a.store)
    && forall s | lo < s <= hi :: (s in a.store <==> s in d.store) && (s in a.store ==> a.store[s] == d.store[s])
  }

  /** Packet s was discarded, is not below Aru, and its entry of the array stands for a number up to top of which
      there is no packet. */
  predicate TakesPlace(d: State, e: Entry, s: nat, top: nat) {
    d.aru < s <= e.aru && Seat(s, e.aru) <= top && Seat(s, e.aru) !in d.store
  }

  /** None of the packets that arrive takes another one's place, and none is above top. */
  ghost predicate NoneTaken(d: State, e: Entry, lastSeq: nat, sent: seq<Packet>, evs: seq<Evs.Event>, top: nat)
    decreases |evs|
  {
    evs == [] ||
    ((evs[0].Got? && 1 <= evs[0].s <= |sent| ==> evs[0].s <= top && !TakesPlace(d, e, evs[0].s, top))
     && match Evs.Step(d, e, lastSeq, sent, evs[0])
        case Done(_, _) => true
        case Recovering(f) => NoneTaken(f, e, lastSeq, sent, evs[1..], top))
  }

  lemma {:induction false} AdvanceNear(a: Store, d: Store, lo: nat, my: nat, hi: nat)
    requires lo <= my && forall s | lo < s <= hi :: s in a <==> s in d
    ensures Advance(a, my, hi) == Advance(d, my, hi)
    decreases hi - my
  {
    if my < hi && my + 1 in a {
      AdvanceNear(a, d, lo, my + 1, hi);
    }
  }

  /** One arrival: array and map stay alike, up to number top, exactly when the packet takes no other one's place. */
  lemma PutNear(a: State, d: State, e: Entry, top: nat, p: Packet)
    requires Near(a, d, e.aru, top) && !d.exited && d.discarded == e.aru <= d.my
    requires e.aru <= d.hi <= top <= e.aru + MAX_PACKETS_IN_STRUCT && p.seqNo <= top
    ensures Near(Put(a, p), Evs.Insert(d, p), e.aru, top) <==> !TakesPlace(d, e, p.seqNo, top)
    ensures Evs.Insert(d, p).hi <= top
  {
    var s := p.seqNo;
    if s > e.aru {
      PutInserts(a, p);
      if s > d.aru && s !in d.store && s == d.my + 1 {
        var hi := if d.hi < s then s else d.hi;
        AdvanceNear(a.store[s := Fresh(p)], d.store[s := Fresh(p)], e.aru, d.my, hi);
      }
    } else {
      OldPut(a, d, e, top, p);
    }
  }

  lemma OldPut(a: State, d: State, e: Entry, top: nat, p: Packet)
    requires Near(a, d, e.aru, top) && !d.exited && d.discarded == e.aru <= d.my && e.aru <= d.hi && p.seqNo <= e.aru
    ensures Near(Put(a, p), Evs.Insert(d, p), e.aru, top) <==> !TakesPlace(d, e, p.seqNo, top)
  {
    hide Seat;
    var t := Seat(p.seqNo, e.aru);
    var g, f := Put(a, p), Evs.Insert(d, p);
    assert t > e.aru;
    assert g.store == if p.seqNo <= d.aru || t in a.store then a.store else a.store[t := Fresh(p)];
    assert f.store == if p.seqNo <= d.aru || p.seqNo in d.store then d.store else d.store[p.seqNo := Fresh(p)];
    if TakesPlace(d, e, p.seqNo, top) {
      assert t !in a.store && t in g.store && t !in f.store;
    }
  }

  lemma CommitNear(a: State, d: State, e: Entry, lastSeq: nat, t: Token, top: nat)
    requires Near(a, d, e.aru, top) && e.aru <= d.my && d.hi <= top
    ensures Near(Evs.Commit(a, t, lastSeq), Evs.Commit(d, t, lastSeq), e.aru, top)
  {
    AdvanceNear(a.store, d.store, e.aru, d.my, d.hi);
  }

  lemma {:induction false} BeforeNear(a: State, d: State, lo: nat, i: nat)
    requires Near(a, d, lo, d.hi) && lo < i
    ensures Near(Evs.HandUpBefore(a, i), Evs.HandUpBefore(d, i), lo, d.hi)
    ensures Evs.HandUpBefore(d, i).discarded == d.discarded || Evs.HandUpBefore(d, i).discarded >= i
    decreases d.hi + 1 - i
  {
    if !d.exited && i <= d.hi && i in d.store && !d.store[i].Hole? && !d.store[i].p.service.Safe? {
      var e := if d.store[i].Fresh? then Deliver(d, i) else d;
      var f := if a.store[i].Fresh? then Deliver(a, i) else a;
      BeforeNear(f.(store := f.store - {i}, discarded := i), e.(store := e.store - {i}, discarded := i), lo, i + 1);
    }
  }

  lemma {:induction false} AfterNear(a: State, d: State, lo: nat, i: nat, hole: bool, commit: seq<nat>)
    requires Near(a, d, lo, d.hi) && lo < i
    ensures Near(Evs.HandUpAfter(a, i, hole, commit), Evs.HandUpAfter(d, i, hole, commit), lo, d.hi)
    decreases d.hi + 1 - i
  {
    if !d.exited && i <= d.hi && i in d.store {
      if d.store[i].Hole? {
        AfterNear(a.(store := a.store - {i}), d.(store := d.store - {i}), lo, i + 1, true, commit);
      } else {
        var e := if (!hole || d.store[i].p.sender in commit) && d.store[i].Fresh? then Deliver(d, i) else d;
        var f := if (!hole || a.store[i].p.sender in commit) && a.store[i].Fresh? then Deliver(a, i) else a;
        AfterNear(f.(store := f.store - {i}), e.(store := e.store - {i}), lo, i + 1, hole, commit);
      }
    }
  }

  /** The same is handed up, or the fatal exit taken. */
  predicate SameOutcome(o1: Evs.Outcome, o2: Evs.Outcome) {
    o1.before == o2.before && o1.log == o2.log && o1.d.exited == o2.d.exited
  }

  lemma RecoverNear(a: State, d: State, lo: nat, top: nat, commit: seq<nat>)
    requires Near(a, d, lo, top) && d.discarded == lo && d.hi <= top
    ensures SameOutcome(Evs.Recover(a, commit), Evs.Recover(d, commit))
  {
    hide Evs.HandUpBefore, Evs.HandUpAfter;
    assert Near(a, d, lo, d.hi);
    BeforeNear(a, d, lo, lo + 1);
    var b := Evs.HandUpBefore(d, lo + 1);
    AfterNear(Evs.HandUpBefore(a, lo + 1), b, lo, b.discarded + 1, false, commit);
  }

  /** As long as no arriving packet takes another one's place, recovery on the array does what it does on the map,
      old and late packets included. */
  lemma {:induction false} ArrayRunAgrees(a: State, d: State, sent: seq<Packet>, e: Entry, lastSeq: nat,
      evs: seq<Evs.Event>, top: nat)
    requires EvsRuns.InEvs(d, sent, e, lastSeq) && Near(a, d, e.aru, top)
    requires d.hi <= top <= e.aru + MAX_PACKETS_IN_STRUCT && NoneTaken(d, e, lastSeq, sent, evs, top)
    ensures var r1, r2 := RunOn(a, e, lastSeq, sent, evs), Evs.Run(d, e, lastSeq, sent, evs);
            && Near(r1.d, r2.d, e.aru, top) && r1.Done? == r2.Done?
            && (r1.Done? ==> SameOutcome(r1.o, r2.o))
    decreases |evs|
  {
    hide EvsRuns.InEvs, Evs.Recover, Evs.Commit, Evs.Insert, Put, Seat, TakesPlace;
    if evs != [] {
      EvsRuns.InEvsShape(d, sent, e, lastSeq);
      EvsRuns.InEvsReached(d, sent, e, lastSeq);
      match evs[0]
      case Got(s) =>
        if 1 <= s <= |sent| {
          PutNear(a, d, e, top, sent[s - 1]);
          EvsRuns.InsertKeeps(d, sent, e, lastSeq, s);
          ArrayRunAgrees(Put(a, sent[s - 1]), Evs.Insert(d, sent[s - 1]), sent, e, lastSeq, evs[1..], top);
        } else {
          ArrayRunAgrees(a, d, sent, e, lastSeq, evs[1..], top);
        }
      case TokenAt(t) =>
        CommitNear(a, d, e, lastSeq, t, top);
        EvsRuns.CommitKeeps(d, sent, e, lastSeq, t);
        EvsRuns.CommitFrame(d, t, lastSeq);
        EvsRuns.CommitFrame(a, t, lastSeq);
        var f, g := Evs.Commit(d, t, lastSeq), Evs.Commit(a, t, lastSeq);
        EvsRuns.InEvsShape(f, sent, e, lastSeq);
        if f.aru > f.discarded && f.aru == lastSeq {
          RecoverNear(g, f, e.aru, top, e.commit);
        } else {
          ArrayRunAgrees(g, f, sent, e, lastSeq, evs[1..], top);
        }
    }
  }

  /** No packet arrives that is a whole array, less what is live, below the entry's aru. */
  predicate Recent(evs: seq<Evs.Event>, e: Entry, live: nat) {
    forall i | 0 <= i < |evs| && evs[i].Got? :: e.aru + live < evs[i].s + MAX_PACKETS_IN_STRUCT
  }

  /** None of those takes another one's place, whatever is missing. */
  lemma {:induction false} RecentNeverTaken(d: State, e: Entry, lastSeq: nat, sent: seq<Packet>, evs: seq<Evs.Event>,
      live: nat)
    requires |sent| <= e.aru + live && live <= MAX_PACKETS_IN_STRUCT && Recent(evs, e, live)
    ensures NoneTaken(d, e, lastSeq, sent, evs, |sent|)
    decreases |evs|
  {
    hide Evs.Step, Seat;
    if evs != [] {
      assert Recent(evs[1..], e, live);
      if evs[0].Got? && evs[0].s <= e.aru {
        SeatAbove(evs[0].s, e.aru, live);
      }
      match Evs.Step(d, e, lastSeq, sent, evs[0])
      case Done(_, _) =>
      case Recovering(f) => RecentNeverTaken(f, e, lastSeq, sent, evs[1..], live);
    }
  }

  /** An old packet whose entry stands for a number that is missing takes the place of the missing packet, which
      is then refused. */
  lemma DuplicateTakesPlace(d: State, p: Packet, missing: Packet)
    requires !d.exited && d.aru < p.seqNo <= d.discarded <= d.my && d.discarded <= d.hi
    requires Seat(p.seqNo, d.discarded) == missing.seqNo && missing.seqNo !in d.store
    ensures var g := Put(d, p);
            g == d.(store := d.store[missing.seqNo := Fresh(p)]) && Put(g, missing) == g
  {
    assert Within(missing.seqNo, d.discarded);
  }
}
