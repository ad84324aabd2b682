/** Old packets that take the places of others in the circular array during EVS: what recovery then does, and exactly
    when it still ends with the right outcome. */
module EvsTaken {
  import opened Packets
  import opened Daemon
  import opened DaemonInv
  import opened Form1
  import opened Protocol
  import opened EvsLoops
  import opened EvsArray
  import Evs
  import EvsRuns
  import FormWalk
  import Recovery

  /** The entry of number t holds a packet of another number. */
  predicate Foreign(store: Store, t: nat) {
    t in store && !store[t].Hole? && store[t].p.seqNo != t
  }

  /** The entry has a hole below number t. */
  ghost predicate HoleBelow(e: Entry, t: nat) {
    exists h :: h in e.holes && h < t
  }

  lemma {:induction false} OnceBroken(s: seq<Packet>, t: seq<Packet>)
    requires s <= t && !Once(s)
    ensures !Once(t)
  {
    if s != t {
      OnceBroken(s, t[..|t| - 1]);
    }
  }

  /** Number m of the store is a packet that was handed up before and that the loops, now at number i, will hand
      up again: its sender is a member, or there is no hole before m. */
  ghost predicate Doubled(d: State, i: nat, m: nat, hole: bool, commit: seq<nat>) {
    && i <= m <= d.hi && m in d.store && d.store[m].Fresh? && d.store[m].p.seqNo in Seqs(d.log)
    && (d.store[m].p.sender in commit || (!hole && forall t | i <= t < m && t in d.store :: !d.store[t].Hole?))
  }

  /** The loops pass number i, having handed its packet up or not. */
  lemma DoubledNext(d: State, f: State, i: nat, m: nat, hole: bool, hole': bool, commit: seq<nat>)
    requires Doubled(d, i, m, hole, commit) && i < m && f.hi == d.hi && Seqs(d.log) <= Seqs(f.log)
    requires i in d.store && (hole' ==> hole || d.store[i].Hole?)
    requires f.store.Keys == d.store.Keys - {i} && forall t | t in f.store :: f.store[t] == d.store[t]
    ensures Doubled(f, i + 1, m, hole', commit)
  {
    hide Seqs;
    assert m in f.store.Keys;
    forall t | i + 1 <= t < m && t in f.store
      ensures f.store[t].Hole? ==> t in d.store && d.store[t].Hole?
    {
      assert t in d.store.Keys;
    }
  }

  /** The daemon after the loops passed a packet at number i. */
  function Passed(d: State, i: nat, up: bool): State
    requires i in d.store
  {
    var f := if up && d.store[i].Fresh? then Deliver(d, i) else d;
    f.(store := f.store - {i})
  }

  lemma PassedIs(d: State, i: nat, up: bool)
    requires i in d.store
    ensures var f := Passed(d, i, up);
            && f.hi == d.hi && Seqs(d.log) <= Seqs(f.log) && d.log <= f.log
            && f.store.Keys == d.store.Keys - {i} && forall t | t in f.store :: f.store[t] == d.store[t]
    ensures up && d.store[i].Fresh? && d.store[i].p.seqNo in Seqs(d.log) ==> !Once(Passed(d, i, up).log)
  {
    if d.store[i].Fresh? {
      LogAppend(d.log, d.store[i].p);
    }
  }

  lemma {:induction false} BeforeDoubled(d: State, i: nat, m: nat, commit: seq<nat>)
    requires Doubled(d, i, m, false, commit) && d.discarded == i - 1
    ensures var b := Evs.HandUpBefore(d, i);
            b.exited || !Once(b.log) || Doubled(b, b.discarded + 1, m, false, commit)
    decreases m - i
  {
    hide Once, Seqs, Passed;
    if !d.exited && i in d.store && !d.store[i].Hole? && !d.store[i].p.service.Safe? {
      PassedIs(d, i, true);
      var f := Passed(d, i, true).(discarded := i);
      assert Evs.HandUpBefore(d, i) == Evs.HandUpBefore(f, i + 1) by { BeforePasses(d, i); }
      if i == m {
        OnceBroken(f.log, Evs.HandUpBefore(f, i + 1).log);
      } else {
        DoubledNext(d, f, i, m, false, false, commit);
        BeforeDoubled(f, i + 1, m, commit);
      }
    }
  }

  lemma BeforePasses(d: State, i: nat)
    requires !d.exited && i <= d.hi && i in d.store && !d.store[i].Hole? && !d.store[i].p.service.Safe?
    ensures Evs.HandUpBefore(d, i) == Evs.HandUpBefore(Passed(d, i, true).(discarded := i), i + 1)
  {
  }

  lemma AfterPasses(d: State, i: nat, hole: bool, commit: seq<nat>)
    requires !d.exited && i <= d.hi && i in d.store
    ensures Evs.HandUpAfter(d, i, hole, commit) ==
            if d.store[i].Hole? then Evs.HandUpAfter(Passed(d, i, false), i + 1, true, commit)
            else Evs.HandUpAfter(Passed(d, i, !hole || d.store[i].p.sender in commit), i + 1, hole, commit)
  {
  }

  lemma {:induction false} AfterDoubled(d: State, i: nat, m: nat, hole: bool, commit: seq<nat>)
    requires Doubled(d, i, m, hole, commit)
    ensures var a := Evs.HandUpAfter(d, i, hole, commit); a.exited || !Once(a.log)
    decreases m - i
  {
    hide Once, Seqs, Passed;
    if !d.exited && i in d.store {
      AfterPasses(d, i, hole, commit);
      var hole' := hole || d.store[i].Hole?;
      var f := Passed(d, i, !d.store[i].Hole? && (!hole || d.store[i].p.sender in commit));
      PassedIs(d, i, !d.store[i].Hole? && (!hole || d.store[i].p.sender in commit));
      assert Evs.HandUpAfter(d, i, hole, commit) == Evs.HandUpAfter(f, i + 1, hole', commit);
      if i == m {
        OnceBroken(f.log, Evs.HandUpAfter(f, i + 1, hole', commit).log);
      } else {
        DoubledNext(d, f, i, m, hole, hole', commit);
        AfterDoubled(f, i + 1, m, hole', commit);
      }
    }
  }

  /** A second copy of a packet that was handed up before ends recovery with that packet handed up twice, or with a
      fatal exit, unless a hole comes before it and its sender is no member. */
  lemma RecoverDoubled(d: State, commit: seq<nat>, m: nat)
    requires Doubled(d, d.discarded + 1, m, false, commit)
    ensures var o := Evs.Recover(d, commit); o.d.exited || !Once(o.log)
  {
    hide Doubled, Evs.HandUpBefore, Evs.HandUpAfter, Once;
    BeforeDoubled(d, d.discarded + 1, m, commit);
    var b := Evs.HandUpBefore(d, d.discarded + 1);
    if b.exited {
      Evs.ExitedAfter(b, b.discarded + 1, false, commit);
    } else if !Once(b.log) {
      OnceBroken(b.log, Evs.HandUpAfter(b, b.discarded + 1, false, commit).log);
    } else {
      AfterDoubled(b, b.discarded + 1, m, false, commit);
    }
  }

  /** The stores from number i on, where foreign packets that will be left out stand for holes. */
  ghost predicate Shadow(a: State, d: State, i: nat, hole: bool, commit: seq<nat>) {
    && a == d.(store := a.store)
    && forall t | i <= t <= d.hi ::
         && (t in a.store <==> t in d.store)
         && (t in a.store && a.store[t] != d.store[t] ==>
               && d.store[t].Hole? && !a.store[t].Hole? && a.store[t].p.sender !in commit
               && (hole || exists h :: i <= h < t && h in a.store && a.store[h].Hole?))
  }

  lemma ShadowSame(a: State, d: State, i: nat, hole: bool, commit: seq<nat>)
    requires Shadow(a, d, i, hole, commit)
    ensures a == d.(store := a.store)
    ensures i <= d.hi ==> (i in a.store <==> i in d.store)
    ensures i <= d.hi && i in d.store && a.store[i] != d.store[i] ==>
              d.store[i].Hole? && !a.store[i].Hole? && a.store[i].p.sender !in commit && hole
  {
  }

  lemma {:induction false} BeforeShadow(a: State, d: State, i: nat, commit: seq<nat>)
    requires Shadow(a, d, i, false, commit) && d.discarded == i - 1
    ensures var b := Evs.HandUpBefore(d, i); Shadow(Evs.HandUpBefore(a, i), b, b.discarded + 1, false, commit)
    decreases d.hi + 1 - i
  {
    hide Shadow, Passed, Evs.HandUpBefore;
    ShadowSame(a, d, i, false, commit);
    if d.exited || i > d.hi || i !in d.store || d.store[i].Hole? || d.store[i].p.service.Safe? {
      BeforeEnds(a, i);
      BeforeEnds(d, i);
      ShadowMoved(a, d, i, d.discarded, d.exited || (i <= d.hi && i !in d.store), commit);
    } else {
      BeforePasses(a, i);
      BeforePasses(d, i);
      PassedIs(d, i, true);
      ShadowNext(a, d, i, false, commit, true);
      var f, g := Passed(a, i, true), Passed(d, i, true);
      ShadowSame(f, g, i + 1, false, commit);
      ShadowMoved(f, g, i + 1, i, g.exited, commit);
      BeforeShadow(f.(discarded := i), g.(discarded := i), i + 1, commit);
    }
  }

  lemma BeforeEnds(d: State, i: nat)
    requires d.exited || i > d.hi || i !in d.store || d.store[i].Hole? || d.store[i].p.service.Safe?
    ensures Evs.HandUpBefore(d, i) == d.(exited := d.exited || (i <= d.hi && i !in d.store))
  {
  }

  lemma ShadowMoved(a: State, d: State, i: nat, n: nat, exited: bool, commit: seq<nat>)
    requires Shadow(a, d, i, false, commit)
    ensures Shadow(a.(discarded := n, exited := exited), d.(discarded := n, exited := exited), i, false, commit)
  {
  }

  /** The store without number i. */
  ghost predicate Without(store: Store, store': Store, i: nat) {
    forall t :: (t in store' <==> t in store && t != i) && (t in store' ==> store'[t] == store[t])
  }

  lemma PassedWithout(d: State, i: nat, up: bool)
    requires i in d.store
    ensures Without(d.store, Passed(d, i, up).store, i)
  {
    PassedIs(d, i, up);
    hide Passed;
    forall t
      ensures t in Passed(d, i, up).store <==> t in d.store && t != i
    {
      assert t in Passed(d, i, up).store.Keys <==> t in d.store.Keys - {i};
    }
  }

  lemma PassedSame(a: State, d: State, i: nat, up: bool)
    requires a == d.(store := a.store) && i in a.store && i in d.store && (up ==> a.store[i] == d.store[i])
    ensures var f, g := Passed(a, i, up), Passed(d, i, up); f == g.(store := f.store) && g.hi == d.hi
  {
  }

  lemma ShadowNext(a: State, d: State, i: nat, hole: bool, commit: seq<nat>, up: bool)
    requires Shadow(a, d, i, hole, commit) && i in a.store && i in d.store
    requires up ==> a.store[i] == d.store[i] && !a.store[i].Hole?
    ensures Shadow(Passed(a, i, up), Passed(d, i, up), i + 1, hole || a.store[i].Hole?, commit)
  {
    PassedSame(a, d, i, up);
    PassedWithout(a, i, up);
    PassedWithout(d, i, up);
    hide Passed;
    var f, g := Passed(a, i, up), Passed(d, i, up);
    forall t | i + 1 <= t <= d.hi && t in f.store && f.store[t] != g.store[t] && !hole && !a.store[i].Hole?
      ensures exists h :: i + 1 <= h < t && h in f.store && f.store[h].Hole?
    {
      var h :| i <= h < t && h in a.store && a.store[h].Hole?;
      assert h in f.store;
    }
  }

  lemma {:induction false} AfterShadow(a: State, d: State, i: nat, hole: bool, commit: seq<nat>)
    requires Shadow(a, d, i, hole, commit)
    ensures var f, g := Evs.HandUpAfter(a, i, hole, commit), Evs.HandUpAfter(d, i, hole, commit);
            f == g.(store := f.store)
    decreases d.hi + 1 - i
  {
    hide Shadow, Passed;
    ShadowSame(a, d, i, hole, commit);
    if !d.exited && i <= d.hi && i in d.store {
      AfterPasses(a, i, hole, commit);
      AfterPasses(d, i, hole, commit);
      var up := a.store[i] == d.store[i] && !d.store[i].Hole? && (!hole || d.store[i].p.sender in commit);
      PassedIs(d, i, up);
      ShadowNext(a, d, i, hole, commit, up);
      AfterShadow(Passed(a, i, up), Passed(d, i, up), i + 1, hole || a.store[i].Hole?, commit);
    }
  }

  lemma RecoverShadow(a: State, d: State, commit: seq<nat>)
    requires Shadow(a, d, d.discarded + 1, false, commit)
    ensures SameOutcome(Evs.Recover(a, commit), Evs.Recover(d, commit))
  {
    hide Shadow, Evs.HandUpBefore, Evs.HandUpAfter;
    var i := d.discarded + 1;
    ShadowSame(a, d, i, false, commit);
    BeforeShadow(a, d, i, commit);
    var b := Evs.HandUpBefore(d, i);
    ShadowSame(Evs.HandUpBefore(a, i), b, b.discarded + 1, false, commit);
    AfterShadow(Evs.HandUpBefore(a, i), b, b.discarded + 1, false, commit);
  }

  /** The entry with a higher Highest_seq and with the numbers ms as holes too. */
  function WithHoles(e: Entry, hi: nat, ms: seq<nat>): Entry {
    e.(highest := hi, holes := e.holes + ms)
  }

  /** When number t of ms is left out, and packets above the entry's Highest_seq are there, number t adds to the ordered
      packets what the entry says. */
  ghost predicate RightAt(sent: seq<Packet>, e: Entry, ms: seq<nat>, t: nat)
    requires 1 <= t <= |sent|
  {
    || t in e.holes
    || if t <= e.highest then t in ms ==> EvsRuns.HarmlessAt(sent, e, HoleBelow(e, t), t - 1)
       else t in ms || EvsRuns.HarmlessAt(sent, e, HoleBelow(e, t), t - 1)
  }

  ghost predicate RightFrom(sent: seq<Packet>, e: Entry, ms: seq<nat>, i: nat, hi: nat) {
    1 <= i && forall t: nat | i <= t <= hi && t <= |sent| :: RightAt(sent, e, ms, t)
  }

  lemma RightNext(sent: seq<Packet>, e: Entry, ms: seq<nat>, i: nat, hi: nat)
    requires 1 <= i <= hi <= |sent|
    ensures RightFrom(sent, e, ms, i, hi) <==> RightAt(sent, e, ms, i) && RightFrom(sent, e, ms, i + 1, hi)
  {
    hide RightAt;
  }

  /** The numbers ms can be left out: each has a hole before it. */
  ghost predicate Hidden(e: Entry, hi: nat, ms: seq<nat>) {
    forall t | t in ms :: e.aru < t <= hi && t !in e.holes && HoleBelow(e, t)
  }

  lemma {:induction false} PickedAbove(sent: seq<Packet>, e: Entry, i: nat, hole: bool)
    requires 1 <= i && e.highest <= |sent| && Numbered(sent)
    ensures forall p | p in Evs.Picked(sent, e, i, hole) :: p.seqNo >= i
    decreases e.highest + 1 - i
  {
    if i <= e.highest {
      PickedAbove(sent, e, i + 1, true);
      PickedAbove(sent, e, i + 1, hole);
    }
  }

  lemma {:induction false} OrdIn(s: seq<Packet>)
    ensures forall p | p in Ord(s) :: p in s
  {
    if s != [] {
      OrdIn(s[..|s| - 1]);
    }
  }

  lemma FirstCancels(p: Packet, x: seq<Packet>, y: seq<Packet>, xs: seq<Packet>, ys: seq<Packet>)
    requires (x == [] || x == [p]) && (y == [] || y == [p]) && p !in xs && p !in ys
    ensures x + xs == y + ys <==> x == y && xs == ys
  {
    assert (x == [p] ==> (x + xs)[0] == p) && (y == [p] ==> (y + ys)[0] == p);
    if x + xs == y + ys {
      assert (x + xs)[|x|..] == xs && (y + ys)[|y|..] == ys;
    }
  }

  /** One packet before others of higher numbers. */
  lemma HeadsAgree(p: Packet, x: seq<Packet>, y: seq<Packet>, xs: seq<Packet>, ys: seq<Packet>)
    requires (x == [] || x == [p]) && (y == [] || y == [p])
    requires (forall q | q in xs :: q.seqNo > p.seqNo) && (forall q | q in ys :: q.seqNo > p.seqNo)
    ensures Ord(x + xs) == Ord(y + ys) <==> (x == y || Single(p)) && Ord(xs) == Ord(ys)
  {
    OrdConcat(x, xs);
    OrdConcat(y, ys);
    EvsRuns.OrdOne(p);
    assert Ord([]) == [];
    OrdIn(xs);
    OrdIn(ys);
    assert p !in Ord(xs) && p !in Ord(ys);
    hide Ord, Single;
    FirstCancels(p, Ord(x), Ord(y), Ord(xs), Ord(ys));
    assert Ord(x) == Ord(y) <==> x == y || Single(p);
  }

  lemma PickedStep(sent: seq<Packet>, e: Entry, i: nat, hole: bool) returns (x: seq<Packet>)
    requires 1 <= i <= |sent| && e.highest <= |sent|
    ensures x ==
            if i > e.highest || i in e.holes || (hole && sent[i - 1].sender !in e.commit) then [] else [sent[i - 1]]
    ensures Evs.Picked(sent, e, i, hole) == x + Evs.Picked(sent, e, i + 1, hole || i in e.holes)
  {
    x := if i > e.highest || i in e.holes || (hole && sent[i - 1].sender !in e.commit) then [] else [sent[i - 1]];
  }

  /** Leaving the numbers ms out gives the ordered packets that the entry says exactly when it does at every number. */
  lemma {:induction false} PickedRight(sent: seq<Packet>, e: Entry, hi: nat, ms: seq<nat>, i: nat, hole: bool)
    requires Numbered(sent) && EvsRuns.HolesIn(e) && e.highest <= hi <= |sent| && Hidden(e, hi, ms)
    requires e.aru < i <= hi + 1 && hole == HoleBelow(e, i)
    ensures Ord(Evs.Picked(sent, WithHoles(e, hi, ms), i, hole)) == Ord(Evs.Picked(sent, e, i, hole)) <==>
            RightFrom(sent, e, ms, i, hi)
    decreases hi + 1 - i
  {
    hide Evs.Picked, Ord, RightFrom, Single, Numbered;
    var r := WithHoles(e, hi, ms);
    if i > hi {
      EvsRuns.NothingBetween(sent, r, i, hole);
      EvsRuns.NothingBetween(sent, e, i, hole);
      assert RightFrom(sent, e, ms, i, hi) by { RightNone(sent, e, ms, i, hi); }
    } else {
      HoleNext(e, i);
      var next := hole || i in e.holes;
      PickedRight(sent, e, hi, ms, i + 1, next);
      RightNext(sent, e, ms, i, hi);
      assert hole || i in r.holes ==> next;
      var x := PickedStep(sent, r, i, hole);
      var y := PickedStep(sent, e, i, hole);
      PickedAbove(sent, r, i + 1, next);
      PickedAbove(sent, e, i + 1, next);
      assert sent[i - 1].seqNo == i by { NumberAt(sent, i - 1); }
      HeadsAgree(sent[i - 1], x, y, Evs.Picked(sent, r, i + 1, next), Evs.Picked(sent, e, i + 1, next));
      assert (x == y || Single(sent[i - 1])) <==> RightAt(sent, e, ms, i);
    }
  }

  lemma NumberAt(sent: seq<Packet>, j: nat)
    requires Numbered(sent) && j < |sent|
    ensures sent[j].seqNo == j + 1
  {
  }

  lemma RightNone(sent: seq<Packet>, e: Entry, ms: seq<nat>, i: nat, hi: nat)
    requires 1 <= i && i > hi
    ensures RightFrom(sent, e, ms, i, hi)
  {
  }

  lemma HoleNext(e: Entry, i: nat)
    ensures HoleBelow(e, i + 1) <==> HoleBelow(e, i) || i in e.holes
  {
    if i in e.holes {
      assert i < i + 1;
    }
    if h :| h in e.holes && h < i {
      assert h < i + 1;
    }
  }

  /** Below the first hole nothing is left out. */
  lemma {:induction false} CutHidden(sent: seq<Packet>, e: Entry, ms: seq<nat>, i: nat, hi: nat)
    requires 1 <= i <= hi + 1 && hi <= |sent| && Hidden(e, hi, ms) && !HoleBelow(e, i)
    ensures Evs.Cut(sent, e.holes + ms, i, hi) == Evs.Cut(sent, e.holes, i, hi)
    decreases hi + 1 - i
  {
    if i <= hi && i !in e.holes && !sent[i - 1].service.Safe? {
      HoleNext(e, i);
      CutHidden(sent, e, ms, i + 1, hi);
    }
  }

  lemma RightHarmless(sent: seq<Packet>, e: Entry, hi: nat)
    requires EvsRuns.HolesIn(e) && e.aru <= e.highest <= hi <= |sent| && e.holes == []
    requires RightFrom(sent, e, [], e.aru + 1, hi)
    ensures EvsRuns.Harmless(sent, e, hi)
  {
    hide Single;
    forall j: nat | e.highest <= j < hi && j < |sent|
      ensures EvsRuns.HarmlessAt(sent, e, false, j)
    {
      assert RightAt(sent, e, [], j + 1);
      assert !HoleBelow(e, j + 1);
    }
  }

  lemma HiddenBefore(sent: seq<Packet>, e: Entry, hi: nat, ms: seq<nat>)
    requires EvsRuns.HolesIn(e) && e.aru <= e.highest <= hi <= |sent| && Hidden(e, hi, ms)
    requires RightFrom(sent, e, ms, e.aru + 1, hi)
    ensures Evs.OrdBefore(sent, WithHoles(e, hi, ms)) == Evs.OrdBefore(sent, e)
  {
    hide Ord, RightFrom, EvsRuns.Harmless, Evs.Cut;
    assert !HoleBelow(e, e.aru + 1);
    CutHidden(sent, e, ms, e.aru + 1, hi);
    if e.holes == [] {
      NoneHidden(e, hi, ms);
      RightHarmless(sent, e, hi);
      EvsRuns.OrdBeforeRaised(sent, e, hi);
    } else {
      EvsRuns.CutRaised(sent, e.holes, e.aru + 1, e.highest, hi);
      EvsRuns.FirstHole(e);
    }
  }

  lemma NoneHidden(e: Entry, hi: nat, ms: seq<nat>)
    requires Hidden(e, hi, ms) && e.holes == []
    ensures ms == []
  {
    FirstIn(ms);
  }

  lemma FirstIn(ms: seq<nat>)
    ensures ms != [] ==> ms[0] in ms
  {
  }

  lemma HiddenAll(sent: seq<Packet>, e: Entry, hi: nat, ms: seq<nat>)
    requires Numbered(sent) && EvsRuns.HolesIn(e) && e.aru <= e.highest <= hi <= |sent| && Hidden(e, hi, ms)
    ensures Evs.OrdAll(sent, WithHoles(e, hi, ms)) == Evs.OrdAll(sent, e) <==> RightFrom(sent, e, ms, e.aru + 1, hi)
    ensures RightFrom(sent, e, ms, e.aru + 1, hi) ==> (Evs.Sound(sent, WithHoles(e, hi, ms)) <==> Evs.Sound(sent, e))
  {
    hide Ord, RightFrom, Evs.Picked, InSequence;
    assert !HoleBelow(e, e.aru + 1);
    PickedRight(sent, e, hi, ms, e.aru + 1, false);
    var r := WithHoles(e, hi, ms);
    var x, y := Evs.Picked(sent, r, e.aru + 1, false), Evs.Picked(sent, e, e.aru + 1, false);
    OrdConcat(sent[..e.aru], x);
    OrdConcat(sent[..e.aru], y);
    var o := Ord(sent[..e.aru]);
    assert (o + Ord(x))[|o|..] == Ord(x) && (o + Ord(y))[|o|..] == Ord(y);
    SequenceOfOrd(Evs.Surviving(sent, r));
    SequenceOfOrd(Evs.Surviving(sent, e));
  }

  /** The numbers from i to hi whose entries hold packets of other numbers. */
  function Foreigners(store: Store, i: nat, hi: nat): (r: seq<nat>)
    ensures forall t :: t in r <==> i <= t <= hi && Foreign(store, t)
    decreases hi + 1 - i
  {
    if i > hi then [] else (if Foreign(store, i) then [i] else []) + Foreigners(store, i + 1, hi)
  }

  function Holed(store: Store, ms: seq<nat>): Store {
    map s | s in store :: if s in ms then Hole else store[s]
  }

  lemma MarkHidden(store: Store, seqs: set<nat>, sent: seq<Packet>, e: Entry, ms: seq<nat>, del: nat, s: nat)
    requires 1 <= s <= |sent| && Evs.MarkAt(store, seqs, sent, e, del, s)
    requires s in ms ==> s in store && store[s].Fresh? && s !in e.holes
    ensures Evs.MarkAt(Holed(store, ms), seqs, sent, e.(holes := e.holes + ms), del, s)
  {
  }

  /** With numbers left out the daemon is still as the loops want it, for the entry that has them as holes. */
  lemma BeforeHidden(d: State, sent: seq<Packet>, e: Entry, ms: seq<nat>, i: nat, del: nat)
    requires Evs.Before(d, sent, e, i, del)
    requires forall t | t in ms :: t in d.store && d.store[t].Fresh? && t !in e.holes
    ensures Evs.Before(d.(store := Holed(d.store, ms)), sent, e.(holes := e.holes + ms), i, del)
  {
    hide Evs.MarkAt, Numbered, InSequence, Evs.Up, Seqs;
    forall s: nat | i <= s <= e.highest
      ensures Evs.MarkAt(Holed(d.store, ms), Seqs(d.log), sent, e.(holes := e.holes + ms), del, s)
    {
      assert Evs.MarkAt(d.store, Seqs(d.log), sent, e, del, s);
      MarkHidden(d.store, Seqs(d.log), sent, e, ms, del, s);
    }
  }

  /** An entry of number t: the ring's packet or a hole as on the map; or, where the map has the ring's packet, not
      handed up, one that was handed up before. */
  ghost predicate StandsAt(x: Slot, y: Slot, seqs: set<nat>, sent: seq<Packet>, t: nat)
    requires 1 <= t <= |sent|
  {
    x == y || (y == Fresh(sent[t - 1]) && x.Fresh? && x.p.seqNo != t && x.p.seqNo in seqs)
  }

  /** The array, and the map that has the ring's packets where the array has others in their places. */
  ghost predicate Stands(a: State, c: State, sent: seq<Packet>, e: Entry) {
    && a == c.(store := a.store)
    && forall t: nat | e.aru < t <= |sent| ::
         && (t in a.store <==> t in c.store)
         && (t in a.store ==> StandsAt(a.store[t], c.store[t], Seqs(c.log), sent, t))
  }

  /** The entry of number t makes the outcome no other than it should be: no packet from above the entry's
      Highest_seq that takes part in the order, and none of another number except one that is left out, in the
      place of one that takes no part. */
  ghost predicate SlotRight(store: Store, sent: seq<Packet>, e: Entry, t: nat)
    requires 1 <= t <= |sent|
  {
    || t in e.holes
    || if Foreign(store, t) then
         && HoleBelow(e, t) && store[t].p.sender !in e.commit
         && (t <= e.highest ==> EvsRuns.HarmlessAt(sent, e, true, t - 1))
       else t > e.highest ==> EvsRuns.HarmlessAt(sent, e, HoleBelow(e, t), t - 1)
  }

  ghost predicate AllRight(d: State, sent: seq<Packet>, e: Entry) {
    forall t: nat | e.aru < t <= d.hi && t <= |sent| :: t in d.store && SlotRight(d.store, sent, e, t)
  }

  /** A foreign packet that will be handed up again. */
  lemma ForeignDoubled(a: State, c: State, sent: seq<Packet>, e: Entry, lastSeq: nat, t: nat)
    requires EvsRuns.InEvs(c, sent, e, lastSeq) && Stands(a, c, sent, e)
    requires e.aru < t <= c.hi && Foreign(a.store, t)
    requires a.store[t].p.sender in e.commit || !HoleBelow(e, t)
    ensures Doubled(a, a.discarded + 1, t, false, e.commit) && t !in e.holes && t <= |sent|
  {
    StandsSlot(a, c, sent, e, lastSeq, t);
    EvsRuns.InEvsShape(c, sent, e, lastSeq);
    hide EvsRuns.InEvs, Seqs;
    if !HoleBelow(e, t) {
      forall h | e.aru < h < t && h in a.store
        ensures !a.store[h].Hole?
      {
        StandsSlot(a, c, sent, e, lastSeq, h);
      }
    }
  }

  lemma StandsSlot(a: State, c: State, sent: seq<Packet>, e: Entry, lastSeq: nat, t: nat)
    requires EvsRuns.InEvs(c, sent, e, lastSeq) && Stands(a, c, sent, e) && e.aru < t <= c.hi
    ensures a == c.(store := a.store) && c.discarded == e.aru && t <= |sent| && (t in a.store <==> t in c.store)
    ensures t in a.store ==> (a.store[t].Hole? <==> t in e.holes) && (c.store[t].Hole? <==> t in e.holes)
    ensures t in a.store && Foreign(a.store, t) ==>
              && t !in e.holes && c.store[t] == Fresh(sent[t - 1]) && a.store[t].Fresh?
              && a.store[t].p.seqNo in Seqs(a.log)
    ensures t in a.store && !Foreign(a.store, t) ==> a.store[t] == c.store[t]
  {
    hide EvsRuns.Marked, EvsRuns.Reach, Evs.Up, InSequence, Seqs, EvsRuns.UpTo;
    assert t <= |sent|;
    if t in a.store {
      assert StandsAt(a.store[t], c.store[t], Seqs(c.log), sent, t);
    }
  }

  lemma SlotAt(a: State, c: State, sent: seq<Packet>, e: Entry, lastSeq: nat, ms: seq<nat>, t: nat)
    requires EvsRuns.InEvs(c, sent, e, lastSeq) && Stands(a, c, sent, e) && e.aru < t <= c.hi && t in a.store
    requires t in ms <==> Foreign(a.store, t)
    requires t in ms ==> HoleBelow(e, t) && a.store[t].p.sender !in e.commit
    ensures t <= |sent| && (SlotRight(a.store, sent, e, t) <==> RightAt(sent, e, ms, t))
  {
    StandsSlot(a, c, sent, e, lastSeq, t);
    hide EvsRuns.InEvs, Stands, EvsRuns.HarmlessAt;
  }

  /** None of the foreign packets will be handed up again: the array is a map with holes in their places. */
  ghost predicate LeftOut(a: State, e: Entry, ms: seq<nat>) {
    && ms == Foreigners(a.store, e.aru + 1, a.hi)
    && forall t | t in ms :: a.store[t].p.sender !in e.commit && HoleBelow(e, t)
  }

  lemma LeftOutSlots(a: State, c: State, sent: seq<Packet>, e: Entry, lastSeq: nat, ms: seq<nat>)
    requires EvsRuns.InEvs(c, sent, e, lastSeq) && Stands(a, c, sent, e) && LeftOut(a, e, ms)
    requires Evs.Complete(c.store, e.aru + 1, c.hi)
    ensures Hidden(e, c.hi, ms) && (forall t | t in ms :: t in c.store && c.store[t].Fresh?)
    ensures AllRight(a, sent, e) <==> RightFrom(sent, e, ms, e.aru + 1, c.hi)
  {
    hide EvsRuns.InEvs, Stands, Foreign, SlotRight, RightAt, Foreigners, Seqs;
    forall t: nat | e.aru < t <= c.hi
      ensures t <= |sent| && t in a.store && (t in ms <==> Foreign(a.store, t))
      ensures SlotRight(a.store, sent, e, t) <==> RightAt(sent, e, ms, t)
      ensures t in ms ==> t !in e.holes && t in c.store && c.store[t].Fresh?
    {
      StandsSlot(a, c, sent, e, lastSeq, t);
      assert t in c.store;
      InForeigners(a, e, t);
      SlotAt(a, c, sent, e, lastSeq, ms, t);
    }
    StandsHi(a, c, sent, e);
    forall t | t in ms
      ensures e.aru < t <= c.hi
    {
      InForeigners(a, e, t);
    }
  }

  lemma StandsHi(a: State, c: State, sent: seq<Packet>, e: Entry)
    requires Stands(a, c, sent, e)
    ensures a.hi == c.hi && a.discarded == c.discarded
  {
  }

  lemma InForeigners(a: State, e: Entry, t: nat)
    ensures t in Foreigners(a.store, e.aru + 1, a.hi) <==> e.aru < t <= a.hi && Foreign(a.store, t)
  {
  }

  /** Such a map shadows the array. */
  lemma LeftOutShadow(a: State, c: State, sent: seq<Packet>, e: Entry, lastSeq: nat, ms: seq<nat>)
    requires EvsRuns.InEvs(c, sent, e, lastSeq) && Stands(a, c, sent, e) && LeftOut(a, e, ms)
    requires Evs.Complete(c.store, e.aru + 1, c.hi)
    ensures Shadow(a, c.(store := Holed(c.store, ms)), e.aru + 1, false, e.commit)
  {
    EvsRuns.InEvsShape(c, sent, e, lastSeq);
    LeftOutSlots(a, c, sent, e, lastSeq, ms);
    StandsSame(a, c, sent, e);
    HoledBelow(a, c, sent, e, lastSeq);
    hide EvsRuns.InEvs, Stands, Foreigners, Foreign, Seqs, RightFrom, AllRight, HoleBelow;
    var b := c.(store := Holed(c.store, ms));
    forall t | e.aru + 1 <= t <= c.hi
      ensures t in a.store <==> t in b.store
      ensures t in a.store && a.store[t] != b.store[t] ==>
                && b.store[t].Hole? && !a.store[t].Hole? && a.store[t].p.sender !in e.commit
                && exists h :: e.aru + 1 <= h < t && h in a.store && a.store[h].Hole?
    {
      StandsSlot(a, c, sent, e, lastSeq, t);
      InForeigners(a, e, t);
    }
  }

  lemma StandsSame(a: State, c: State, sent: seq<Packet>, e: Entry)
    requires Stands(a, c, sent, e)
    ensures a == c.(store := a.store)
  {
  }

  /** Where the entry has a hole below a number, so has the array. */
  lemma HoledBelow(a: State, c: State, sent: seq<Packet>, e: Entry, lastSeq: nat)
    requires EvsRuns.InEvs(c, sent, e, lastSeq) && Stands(a, c, sent, e) && Evs.Complete(c.store, e.aru + 1, c.hi)
    ensures forall t: nat | HoleBelow(e, t) :: exists h :: e.aru + 1 <= h < t && h in a.store && a.store[h].Hole?
  {
    EvsRuns.InEvsShape(c, sent, e, lastSeq);
    hide EvsRuns.InEvs, Stands, Seqs;
    forall t: nat | HoleBelow(e, t)
      ensures exists h :: e.aru + 1 <= h < t && h in a.store && a.store[h].Hole?
    {
      var h :| h in e.holes && h < t;
      StandsSlot(a, c, sent, e, lastSeq, h);
    }
  }

  /** When all foreign packets are left out: the outcome is the right one exactly when every entry is right. */
  lemma LeftOutIff(a: State, c: State, sent: seq<Packet>, e: Entry, lastSeq: nat, ms: seq<nat>)
    requires EvsRuns.InEvs(c, sent, e, lastSeq) && c.my == lastSeq && Stands(a, c, sent, e) && Evs.Sound(sent, e)
    requires LeftOut(a, e, ms) && Evs.Complete(c.store, e.aru + 1, c.hi)
    ensures Evs.Recovered(Evs.Recover(a, e.commit), sent, e) <==> AllRight(a, sent, e)
  {
    hide EvsRuns.InEvs, Stands, LeftOut, AllRight, RightFrom, Shadow, Evs.Before, Evs.Recover, Evs.Sound, Evs.OrdBefore;
    hide Evs.OrdAll, Hidden, Once, Ord, EvsRuns.HolesIn, Evs.Complete;
    EvsRuns.InEvsShape(c, sent, e, lastSeq);
    LeftOutSlots(a, c, sent, e, lastSeq, ms);
    LeftOutShadow(a, c, sent, e, lastSeq, ms);
    HiddenApart(e, c.hi, ms);
    EvsRuns.CompleteBefore(c, sent, e, lastSeq);
    var b, r := c.(store := Holed(c.store, ms)), WithHoles(e, c.hi, ms);
    BeforeHidden(c, sent, EvsRuns.WithHighest(e, c.hi), ms, e.aru + 1, c.delivered);
    RecoverShadow(a, b, e.commit);
    Evs.RecoverKeeps(b, sent, r, c.delivered);
    HiddenAll(sent, e, c.hi, ms);
    if RightFrom(sent, e, ms, e.aru + 1, c.hi) {
      HiddenBefore(sent, e, c.hi, ms);
    }
  }

  lemma HiddenApart(e: Entry, hi: nat, ms: seq<nat>)
    requires Hidden(e, hi, ms)
    ensures forall t | t in ms :: t !in e.holes
  {
  }

  /** Whatever took whose place in the array: the outcome is the right one exactly when every entry is right. */
  lemma OutcomeIff(a: State, c: State, sent: seq<Packet>, e: Entry, lastSeq: nat)
    requires EvsRuns.InEvs(c, sent, e, lastSeq) && c.my == lastSeq && Stands(a, c, sent, e) && Evs.Sound(sent, e)
    ensures Evs.Recovered(Evs.Recover(a, e.commit), sent, e) <==> AllRight(a, sent, e)
  {
    hide EvsRuns.InEvs, Stands, Evs.Recover, Evs.Sound, Doubled, Evs.OrdBefore, Evs.OrdAll, Once, Ord,
        Foreigners, Foreign;
    EvsRuns.InEvsShape(c, sent, e, lastSeq);
    StandsSame(a, c, sent, e);
    if !Evs.Complete(c.store, e.aru + 1, c.hi) {
      var g := EvsRuns.GapOf(c.store, e.aru + 1, c.hi);
      StandsSlot(a, c, sent, e, lastSeq, g);
      EvsRuns.GapExits(a, e.commit, g);
    } else {
      var ms := Foreigners(a.store, e.aru + 1, a.hi);
      InForeignersAll(a, e);
      if t :| t in ms && !(HoleBelow(e, t) && a.store[t].p.sender !in e.commit) {
        ForeignDoubled(a, c, sent, e, lastSeq, t);
        RecoverDoubled(a, e.commit, t);
        assert !SlotRight(a.store, sent, e, t);
      } else {
        LeftOutIff(a, c, sent, e, lastSeq, ms);
      }
    }
  }

  lemma InForeignersAll(a: State, e: Entry)
    ensures forall t | t in Foreigners(a.store, e.aru + 1, a.hi) ::
              e.aru < t <= a.hi && Foreign(a.store, t) && t in a.store && !a.store[t].Hole?
  {
    hide Foreigners;
    forall t | t in Foreigners(a.store, e.aru + 1, a.hi)
      ensures e.aru < t <= a.hi && Foreign(a.store, t)
    {
      InForeigners(a, e, t);
    }
  }

  /** What the map gets when old packet s comes to the array: the ring's packet of the number whose place it takes. */
  function StoodIn(c: State, sent: seq<Packet>, e: Entry, s: nat): State {
    var t := Seat(s, e.aru);
    if s <= c.aru || t in c.store || t > |sent| then c else c.(store := c.store[t := Fresh(sent[t - 1])])
  }

  lemma StoodInKeeps(c: State, sent: seq<Packet>, e: Entry, lastSeq: nat, s: nat)
    requires EvsRuns.InEvs(c, sent, e, lastSeq)
    ensures EvsRuns.InEvs(StoodIn(c, sent, e, s), sent, e, lastSeq)
  {
    hide Evs.Up, InSequence, EvsRuns.Marked, EvsRuns.Holds, EvsRuns.HolesIn, Numbered, Seat;
    var t := Seat(s, e.aru);
    if !(s <= c.aru || t in c.store || t > |sent|) {
      EvsRuns.MarkedInsert(c.store, Seqs(c.log), sent, e, c.delivered, t);
    }
  }

  lemma OldShape(c: State, sent: seq<Packet>, e: Entry, lastSeq: nat, s: nat)
    requires EvsRuns.InEvs(c, sent, e, lastSeq) && 1 <= s <= e.aru
    ensures s <= |sent| && sent[s - 1].seqNo == s && s in Seqs(c.log) && s <= c.my && s <= c.hi
    ensures !c.exited && c.discarded == e.aru
  {
    hide Evs.Up, InSequence, EvsRuns.Marked, EvsRuns.Holds, EvsRuns.HolesIn, EvsRuns.Reach, Seqs;
  }

  /** An old packet arrives, and takes a place or not. */
  lemma OldStands(a: State, c: State, sent: seq<Packet>, e: Entry, lastSeq: nat, s: nat)
    requires EvsRuns.InEvs(c, sent, e, lastSeq) && Stands(a, c, sent, e) && 1 <= s <= e.aru
    ensures s <= |sent| && Stands(Put(a, sent[s - 1]), StoodIn(c, sent, e, s), sent, e)
    ensures Put(a, sent[s - 1]) ==
            if s <= a.aru || Seat(s, e.aru) in a.store then a
            else a.(store := a.store[Seat(s, e.aru) := Fresh(sent[s - 1])])
  {
    OldShape(c, sent, e, lastSeq, s);
    hide EvsRuns.InEvs, Seqs, Seat;
    var t := Seat(s, e.aru);
    assert t > e.aru;
    var g, f := Put(a, sent[s - 1]), StoodIn(c, sent, e, s);
    if !(s <= a.aru || t in a.store) {
      assert g == a.(store := a.store[t := Fresh(sent[s - 1])]);
      hide Put;
      forall k: nat | e.aru < k <= |sent|
        ensures k in g.store <==> k in f.store
        ensures k in g.store ==> StandsAt(g.store[k], f.store[k], Seqs(f.log), sent, k)
      {
        assert k in a.store ==> StandsAt(a.store[k], c.store[k], Seqs(c.log), sent, k);
      }
    }
  }

  /** Any other packet of the ring arrives. */
  lemma NewStands(a: State, c: State, sent: seq<Packet>, e: Entry, lastSeq: nat, s: nat)
    requires EvsRuns.InEvs(c, sent, e, lastSeq) && Stands(a, c, sent, e) && e.aru < s <= |sent|
    requires |sent| <= e.aru + MAX_PACKETS_IN_STRUCT
    ensures Stands(Put(a, sent[s - 1]), Evs.Insert(c, sent[s - 1]), sent, e)
  {
    EvsRuns.InEvsShape(c, sent, e, lastSeq);
    EvsRuns.InEvsReached(c, sent, e, lastSeq);
    var p := sent[s - 1];
    assert p.seqNo == s;
    PutInserts(a, p);
    hide EvsRuns.InEvs, Seqs, Put;
    if !(s <= c.aru || s in c.store) {
      var store, store' := a.store[s := Fresh(p)], c.store[s := Fresh(p)];
      var hi := if c.hi < s then s else c.hi;
      if s == c.my + 1 {
        AdvanceNear(store, store', e.aru, c.my, hi);
      }
      StandsWith(a, c, sent, e, s);
    }
  }

  lemma StandsWith(a: State, c: State, sent: seq<Packet>, e: Entry, s: nat)
    requires Stands(a, c, sent, e) && 1 <= s <= |sent|
    ensures var x := Fresh(sent[s - 1]);
            Stands(a.(store := a.store[s := x]), c.(store := c.store[s := x]), sent, e)
  {
    hide Seqs;
  }

  lemma TokenStands(a: State, c: State, sent: seq<Packet>, e: Entry, lastSeq: nat, t: Token)
    requires EvsRuns.InEvs(c, sent, e, lastSeq) && Stands(a, c, sent, e)
    ensures Stands(Evs.Commit(a, t, lastSeq), Evs.Commit(c, t, lastSeq), sent, e)
    ensures Evs.Commit(c, t, lastSeq).discarded == Evs.Commit(a, t, lastSeq).discarded == e.aru
    ensures Evs.Commit(c, t, lastSeq).aru == Evs.Commit(a, t, lastSeq).aru
  {
    EvsRuns.InEvsShape(c, sent, e, lastSeq);
    EvsRuns.InEvsReached(c, sent, e, lastSeq);
    hide EvsRuns.InEvs, Seqs;
    AdvanceNear(a.store, c.store, e.aru, c.my, c.hi);
  }

  /** Every run on the array stands for some state in EVS, whatever arrives. */
  lemma {:induction false} RunStands(a: State, c: State, sent: seq<Packet>, e: Entry, lastSeq: nat, evs: seq<Evs.Event>)
    returns (f: State)
    requires EvsRuns.InEvs(c, sent, e, lastSeq) && Stands(a, c, sent, e) && |sent| <= e.aru + MAX_PACKETS_IN_STRUCT
    ensures var r := RunOn(a, e, lastSeq, sent, evs);
            && EvsRuns.InEvs(f, sent, e, lastSeq) && Stands(r.d, f, sent, e)
            && (r.Done? ==> f.my == lastSeq && r.o == Evs.Recover(r.d, e.commit))
    decreases |evs|
  {
    hide EvsRuns.InEvs, Stands, Put, Evs.Insert, StoodIn, Evs.Commit, Evs.Recover;
    if evs == [] {
      f := c;
    } else {
      match evs[0]
      case Got(s) =>
        if e.aru < s <= |sent| {
          NewStands(a, c, sent, e, lastSeq, s);
          EvsRuns.InsertKeeps(c, sent, e, lastSeq, s);
          f := RunStands(Put(a, sent[s - 1]), Evs.Insert(c, sent[s - 1]), sent, e, lastSeq, evs[1..]);
        } else if 1 <= s <= e.aru {
          OldStands(a, c, sent, e, lastSeq, s);
          StoodInKeeps(c, sent, e, lastSeq, s);
          f := RunStands(Put(a, sent[s - 1]), StoodIn(c, sent, e, s), sent, e, lastSeq, evs[1..]);
        } else {
          f := RunStands(a, c, sent, e, lastSeq, evs[1..]);
        }
      case TokenAt(t) =>
        TokenStands(a, c, sent, e, lastSeq, t);
        EvsRuns.CommitKeeps(c, sent, e, lastSeq, t);
        var g, h := Evs.Commit(a, t, lastSeq), Evs.Commit(c, t, lastSeq);
        if g.aru > g.discarded && g.aru == lastSeq {
          f := h;
        } else {
          f := RunStands(g, h, sent, e, lastSeq, evs[1..]);
        }
    }
  }

  lemma StandsSelf(c: State, sent: seq<Packet>, e: Entry)
    ensures Stands(c, c, sent, e)
  {
  }

  /** Recovery on the array, at every daemon the form token visited and for every arrival of packets, old and late ones
      included, and every sequence of tokens: the exact condition for the right outcome. */
  lemma ArrayOutcomeIff(w: FormWalk.World, j: nat, lastSeq: nat, evs: seq<Evs.Event>)
    requires Recovery.Walked(w) && j < |w.r.ds| && FormWalk.Visited(w, j) && w.entry.Some? && w.seqNo <= lastSeq
    requires Recovery.Unfilled(w.r.ds[j], w.entry.value) && Evs.Sound(w.r.sent, w.entry.value)
    ensures var e := w.entry.value;
            match RunOn(Evs.ReadForm2(w.r.ds[j], e), e, lastSeq, w.r.sent, evs)
            case Recovering(f) => !f.exited
            case Done(f, o) =>
              o == Evs.Recover(f, e.commit) && (Evs.Recovered(o, w.r.sent, e) <==> AllRight(f, w.r.sent, e))
  {
    hide Recovery.Walked, EvsRuns.Form2Ok, EvsRuns.InEvs, Stands, Evs.Recover, Evs.Recovered, Evs.ReadForm2, RunOn,
        AllRight;
    hide Evs.Sound;
    Recovery.Form2Holds(w, j);
    Recovery.WalkedNumber(w, j);
    Form2Fits(w, j);
    var sent, e := w.r.sent, w.entry.value;
    EvsRuns.ReadForm2Keeps(w.r.ds[j], sent, e, lastSeq);
    var d := Evs.ReadForm2(w.r.ds[j], e);
    StandsSelf(d, sent, e);
    var f := RunStands(d, d, sent, e, lastSeq, evs);
    var r := RunOn(d, e, lastSeq, sent, evs);
    EvsRuns.InEvsShape(f, sent, e, lastSeq);
    StandsSame(r.d, f, sent, e);
    if r.Done? {
      OutcomeIff(r.d, f, sent, e, lastSeq);
    }
  }

  /** Number m is the only one missing up to the entry's Highest_seq, and what is live fits the array. */
  ghost predicate OneMissing(d: State, sent: seq<Packet>, e: Entry, lastSeq: nat, m: nat) {
    && EvsRuns.InEvs(d, sent, e, lastSeq) && d.my <= d.hi == e.highest && |sent| <= e.aru + MAX_PACKETS_IN_STRUCT
    && forall t | e.aru < t <= e.highest :: t in d.store <==> t != m
  }

  /** The first token visit in EVS, with one packet missing. */
  lemma MissingCommit(d: State, sent: seq<Packet>, e: Entry, lastSeq: nat, m: nat, t: Token)
    requires OneMissing(d, sent, e, lastSeq, m) && d.last == 0 && e.aru < m <= e.highest
    ensures var f := Evs.Commit(d, t, lastSeq);
            OneMissing(f, sent, e, lastSeq, m) && f.aru == 0 && f.me == d.me && f.store == d.store
  {
    hide Evs.Up, InSequence, EvsRuns.Marked, EvsRuns.Holds, EvsRuns.HolesIn, Numbered;
    EvsRuns.CommitKeeps(d, sent, e, lastSeq, t);
    EvsRuns.CommitFrame(d, t, lastSeq);
    AdvanceCovers(d.store, d.my, d.hi);
    assert m !in d.store;
  }

  /** The missing packet comes on the map. */
  lemma MissingComes(d: State, sent: seq<Packet>, e: Entry, lastSeq: nat, m: nat, s: nat)
    requires OneMissing(d, sent, e, lastSeq, m) && d.aru == 0 && e.aru < m <= e.highest && 1 <= s <= e.aru
    ensures e.highest <= |sent|
    ensures var f := Evs.Insert(Evs.Insert(d, sent[s - 1]), sent[m - 1]);
            && EvsRuns.InEvs(f, sent, e, lastSeq) && f.me == d.me && f.my <= f.hi == e.highest
            && Evs.Complete(f.store, e.aru + 1, f.hi)
  {
    EvsRuns.InEvsShape(d, sent, e, lastSeq);
    EvsRuns.InEvsReached(d, sent, e, lastSeq);
    assert sent[s - 1].seqNo == s && sent[m - 1].seqNo == m;
    EvsRuns.InsertKeeps(d, sent, e, lastSeq, s);
    var g := Evs.Insert(d, sent[s - 1]);
    OldInserted(d, sent[s - 1]);
    EvsRuns.InsertKeeps(g, sent, e, lastSeq, m);
    hide EvsRuns.InEvs, Evs.Insert;
    EvsRuns.InsertedMissing(g, sent[m - 1]);
    EvsRuns.InsertFrame(g, sent[m - 1]);
  }

  lemma OldInserted(d: State, p: Packet)
    requires !d.exited && d.aru < p.seqNo <= d.discarded <= d.my <= d.hi
    ensures var g := Evs.Insert(d, p);
            && g == d.(store := g.store)
            && forall t | t > d.discarded :: t in g.store <==> t in d.store
  {
  }

  /** Two tokens, once nothing seems to be missing. */
  lemma TokensStand(a: State, c: State, sent: seq<Packet>, e: Entry, lastSeq: nat, t: Token) returns (f: State)
    requires EvsRuns.InEvs(c, sent, e, lastSeq) && Stands(a, c, sent, e)
    requires c.my <= c.hi && Evs.Complete(c.store, e.aru + 1, c.hi) && t == EvsRuns.OwnToken(c, lastSeq)
    ensures var r := RunOn(a, e, lastSeq, sent, [Evs.TokenAt(t), Evs.TokenAt(t)]);
            && r.Done? && r.o == Evs.Recover(r.d, e.commit) && r.d.store == a.store && r.d.hi == a.hi
            && EvsRuns.InEvs(f, sent, e, lastSeq) && f.my == lastSeq && Stands(r.d, f, sent, e)
  {
    EvsRuns.InEvsShape(c, sent, e, lastSeq);
    EvsRuns.InEvsReached(c, sent, e, lastSeq);
    EvsRuns.FirstCommit(c, sent, e, lastSeq, t);
    TokenStands(a, c, sent, e, lastSeq, t);
    EvsRuns.CommitFrame(a, t, lastSeq);
    var g, h := Evs.Commit(a, t, lastSeq), Evs.Commit(c, t, lastSeq);
    EvsRuns.SecondCommit(h, sent, e, lastSeq, t);
    TokenStands(g, h, sent, e, lastSeq, t);
    EvsRuns.CommitFrame(g, t, lastSeq);
    f := Evs.Commit(h, t, lastSeq);
    hide EvsRuns.InEvs, Stands, Evs.Commit, Evs.Recover;
    assert [Evs.TokenAt(t), Evs.TokenAt(t)][1..] == [Evs.TokenAt(t)];
    assert RunOn(a, e, lastSeq, sent, [Evs.TokenAt(t), Evs.TokenAt(t)]) == RunOn(g, e, lastSeq, sent, [Evs.TokenAt(t)]);
  }

  /** The token, an old packet, the missing one, and the token twice. */
  function TakingRun(t0: Token, s: nat, m: nat, t: Token): seq<Evs.Event> {
    [Evs.TokenAt(t0)] + ([Evs.Got(s)] + ([Evs.Got(m)] + [Evs.TokenAt(t), Evs.TokenAt(t)]))
  }

  lemma OnToken(d: State, e: Entry, lastSeq: nat, sent: seq<Packet>, t: Token, evs: seq<Evs.Event>)
    requires Evs.Commit(d, t, lastSeq).aru <= Evs.Commit(d, t, lastSeq).discarded
    ensures RunOn(d, e, lastSeq, sent, [Evs.TokenAt(t)] + evs) ==
            RunOn(Evs.Commit(d, t, lastSeq), e, lastSeq, sent, evs)
  {
    assert ([Evs.TokenAt(t)] + evs)[1..] == evs;
  }

  lemma OnGot(d: State, e: Entry, lastSeq: nat, sent: seq<Packet>, s: nat, evs: seq<Evs.Event>)
    requires 1 <= s <= |sent|
    ensures RunOn(d, e, lastSeq, sent, [Evs.Got(s)] + evs) == RunOn(Put(d, sent[s - 1]), e, lastSeq, sent, evs)
  {
    assert ([Evs.Got(s)] + evs)[1..] == evs;
  }

  /** On the map that run ends with the right outcome. */
  lemma TakingOnMap(d: State, sent: seq<Packet>, e: Entry, lastSeq: nat, s: nat, m: nat, t0: Token)
    requires OneMissing(d, sent, e, lastSeq, m) && d.last == 0 && Evs.Sound(sent, e)
    requires 1 <= s <= e.aru < m <= e.highest
    ensures var r := Evs.Run(d, e, lastSeq, sent, TakingRun(t0, s, m, EvsRuns.OwnToken(d, lastSeq)));
            r.Done? && Evs.Recovered(r.o, sent, e)
  {
    hide OneMissing, EvsRuns.InEvs, Evs.Commit, Evs.Insert, Evs.Run, Evs.Recover, Evs.Recovered, Evs.Sound;
    var t := EvsRuns.OwnToken(d, lastSeq);
    MissingCommit(d, sent, e, lastSeq, m, t0);
    var c := Evs.Commit(d, t0, lastSeq);
    MissingShape(c, sent, e, lastSeq, m);
    MissingComes(c, sent, e, lastSeq, m, s);
    var f := Evs.Insert(Evs.Insert(c, sent[s - 1]), sent[m - 1]);
    EvsRuns.TokenThen(d, sent, e, lastSeq, t0, [Evs.Got(s)] + ([Evs.Got(m)] + [Evs.TokenAt(t), Evs.TokenAt(t)]));
    EvsRuns.GotThen(c, sent, e, lastSeq, s, [Evs.Got(m)] + [Evs.TokenAt(t), Evs.TokenAt(t)]);
    EvsRuns.GotThen(Evs.Insert(c, sent[s - 1]), sent, e, lastSeq, m, [Evs.TokenAt(t), Evs.TokenAt(t)]);
    EvsRuns.TwoVisits(f, sent, e, lastSeq, t);
    EvsRuns.LateIff(f.(my := lastSeq, setAru := -1, last := lastSeq, aru := lastSeq), sent, e, lastSeq);
  }

  lemma MissingShape(d: State, sent: seq<Packet>, e: Entry, lastSeq: nat, m: nat)
    requires OneMissing(d, sent, e, lastSeq, m)
    ensures EvsRuns.InEvs(d, sent, e, lastSeq) && e.highest <= |sent| <= e.aru + MAX_PACKETS_IN_STRUCT
    ensures d.discarded == e.aru && d.my <= d.hi == e.highest
    ensures forall t | e.aru < t <= e.highest :: t in d.store <==> t != m
  {
    hide EvsRuns.Marked, EvsRuns.Holds, EvsRuns.Reach, Evs.Up, InSequence, Numbered;
  }

  /** A packet that takes the missing one's place in the array: the missing packet is then refused, and the outcome is
      right exactly when the old packet is left out and the missing one takes no part in the order or would be left
      out too.  On the map the same run ends with the right outcome. */
  lemma TakenPlaceIff(d: State, sent: seq<Packet>, e: Entry, lastSeq: nat, s: nat, m: nat, t0: Token)
    requires OneMissing(d, sent, e, lastSeq, m) && d.last == 0 && Evs.Sound(sent, e)
    requires 1 <= s <= e.aru && Seat(s, e.aru) == m <= e.highest
    ensures m <= |sent|
    ensures var evs := TakingRun(t0, s, m, EvsRuns.OwnToken(d, lastSeq));
            var r, r' := RunOn(d, e, lastSeq, sent, evs), Evs.Run(d, e, lastSeq, sent, evs);
            && r'.Done? && Evs.Recovered(r'.o, sent, e) && r.Done?
            && (Evs.Recovered(r.o, sent, e) <==>
                  HoleBelow(e, m) && sent[s - 1].sender !in e.commit && EvsRuns.HarmlessAt(sent, e, true, m - 1))
  {
    hide OneMissing, EvsRuns.InEvs, Evs.Commit, Evs.Insert, Evs.Run, Evs.Recover, Evs.Recovered, Evs.Sound,
        Stands, Seat;
    hide RunOn, Put, EvsRuns.HarmlessAt, HoleBelow, AllRight, InSequence;
    assert m > e.aru;
    TakingOnMap(d, sent, e, lastSeq, s, m, t0);
    var t := EvsRuns.OwnToken(d, lastSeq);
    MissingShape(d, sent, e, lastSeq, m);
    MissingCommit(d, sent, e, lastSeq, m, t0);
    var c := Evs.Commit(d, t0, lastSeq);
    MissingShape(c, sent, e, lastSeq, m);
    EvsRuns.InEvsShape(c, sent, e, lastSeq);
    StandsSelf(c, sent, e);
    OldStands(c, c, sent, e, lastSeq, s);
    StoodInKeeps(c, sent, e, lastSeq, s);
    var g := Put(c, sent[s - 1]);
    Refused(g, sent[m - 1]);
    OnToken(d, e, lastSeq, sent, t0, [Evs.Got(s)] + ([Evs.Got(m)] + [Evs.TokenAt(t), Evs.TokenAt(t)]));
    OnGot(c, e, lastSeq, sent, s, [Evs.Got(m)] + [Evs.TokenAt(t), Evs.TokenAt(t)]);
    OnGot(g, e, lastSeq, sent, m, [Evs.TokenAt(t), Evs.TokenAt(t)]);
    var f := TokensStand(g, StoodIn(c, sent, e, s), sent, e, lastSeq, t);
    var r := RunOn(g, e, lastSeq, sent, [Evs.TokenAt(t), Evs.TokenAt(t)]);
    OutcomeIff(r.d, f, sent, e, lastSeq);
    OneTaken(c, r.d, sent, e, lastSeq, s, m);
  }

  lemma Refused(d: State, p: Packet)
    requires p.seqNo in d.store && Within(p.seqNo, d.discarded)
    ensures Put(d, p) == d
  {
  }

  /** One old packet in the place of number m, and nothing else amiss. */
  lemma OneTaken(c: State, f: State, sent: seq<Packet>, e: Entry, lastSeq: nat, s: nat, m: nat)
    requires OneMissing(c, sent, e, lastSeq, m) && 1 <= s <= e.aru < m <= e.highest <= |sent|
    requires f.store == c.store[m := Fresh(sent[s - 1])] && f.hi == e.highest
    ensures AllRight(f, sent, e) <==>
            HoleBelow(e, m) && sent[s - 1].sender !in e.commit && EvsRuns.HarmlessAt(sent, e, true, m - 1)
  {
    MissingShape(c, sent, e, lastSeq, m);
    EvsRuns.InEvsShape(c, sent, e, lastSeq);
    StandsSelf(c, sent, e);
    MissingNoHole(c, sent, e, lastSeq, m);
    hide OneMissing, EvsRuns.InEvs, Stands, EvsRuns.HarmlessAt, HoleBelow;
    forall t: nat | e.aru < t <= e.highest && t != m
      ensures t in f.store && SlotRight(f.store, sent, e, t)
    {
      StandsSlot(c, c, sent, e, lastSeq, t);
      assert f.store[t] == c.store[t];
      NotForeign(c, sent, e, lastSeq, t);
    }
    assert sent[s - 1].seqNo == s;
    assert Foreign(f.store, m);
    assert SlotRight(f.store, sent, e, m) <==>
           HoleBelow(e, m) && sent[s - 1].sender !in e.commit && EvsRuns.HarmlessAt(sent, e, true, m - 1);
  }

  lemma MissingNoHole(d: State, sent: seq<Packet>, e: Entry, lastSeq: nat, m: nat)
    requires OneMissing(d, sent, e, lastSeq, m) && e.aru < m <= e.highest
    ensures m !in e.holes
  {
    hide EvsRuns.Marked, EvsRuns.Reach, Evs.Up, InSequence, Numbered;
  }

  lemma NotForeign(c: State, sent: seq<Packet>, e: Entry, lastSeq: nat, t: nat)
    requires EvsRuns.InEvs(c, sent, e, lastSeq) && t in c.store && e.aru < t
    ensures !Foreign(c.store, t)
  {
    hide EvsRuns.Marked, EvsRuns.Reach, Evs.Up, InSequence;
  }
}
