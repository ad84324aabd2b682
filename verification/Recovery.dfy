/** From a run of the old ring through the form token's walk to the next ring: the entry that the daemons
    read is one that recovery works with. */
module Recovery {
  import opened Packets
  import opened Daemon
  import opened DaemonInv
  import opened Form1
  import opened FormWalk
  import opened RingSafety
  import AruRule
  import Evs
  import EvsRuns
  import Ring
  import RingInv

  /** The daemon has every packet it made, or had it and discarded it. */
  ghost predicate OwnHeld(d: Daemon.State, sent: seq<Packet>) {
    forall s: nat | 1 <= s <= |sent| && sent[s - 1].sender == d.me :: Has(d, s)
  }

  lemma {:induction false} SendKeys(d: Daemon.State, n: nat)
    requires n <= |Lengths(d.down)|
    ensures d.store.Keys <= SendMany(d, n).store.Keys && SendMany(d, n).discarded == d.discarded
    decreases n
  {
    if n > 0 && !d.exited {
      SendKeys(SendOne(d), n - 1);
    }
  }

  /** What a daemon has it keeps, or discards. */
  lemma ReceiveHas(d: Daemon.State, p: Packet, s: nat)
    requires Has(d, s)
    ensures Has(Receive(d, p), s)
  {
    hide DeliverAgreed, DeliverSingles, Advance;
    if !(d.exited || p.seqNo <= d.aru || p.seqNo in d.store) {
      var store := d.store[p.seqNo := Fresh(p)];
      var hi := if d.hi < p.seqNo then p.seqNo else d.hi;
      if p.seqNo == d.my + 1 {
        var e := d.(store := store, hi := hi, my := Advance(store, d.my, hi));
        AgreedKeys(e);
        assert s in store ==> s in DeliverAgreed(e).store.Keys;
      } else {
        var e := d.(store := store, hi := hi);
        var i := if p.seqNo <= d.delivered then d.delivered + 1 else p.seqNo;
        SinglesKeys(e, i, p.seqNo);
        assert s in store ==> s in DeliverSingles(e, i, p.seqNo).store.Keys;
      }
    }
  }

  lemma Visit2Has(d: Daemon.State, counted: nat, s: nat)
    requires Has(d, s) && d.discarded <= d.aru && !Visit2(d, counted).exited
    ensures Has(Visit2(d, counted), s)
  {
    hide DeliverAgreed, DeliverSingles, DiscardLoop;
    DiscardLoopAbove(d, d.discarded + 1, d.hi);
    var e := Discard(d);
    if d.aru > d.discarded && e.exited {
      AgreedStops(e);
      SinglesStop(e, counted);
    }
    AgreedKeys(e);
    var f := DeliverAgreed(e);
    var start := f.hi - counted + 1;
    SinglesKeys(f, if start <= f.delivered then f.delivered + 1 else start, start + counted - 1);
    assert s in d.store ==> s in d.store.Keys;
    assert s in e.store ==> s in Visit2(d, counted).store.Keys;
  }

  lemma AgreedStops(d: Daemon.State)
    requires d.exited
    ensures DeliverAgreed(d) == d
  {
  }

  lemma SinglesStop(d: Daemon.State, counted: nat)
    requires d.exited
    ensures DeliverReliable(d, d.hi - counted + 1, counted) == d
  {
  }

  lemma Visit1Store(r: Ring.State, c: Choice)
    requires Ring.Rest(r) && RingInv.RuleOk(r)
    ensures var v := Visit1(r.ds[r.next], r.t, c);
            v.d.store == Ring.Sent(r).store && v.d.discarded == r.ds[r.next].discarded
  {
    hide LogOk, StoreOk, InSequence, Numbered, Fed, Visit1, Ring.Sent, Ring.SentMy, Ring.Ruled, Ring.NewPackets,
        Ring.SendCount;
    assert Ring.DaemonOk(r, r.next);
    RingInv.SendingKeeps(r);
    RingInv.SendingMy(r);
    assert !BadRequest(r.ds[r.next], r.t, c);
    RingInv.Visit1Is(r, c);
  }

  lemma SentKeys(r: Ring.State)
    requires Ring.Rest(r)
    ensures r.ds[r.next].store.Keys <= Ring.Sent(r).store.Keys
  {
    RingInv.RestShape(r);
    hide Ring.Rest, SendMany, Lengths;
    RingInv.SendingBounds(r);
    SendKeys(Raised(r.ds[r.next], r.t), Ring.SendCount(r).0);
  }

  /** The visited daemon keeps what it had and has what it made. */
  lemma VisitHas(r: Ring.State, c: Choice, s: nat)
    requires Ring.Rest(r) && RingInv.RuleOk(r)
    requires Has(r.ds[r.next], s) || |r.sent| < s <= |r.sent| + |Ring.NewPackets(r)|
    ensures Has(Visit(r.ds[r.next], r.t, c).d, s)
  {
    RingInv.RestShape(r);
    hide Visit1, Visit2, Ring.Sent, Ring.NewPackets, Core, Fed, Ring.Rest, RingInv.RuleOk, Ring.SentMy, Ring.Ruled;
    RingInv.VisitKeeps(r, c);
    RingInv.Visit1Keeps(r, c);
    RingInv.SendingKeeps(r);
    Visit1Store(r, c);
    SentKeys(r);
    var v := Visit1(r.ds[r.next], r.t, c);
    assert s in r.ds[r.next].store ==> s in r.ds[r.next].store.Keys;
    Visit2Has(v.d, v.counted, s);
  }

  ghost predicate AllOwn(r: Ring.State) {
    forall j: nat | j < |r.ds| :: r.ds[j].me == j && OwnHeld(r.ds[j], r.sent)
  }

  lemma VisitOwn(r: Ring.State, c: Choice)
    requires Ring.Rest(r) && RingInv.RuleOk(r) && AllOwn(r)
    ensures AllOwn(Ring.Step(r, Ring.TokenVisit(c)))
  {
    hide Visit, Ring.NewPackets, Has, Local, Fed, Ring.Rest, RingInv.RuleOk, Ring.Ruled, Ring.SentMy, Ring.SendCount;
    RingInv.VisitKeeps(r, c);
    RingInv.SendingBounds(r);
    RingInv.RestShape(r);
    RingInv.LocalRuns(Visit(r.ds[r.next], r.t, c).d, r.sent + Ring.NewPackets(r));
    var r' := Ring.Step(r, Ring.TokenVisit(c));
    forall j: nat | j < |r'.ds|
      ensures r'.ds[j].me == j && OwnHeld(r'.ds[j], r'.sent)
    {
      forall s: nat | 1 <= s <= |r'.sent| && r'.sent[s - 1].sender == j
        ensures Has(r'.ds[j], s)
      {
        assert s <= |r.sent| ==> r'.sent[s - 1] == r.sent[s - 1];
        assert s > |r.sent| ==> r'.sent[s - 1] == Ring.NewPackets(r)[s - 1 - |r.sent|];
        assert OwnHeld(r.ds[j], r.sent);
        if j == r.next {
          VisitHas(r, c, s);
        }
      }
    }
  }

  lemma StepOwn(r: Ring.State, a: Ring.Action)
    requires Running(r) && AllOwn(r)
    ensures Ring.Shape(r) && AllOwn(Ring.Step(r, a))
  {
    RunningShape(r);
    RunningRest(r);
    hide Ring.Rest, Has, Running, Receive, RingInv.RuleOk;
    match a
    case Post(who, m) =>
      PostOwn(r, who, m);
    case Arrive(who, i) =>
      ArriveOwn(r, who, i);
    case TokenVisit(c) =>
      RunningRule(r);
      VisitOwn(r, c);
  }

  lemma RunningRule(r: Ring.State)
    requires Running(r)
    ensures Ring.Shape(r) && RingInv.RuleOk(r)
  {
    if Start(r) {
      FirstRuleOk(r);
    } else {
      RingInv.RuleFromInv(r);
    }
  }

  lemma PostOwn(r: Ring.State, who: nat, m: Message)
    requires Ring.Shape(r) && AllOwn(r)
    ensures AllOwn(Ring.Step(r, Ring.Post(who, m)))
  {
    var r' := Ring.Step(r, Ring.Post(who, m));
    forall j: nat | j < |r'.ds|
      ensures r'.ds[j].me == j && OwnHeld(r'.ds[j], r'.sent)
    {
      assert r.ds[j].me == j && OwnHeld(r.ds[j], r.sent);
      assert forall s :: Has(r'.ds[j], s) <==> Has(r.ds[j], s);
    }
  }

  lemma ArriveOwn(r: Ring.State, who: nat, i: nat)
    requires Running(r) && AllOwn(r) && Ring.Shape(r)
    ensures AllOwn(Ring.Step(r, Ring.Arrive(who, i)))
  {
    var r' := Ring.Step(r, Ring.Arrive(who, i));
    StepKeepsRunning(r, Ring.Arrive(who, i));
    hide Running, Receive, Has;
    forall j: nat | j < |r'.ds|
      ensures r'.ds[j].me == j && OwnHeld(r'.ds[j], r'.sent)
    {
      assert r.ds[j].me == j && OwnHeld(r.ds[j], r.sent);
      RunningLocal(r', j);
      if j == who && 1 <= i <= |r.sent| {
        forall s: nat | 1 <= s <= |r.sent| && r.sent[s - 1].sender == j
          ensures Has(r'.ds[j], s)
        {
          ReceiveHas(r.ds[j], r.sent[i - 1], s);
        }
      }
    }
  }

  ghost predicate WalkOwn(w: World) {
    && FormWalk.Inv(w) && AllOwn(w.r)
    && forall i | 0 <= i < |w.snaps| :: OwnHeld(w.snaps[i], w.r.sent)
  }

  /** Daemons not visited make no packet in the name of a visited one. */
  lemma VisitSnapOwn(r: Ring.State, c: Choice, d: Daemon.State)
    requires Running(r) && OwnHeld(d, r.sent) && d.me != r.next
    ensures Ring.Shape(r) && OwnHeld(d, Ring.Step(r, Ring.TokenVisit(c)).sent)
  {
    RunningRest(r);
    RunningRule(r);
    hide Visit, Ring.NewPackets, Has, Local, Fed, Ring.Rest, RingInv.RuleOk, Ring.Ruled, Ring.SentMy,
        Ring.SendCount, Running;
    RingInv.VisitKeeps(r, c);
    RingInv.SendingBounds(r);
    var sent' := Ring.Step(r, Ring.TokenVisit(c)).sent;
    var made := Ring.NewPackets(r);
    assert sent' == r.sent + made;
    forall s: nat | 1 <= s <= |sent'| && sent'[s - 1].sender == d.me
      ensures Has(d, s)
    {
      if s > |r.sent| {
        AppendedSender(r.sent, made, s, r.next);
      }
    }
  }

  lemma AppendedSender(sent: seq<Packet>, made: seq<Packet>, s: nat, x: nat)
    requires |sent| < s <= |sent| + |made| && forall i | 0 <= i < |made| :: made[i].sender == x
    ensures (sent + made)[s - 1].sender == x
  {
    assert (sent + made)[s - 1] == made[s - 1 - |sent|];
  }

  lemma WalkStepOwn(w: World, act: FormWalk.Action)
    requires WalkOwn(w) && Ring.Shape(w.r)
    ensures WalkOwn(FormWalk.Step(w, act))
  {
    hide Running, OwnHeld, EntryOk, SnapOk, Ring.Step, NextEntry;
    match act
    case Old(a) =>
      OldKeeps(w, a);
      StepOwn(w.r, a);
      var w' := FormWalk.Step(w, act);
      forall i | 0 <= i < |w.snaps|
        ensures OwnHeld(w'.snaps[i], w'.r.sent)
      {
        if a.TokenVisit? && !FormWalk.Visited(w, w.r.next) {
          assert w.snaps[i].me != w.r.next;
          VisitSnapOwn(w.r, a.c, w.snaps[i]);
        } else if !a.TokenVisit? {
          SentKept(w.r, a);
        }
      }
    case Form(j, create, commitSet) =>
      FormKeeps(w, j, create, commitSet);
  }

  lemma SentKept(r: Ring.State, a: Ring.Action)
    requires Ring.Shape(r) && !a.TokenVisit?
    ensures Ring.Step(r, a).sent == r.sent
  {
  }

  lemma {:induction false} WalkRunOwn(w: World, run: seq<FormWalk.Action>)
    requires WalkOwn(w) && Ring.Shape(w.r)
    ensures WalkOwn(FormWalk.Exec(w, run))
    decreases |run|
  {
    hide WalkOwn, FormWalk.Step;
    if run != [] {
      WalkStepOwn(w, run[0]);
      WalkRunOwn(FormWalk.Step(w, run[0]), run[1..]);
    }
  }

  lemma WalkStarts(start: Ring.State, seqNo: nat)
    requires Start(start) && GoodStart(start)
    ensures WalkOwn(Unseen(start, seqNo))
  {
    forall j: nat | j < |start.ds|
      ensures start.ds[j].me == j && OwnHeld(start.ds[j], start.sent)
    {
      assert Entered(start.ds[j], j);
    }
  }

  /** The state of a form token's walk that some run from a good start of the old ring leads to. */
  ghost predicate Walked(w: World) {
    exists start, seqNo, run :: Start(start) && GoodStart(start) && w == FormWalk.Exec(Unseen(start, seqNo), run)
  }

  lemma WalkedOwn(w: World)
    requires Walked(w)
    ensures WalkOwn(w) && Ring.Shape(w.r)
  {
    var start, seqNo, run :| Start(start) && GoodStart(start) && w == FormWalk.Exec(Unseen(start, seqNo), run);
    WalkStarts(start, seqNo);
    hide WalkOwn;
    WalkRunOwn(Unseen(start, seqNo), run);
  }

  lemma WalkedInv(w: World)
    requires Walked(w)
    ensures FormWalk.Inv(w)
  {
    WalkedOwn(w);
  }

  /** No hole of the entry has been filled at the daemon since the form token's walk. */
  predicate Unfilled(d: Daemon.State, e: Entry) {
    forall h | h in e.holes :: h !in d.store
  }

  lemma EntryFacts(w: World, j: nat)
    requires FormWalk.Inv(w) && Ring.Shape(w.r) && j < |w.r.ds| && FormWalk.Visited(w, j)
    ensures w.entry.Some?
    ensures var d, e := w.r.ds[j], w.entry.value;
            d.aru <= e.aru <= d.my && e.aru <= e.highest <= |w.r.sent|
  {
    hide Running, HolesOk, MembersOk, Local, Ring.Shape;
    var e := w.entry.value;
    var i :| 0 <= i < |w.snaps| && w.snaps[i].me == j;
    var k :| 0 <= k < |w.snaps| && w.snaps[k].aru == e.aru;
    var h :| 0 <= h < |w.snaps| && w.snaps[h].hi == e.highest;
    assert SnapOk(w.r, w.snaps[i]) && SnapOk(w.r, w.snaps[k]) && SnapOk(w.r, w.snaps[h]);
    AruBelowLast(w.r, w.snaps[k].me, j);
    RingInv.LocalRuns(w.snaps[h], w.r.sent);
    RingInv.LocalRuns(w.snaps[k], w.r.sent);
  }

  /** The form token's number is above everything sent on the old ring: it is at least FORM_GAP above the
      entry's Highest_seq, and no packet is that far above any Aru. */
  lemma FormNumber(w: World, j: nat)
    requires FormWalk.Inv(w) && Ring.Shape(w.r) && j < |w.r.ds| && FormWalk.Visited(w, j)
    ensures |w.r.sent| < w.seqNo
  {
    EntryFacts(w, j);
    RunningRest(w.r);
    assert Ring.DaemonOk(w.r, j);
  }

  lemma HolesAbove(w: World, h: nat)
    requires FormWalk.Inv(w) && w.entry.Some? && h in w.entry.value.holes
    ensures w.entry.value.aru < h <= w.entry.value.highest && NobodyHas(w.snaps, h)
  {
    hide Running, MembersOk, Local;
    var e := w.entry.value;
    var k :| 0 <= k < |w.snaps| && w.snaps[k].aru == e.aru;
    assert SnapOk(w.r, w.snaps[k]);
    LocalHas(w.snaps[k], w.r.sent, h);
    assert !Has(w.snaps[k], h);
  }

  /** At every daemon the token visited, Read_form2 takes a fatal exit exactly when one of the entry's holes has
      been filled since; if none has, what recovery relies on holds. */
  lemma Form2Holds(w: World, j: nat)
    requires Walked(w) && j < |w.r.ds| && FormWalk.Visited(w, j)
    ensures w.entry.Some?
    ensures var d, e := w.r.ds[j], w.entry.value;
            && (Evs.ReadForm2(d, e).exited <==> !Unfilled(d, e))
            && (Unfilled(d, e) ==> EvsRuns.Form2Ok(d, w.r.sent, e))
  {
    WalkedOwn(w);
    hide Walked, AllOwn, OwnHeld;
    EntryFacts(w, j);
    RunningLocal(w.r, j);
    hide Running, Local, ReachOk, MembersOk, SnapOk;
    var d, e := w.r.ds[j], w.entry.value;
    forall h | h in e.holes
      ensures e.aru < h <= e.highest
    {
      HolesAbove(w, h);
    }
    hide Evs.ReadForm2;
    EvsRuns.HoleExitIff(d, w.r.sent, e);
  }

  /** Every daemon named in a commit set that was brought has been visited itself. */
  predicate NamedCame(w: World) {
    forall i, x | 0 <= i < |w.sets| && x in w.sets[i] :: FormWalk.Visited(w, x)
  }

  lemma HoleForeign(w: World, h: nat)
    requires WalkOwn(w) && w.entry.Some? && NamedCame(w) && h in w.entry.value.holes
    requires w.entry.value.highest <= |w.r.sent|
    ensures 1 <= h <= w.entry.value.highest && w.r.sent[h - 1].sender !in w.entry.value.commit
  {
    hide Running, OwnHeld, SnapOk, ReachOk, HolesOk, MembersOk, NamedCame, AllOwn;
    HolesAbove(w, h);
    if w.r.sent[h - 1].sender in w.entry.value.commit {
      MemberHas(w, h);
    }
  }

  lemma EntryInRing(w: World)
    requires WalkOwn(w) && Ring.Shape(w.r) && w.entry.Some?
    ensures w.entry.value.aru <= w.entry.value.highest <= |w.r.sent| && InSequence(w.r.sent)
  {
    hide Running, OwnHeld, Local, ReachOk, HolesOk, MembersOk, AllOwn;
    assert SnapOk(w.r, w.snaps[0]);
    EntryFacts(w, w.snaps[0].me);
    RingInv.LocalRuns(w.snaps[0], w.r.sent);
  }

  /** Then no packet of a member of the commit set is missing, since each member has its own; and what survives
      is accepted. */
  lemma NoMemberMisses(w: World)
    requires Walked(w) && w.entry.Some? && NamedCame(w)
    ensures Evs.HolesForeign(w.r.sent, w.entry.value) && Evs.Sound(w.r.sent, w.entry.value)
  {
    hide Walked, WalkOwn, NamedCame, InSequence, Evs.Sound, Ring.Shape;
    WalkedOwn(w);
    EntryInRing(w);
    var e := w.entry.value;
    forall h | h in e.holes
      ensures 1 <= h <= e.highest <= |w.r.sent| && w.r.sent[h - 1].sender !in e.commit
    {
      HoleForeign(w, h);
    }
    Evs.ForeignSound(w.r.sent, e);
  }

  lemma MemberHas(w: World, h: nat)
    requires w.entry.Some? && MembersOk(w.entry.value, w.snaps, w.sets) && NamedCame(w)
    requires 1 <= h <= |w.r.sent| && w.r.sent[h - 1].sender in w.entry.value.commit
    requires forall i | 0 <= i < |w.snaps| :: OwnHeld(w.snaps[i], w.r.sent)
    ensures exists i :: 0 <= i < |w.snaps| && Has(w.snaps[i], h)
  {
    var x := w.r.sent[h - 1].sender;
    var i: nat :| i < |w.snaps| && Belongs(w.snaps, w.sets, i, x);
    assert FormWalk.Visited(w, x) by {
      if x != w.snaps[i].me {
        assert x in w.sets[i];
      }
    }
    var k :| 0 <= k < |w.snaps| && w.snaps[k].me == x;
    assert OwnHeld(w.snaps[k], w.r.sent);
  }

  /** Two daemons of an old ring that the form token visited, for every run of the old ring, every walk of the
      token with whatever commit sets, whatever number the token leaves the ring with or gets on others, every
      arrival of packets, old and late ones included, and every sequence of tokens.  If both get through recovery and
      what came late makes no difference to either, they hand up the same or both take the fatal exit; if it makes
      none to one, they agree exactly when it makes none to the other. */
  lemma RecoverySynchronizes(w: World, j: nat, k: nat, lastSeq: nat, evs1: seq<Evs.Event>, evs2: seq<Evs.Event>)
    requires Walked(w) && j < |w.r.ds| && k < |w.r.ds| && FormWalk.Visited(w, j) && FormWalk.Visited(w, k)
    requires w.entry.Some? && w.seqNo <= lastSeq
    requires Unfilled(w.r.ds[j], w.entry.value) && Unfilled(w.r.ds[k], w.entry.value)
    ensures var e := w.entry.value;
            var r1 := Evs.Run(Evs.ReadForm2(w.r.ds[j], e), e, lastSeq, w.r.sent, evs1);
            var r2 := Evs.Run(Evs.ReadForm2(w.r.ds[k], e), e, lastSeq, w.r.sent, evs2);
            && !r1.d.exited && !r2.d.exited
            && (EvsRuns.Timely(evs1, e) && r1.Done? ==> EvsRuns.Caught(r1.d, w.r.sent, e))
            && (r1.Done? && EvsRuns.Caught(r1.d, w.r.sent, e) ==>
                  && (r1.o.d.exited <==> !Evs.Sound(w.r.sent, e))
                  && (NamedCame(w) ==> !r1.o.d.exited)
                  && (r2.Done? && EvsRuns.Caught(r2.d, w.r.sent, e) ==> EvsRuns.Together(r1.o, r2.o))
                  && (r2.Done? && Evs.Sound(w.r.sent, e) ==>
                        (EvsRuns.Together(r1.o, r2.o) <==> EvsRuns.Caught(r2.d, w.r.sent, e))))
  {
    hide EvsRuns.Form2Ok, Evs.Sound, Evs.Run, Evs.ReadForm2, Unfilled, Walked, Once, Ord, NamedCame;
    hide EvsRuns.Timely, EvsRuns.Together, EvsRuns.Caught, Evs.Recover, Evs.Recovered, Evs.OrdBefore;
    Form2Holds(w, j);
    Form2Holds(w, k);
    WalkedNumber(w, j);
    var e := w.entry.value;
    var d1, d2 := w.r.ds[j], w.r.ds[k];
    var r1 := Evs.Run(Evs.ReadForm2(d1, e), e, lastSeq, w.r.sent, evs1);
    var r2 := Evs.Run(Evs.ReadForm2(d2, e), e, lastSeq, w.r.sent, evs2);
    EvsRuns.RunRuns(d1, w.r.sent, e, lastSeq, evs1);
    EvsRuns.RunRuns(d2, w.r.sent, e, lastSeq, evs2);
    EvsRuns.RecoveryKeeps(d1, w.r.sent, e, lastSeq, evs1);
    if EvsRuns.Timely(evs1, e) {
      EvsRuns.TimelyCaught(d1, w.r.sent, e, lastSeq, evs1);
    }
    if r1.Done? && EvsRuns.Caught(r1.d, w.r.sent, e) {
      if r2.Done? && EvsRuns.Caught(r2.d, w.r.sent, e) {
        EvsRuns.VirtualSynchrony(d1, d2, w.r.sent, e, lastSeq, evs1, evs2);
      }
      if r2.Done? && Evs.Sound(w.r.sent, e) {
        EvsRuns.SynchronyIff(d1, d2, w.r.sent, e, lastSeq, evs1, evs2);
      }
      if NamedCame(w) {
        NoMemberMisses(w);
      }
    }
  }

  /** A visited daemon can get to the next ring by what the entry knows exactly when, between the two form tokens,
      its My_aru did not pass the entry's Highest_seq. */
  lemma GetsThroughIff(w: World, j: nat, lastSeq: nat)
    requires Walked(w) && j < |w.r.ds| && FormWalk.Visited(w, j) && w.entry.Some? && w.seqNo <= lastSeq
    requires Unfilled(w.r.ds[j], w.entry.value)
    ensures var d, e := w.r.ds[j], w.entry.value;
            d.my <= e.highest <==>
            exists evs :: EvsRuns.Timely(evs, e) && Evs.Run(Evs.ReadForm2(d, e), e, lastSeq, w.r.sent, evs).Done?
  {
    hide EvsRuns.Form2Ok, Evs.Run, Evs.ReadForm2, Unfilled, Walked, EvsRuns.Timely;
    Form2Holds(w, j);
    WalkedNumber(w, j);
    EvsRuns.CommitsIff(w.r.ds[j], w.r.sent, w.entry.value, lastSeq);
  }

  lemma WalkedNumber(w: World, j: nat)
    requires Walked(w) && j < |w.r.ds| && FormWalk.Visited(w, j)
    ensures |w.r.sent| < w.seqNo
  {
    WalkedOwn(w);
    hide Walked, AllOwn, OwnHeld;
    FormNumber(w, j);
  }
}
