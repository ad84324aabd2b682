/** Runs from a good start that show what recovery does not stand: a commit set that names a daemon which did not
    come, and packets that arrive late, in EVS or between the two form tokens. */
module RecoveryDefect {
  import opened Packets
  import opened Daemon
  import opened DaemonInv
  import opened Form1
  import opened FormWalk
  import opened RingSafety
  import opened Recovery
  import AruRule
  import Burst
  import Evs
  import EvsBarrier
  import EvsRing
  import EvsRuns
  import Ring

  /** A daemon that just entered OP. */
  function NewDaemon(me: nat, msgs: seq<Message>): Daemon.State
    requires DownOk(Down(msgs, 0))
  {
    Daemon.State(me, 0, 0, 0, -1, 0, 0, 0, map[], [], Down(msgs, 0), 0, 0, false)
  }

  /** An AGREED message of two packets. */
  const TWO_PARTS: Message := Message(Agreed, [[], []])

  /** The token is about to reach daemon 1, where that message waits. */
  function TwoDaemons(): Ring.State {
    Ring.State([NewDaemon(0, []), NewDaemon(1, [TWO_PARTS])], [[], [TWO_PARTS]], [], Token(0, 1, 0, 0, []), 1)
  }

  const PART1: Packet := Packet(1, 1, Agreed, 1, [])
  const PART2: Packet := Packet(2, 1, Agreed, -2, [])

  lemma StartsWell()
    ensures Start(TwoDaemons()) && GoodStart(TwoDaemons())
  {
    var r := TwoDaemons();
    assert r.ds[..1] == [r.ds[0]] && r.ds[..1][..0] == [];
    assert Ring.Load([]) == 0 && Ring.Load(r.ds[..1]) == 0;
    assert Ring.Load(r.ds) == 0;
    forall j: nat | j < |r.ds|
      ensures Entered(r.ds[j], j) && r.posted[j] == r.ds[j].down.msgs && Quiet(r.ds[j])
    {
      assert j == 0 || j == 1;
    }
  }

  const PLAIN: Choice := Choice(0, 0, false)

  lemma TwoWaiting()
    ensures Lengths(Down([TWO_PARTS], 0)) == [0, 0]
  {
    var q := Down([TWO_PARTS], 0);
    assert PopPart(q) == Down([TWO_PARTS], 1) && PopPart(PopPart(q)) == Down([], 0);
    assert Lengths(Down([], 0)) == [];
    assert Lengths(Down([TWO_PARTS], 1)) == [0];
  }

  lemma TwoTaken(allowed: nat)
    requires allowed == Burst.PERSONAL_WINDOW
    ensures Burst.Take([0, 0], allowed, Burst.EMPTY, 0) == (2, 1)
  {
    var q1, q2 := Burst.Queue(36, 2), Burst.Queue(72, 4);
    assert Burst.Enqueue(Burst.EMPTY, 36) == (q1, false) && Burst.Enqueue(q1, 36) == (q2, false);
    assert [0, 0][1..] == [0] && [0][1..] == [];
    assert Burst.Take([], allowed, q2, 0) == (0, 1);
    assert Burst.Take([0], allowed, q1, 0) == (1, 1);
  }

  lemma TwoMade()
    ensures |Lengths(Down([TWO_PARTS], 0))| == 2
    ensures var d := NewDaemon(1, [TWO_PARTS]);
            Made(d, 2) == [PART1, PART2] && !SendMany(d, 2).exited
  {
    TwoWaiting();
    var d := NewDaemon(1, [TWO_PARTS]);
    var d1 := SendOne(d);
    assert NextPacket(d) == PART1 && !d1.exited && d1.hi == 1 && d1.down == Down([TWO_PARTS], 1);
    assert Lengths(d1.down) == [0];
    assert NextPacket(d1) == PART2;
    var d2 := SendOne(d1);
    assert !d2.exited;
    assert Made(d2, 0) == [] && Made(d1, 1) == [PART2];
  }

  /** After the token's visit both packets are made, and daemon 0 is as it was. */
  lemma BothSent()
    ensures var r := Ring.Step(TwoDaemons(), Ring.TokenVisit(PLAIN));
            r.sent == [PART1, PART2] && |r.ds| == 2 && r.ds[0] == NewDaemon(0, [])
  {
    var r := TwoDaemons();
    var d := r.ds[1];
    assert Raised(d, r.t) == d;
    TwoWaiting();
    TwoTaken(Burst.Allowed(0, 0, 0));
    TwoMade();
    assert BurstOf(d, Burst.Allowed(0, 0, 0)) == (2, 1);
    hide Made, SendMany, Visit2, BurstOf, Advance, Missing;
    var v := Visit1(d, r.t, PLAIN);
    assert v.made == [PART1, PART2];
    StartsWell();
    StepKeepsRunning(r, Ring.TokenVisit(PLAIN));
    RunningLocal(Ring.Step(r, Ring.TokenVisit(PLAIN)), 1);
    assert [] + v.made == v.made;
  }

  lemma ExecOne(w: World, a: FormWalk.Action)
    requires Ring.Shape(w.r)
    ensures FormWalk.Exec(w, [a]) == FormWalk.Step(w, a)
  {
    assert [a][1..] == [];
  }

  lemma ExecMore(w: World, a: FormWalk.Action, run: seq<FormWalk.Action>)
    requires Ring.Shape(w.r)
    ensures FormWalk.Exec(w, [a] + run) == FormWalk.Exec(FormWalk.Step(w, a), run)
  {
    assert ([a] + run)[1..] == run;
  }

  /** The ring after the token's visit, with nobody visited by a form token yet. */
  function Sent(): World {
    FormWalk.Step(Unseen(TwoDaemons(), 0), Old(Ring.TokenVisit(PLAIN)))
  }

  lemma SentIs()
    ensures var w := Sent();
            && w == Unseen(w.r, 0) && w.r.sent == [PART1, PART2] && |w.r.ds| == 2 && w.r.ds[0] == NewDaemon(0, [])
  {
    hide Ring.Step;
    BothSent();
    assert !FormWalk.Visited(Unseen(TwoDaemons(), 0), 1);
  }

  /** Daemon 0 gets the second part only, and brings a commit set that names daemon 1, which does not come. */
  const STALE: seq<nat> := [0, 1]

  const MISSED: Entry := Entry(0, 2, [1], STALE, 1)

  lemma HoleFound(store: Store)
    requires store.Keys == {2}
    ensures Absent(store, 1, 2) == [1] && [0] + Others(STALE, 0) == STALE
  {
    assert Missing(store, 3, 2, 0) == [] && Missing(store, 2, 2, 1) == [] && Missing(store, 1, 2, 2) == [1];
    assert STALE[..1] == [0] && [0][..0] == [];
    assert Others([0], 0) == [] && Others(STALE, 0) == [1];
  }

  lemma LastReceived()
    ensures var d := Receive(NewDaemon(0, []), PART2);
            d == NewDaemon(0, []).(store := map[2 := Fresh(PART2)], hi := 2)
  {
    var d := NewDaemon(0, []).(store := map[2 := Fresh(PART2)], hi := 2);
    assert DeliverSingles(d, 3, 2) == d && DeliverSingles(d, 2, 2) == d;
  }

  function MissedWorld(): World
  {
    FormWalk.Step(FormWalk.Step(Sent(), Old(Ring.Arrive(0, 2))), Form(0, true, STALE))
  }

  lemma MissedWalk()
    ensures var w := MissedWorld();
            && Walked(w) && FormWalk.Visited(w, 0) && w.entry == Some(MISSED)
            && w.r.sent == [PART1, PART2] && |w.r.ds| == 2
            && w.r.ds[0] == NewDaemon(0, []).(store := map[2 := Fresh(PART2)], hi := 2)
  {
    StartsWell();
    SentIs();
    LastReceived();
    hide FormWalk.Exec, Walked, Start, GoodStart, Receive, Visit, Ring.Shape;
    var w0, a1, a2, a3 := Unseen(TwoDaemons(), 0), Old(Ring.TokenVisit(PLAIN)), Old(Ring.Arrive(0, 2)),
        Form(0, true, STALE);
    assert Ring.Shape(w0.r) by { StartShape(TwoDaemons()); }
    ExecMore(w0, a1, [a2] + [a3]);
    ExecMore(Sent(), a2, [a3]);
    var w2 := FormWalk.Step(Sent(), a2);
    ExecOne(w2, a3);
    WalkedBy([a1] + ([a2] + [a3]));
    HoleFound(w2.r.ds[0].store);
    assert !FormWalk.Visited(w2, 0);
    var w := MissedWorld();
    assert w.snaps == [w2.r.ds[0]] && w.snaps[0].me == 0;
  }

  lemma StartShape(r: Ring.State)
    requires Start(r)
    ensures Ring.Shape(r)
  {
  }

  lemma WalkedBy(run: seq<FormWalk.Action>)
    ensures Ring.Shape(TwoDaemons()) && Walked(FormWalk.Exec(Unseen(TwoDaemons(), 0), run))
  {
    StartsWell();
    hide Start, GoodStart;
    StartShape(TwoDaemons());
  }

  lemma PartRefused()
    ensures !Evs.Sound([PART1, PART2], MISSED)
  {
    var sent := [PART1, PART2];
    assert Evs.Picked(sent, MISSED, 3, true) == [];
    assert Evs.Picked(sent, MISSED, 2, true) == [PART2] + [] == [PART2];
    assert Evs.Picked(sent, MISSED, 1, false) == [PART2];
    assert Evs.Surviving(sent, MISSED) == [] + [PART2] == [PART2];
    assert [PART2][..0] == [];
    assert !AcceptedAt([PART2], 0);
  }

  /** A run from a good start, a form token's walk and a recovery that end with a fatal exit: the commit set
      names a daemon that is gone, and the first packet of its message is missing. */
  lemma StaleCommitSetExits(lastSeq: nat)
    requires lastSeq >= MISSED.highest + FORM_GAP
    ensures var w := MissedWorld();
            var d, t := Evs.ReadForm2(w.r.ds[0], MISSED), Token(lastSeq, 0, 0, 0, []);
            && Walked(w) && FormWalk.Visited(w, 0) && w.entry == Some(MISSED) && Unfilled(w.r.ds[0], MISSED)
            && var r := Evs.Run(d, MISSED, lastSeq, w.r.sent, [Evs.TokenAt(t), Evs.TokenAt(t)]);
               r.Done? && r.o.d.exited
  {
    hide Walked, MissedWorld, Evs.Sound, EvsRuns.Form2Ok, EvsRuns.InEvs, Evs.ReadForm2, Evs.Recover, Evs.Run,
        EvsRuns.Caught;
    MissedWalk();
    PartRefused();
    var w := MissedWorld();
    var d := w.r.ds[0];
    assert Unfilled(d, MISSED);
    Form2Holds(w, 0);
    EvsRuns.ReadForm2Keeps(d, w.r.sent, MISSED, lastSeq);
    var f, t := Evs.ReadForm2(d, MISSED), Token(lastSeq, 0, 0, 0, []);
    assert t == EvsRuns.OwnToken(f, lastSeq);
    MissedStore(d);
    EvsRuns.TwoVisits(f, w.r.sent, MISSED, lastSeq, t);
    EvsRuns.RecoveryKeeps(d, w.r.sent, MISSED, lastSeq, [Evs.TokenAt(t), Evs.TokenAt(t)]);
  }

  lemma MissedStore(d: Daemon.State)
    requires d == NewDaemon(0, []).(store := map[2 := Fresh(PART2)], hi := 2)
    ensures var f := Evs.ReadForm2(d, MISSED);
            Evs.Complete(f.store, MISSED.aru + 1, f.hi) && f.my <= f.hi
  {
    assert MISSED.holes[..0] == [];
    assert Evs.MarkHoles(d, []) == d;
    assert Evs.ReadForm2(d, MISSED).store == d.store[1 := Hole];
  }

  /** Daemon 0 is visited before any packet reaches it: the entry knows of none. */
  const NOTHING: Entry := Entry(0, 0, [], [0], 1)

  function LateWorld(): World {
    FormWalk.Step(Sent(), Form(0, true, [0]))
  }

  lemma NothingFound()
    ensures Absent(map[], 1, 0) == [] && [0] + Others([0], 0) == [0]
  {
    assert [0][..0] == [];
    assert Others([0], 0) == [];
  }

  lemma LateWalk()
    ensures var w := LateWorld();
            && Walked(w) && FormWalk.Visited(w, 0) && w.entry == Some(NOTHING)
            && w.r.sent == [PART1, PART2] && |w.r.ds| == 2 && w.r.ds[0] == NewDaemon(0, [])
  {
    StartsWell();
    SentIs();
    hide FormWalk.Exec, Walked, Start, GoodStart, Visit, Ring.Shape;
    var w0, a1, a2 := Unseen(TwoDaemons(), 0), Old(Ring.TokenVisit(PLAIN)), Form(0, true, [0]);
    assert Ring.Shape(w0.r) by { StartShape(TwoDaemons()); }
    ExecMore(w0, a1, [a2]);
    ExecOne(Sent(), a2);
    WalkedBy([a1] + [a2]);
    NothingFound();
    assert !FormWalk.Visited(Sent(), 0);
    var w := LateWorld();
    assert w.snaps == [w.r.ds[0]] && w.snaps[0].me == 0;
  }

  lemma NothingSound()
    ensures Evs.Sound([PART1, PART2], NOTHING)
  {
    assert Evs.Surviving([PART1, PART2], NOTHING) == [];
  }

  /** A run from a good start, a form token's walk and a recovery in which one packet arrives late: the daemon
      gets to the next ring with an outcome that a daemon without that packet does not have. */
  lemma LateArrival(lastSeq: nat)
    requires lastSeq >= FORM_GAP
    ensures var w := LateWorld();
            var d, t := Evs.ReadForm2(w.r.ds[0], NOTHING), Token(lastSeq, 0, 0, 0, []);
            && Walked(w) && FormWalk.Visited(w, 0) && w.entry == Some(NOTHING) && Unfilled(w.r.ds[0], NOTHING)
            && var late := Evs.Run(d, NOTHING, lastSeq, w.r.sent, [Evs.Got(1)] + [Evs.TokenAt(t), Evs.TokenAt(t)]);
               var timely := Evs.Run(d, NOTHING, lastSeq, w.r.sent, [Evs.TokenAt(t), Evs.TokenAt(t)]);
               && late.Done? && !Evs.Recovered(late.o, w.r.sent, NOTHING)
               && timely.Done? && Evs.Recovered(timely.o, w.r.sent, NOTHING)
  {
    hide Walked, LateWorld, Evs.Sound, EvsRuns.Form2Ok, EvsRuns.InEvs, Evs.Recover, Evs.Run, EvsRuns.Caught,
        Evs.Recovered;
    LateWalk();
    NothingSound();
    var w := LateWorld();
    var d := w.r.ds[0];
    Form2Holds(w, 0);
    EvsRuns.ReadForm2Keeps(d, w.r.sent, NOTHING, lastSeq);
    var f := Evs.ReadForm2(d, NOTHING);
    assert f == d;
    EvsRuns.LatePacketBreaks(f, w.r.sent, NOTHING, lastSeq);
  }

  /** Only the second packet comes late, between the two tokens in EVS: recovery takes the fatal exit on a packet
      that does not exist. */
  lemma GapArrival(lastSeq: nat)
    requires lastSeq >= FORM_GAP
    ensures var w := LateWorld();
            var d, t := Evs.ReadForm2(w.r.ds[0], NOTHING), Token(lastSeq, 0, 0, 0, []);
            && Walked(w) && FormWalk.Visited(w, 0) && w.entry == Some(NOTHING) && Unfilled(w.r.ds[0], NOTHING)
            && var r := Evs.Run(d, NOTHING, lastSeq, w.r.sent, [Evs.TokenAt(t)] + ([Evs.Got(2)] + [Evs.TokenAt(t)]));
               r.Done? && r.o.d.exited
  {
    hide Walked, LateWorld, EvsRuns.Form2Ok, EvsRuns.InEvs, Evs.Recover, Evs.Run;
    LateWalk();
    var w := LateWorld();
    var d := w.r.ds[0];
    Form2Holds(w, 0);
    EvsRuns.ReadForm2Keeps(d, w.r.sent, NOTHING, lastSeq);
    var f := Evs.ReadForm2(d, NOTHING);
    assert f == d;
    EvsRuns.GapRunExits(f, w.r.sent, NOTHING, lastSeq, 2);
  }

  /** The first packet reaches daemon 0 after the form token's first visit and before its second one. */
  function PassedWorld(): World {
    FormWalk.Step(LateWorld(), Old(Ring.Arrive(0, 1)))
  }

  lemma FirstReceived()
    ensures Receive(NewDaemon(0, []), PART1).my == 1
  {
    var store := map[1 := Fresh(PART1)];
    assert Advance(store, 0, 1) == 1;
    var d := NewDaemon(0, []).(store := store, hi := 1, my := 1);
    assert PART1.service.Agreed? && Accepts([], PART1);
    var e := Deliver(d, 1).(delivered := 1);
    assert DeliverAgreed(e) == e;
  }

  lemma PassedWalk()
    ensures var w := PassedWorld();
            && Walked(w) && FormWalk.Visited(w, 0) && w.entry == Some(NOTHING)
            && w.r.sent == [PART1, PART2] && |w.r.ds| == 2 && w.r.ds[0].my == 1
  {
    StartsWell();
    SentIs();
    LateWalk();
    FirstReceived();
    hide FormWalk.Exec, Walked, Start, GoodStart, Receive, Ring.Shape, LateWorld;
    var w0, a1, a2, a3 := Unseen(TwoDaemons(), 0), Old(Ring.TokenVisit(PLAIN)), Form(0, true, [0]),
        Old(Ring.Arrive(0, 1));
    assert Ring.Shape(w0.r) by { StartShape(TwoDaemons()); }
    LateStep();
    ExecMore(w0, a1, [a2] + [a3]);
    ExecMore(Sent(), a2, [a3]);
    ExecOne(LateWorld(), a3);
    WalkedBy([a1] + ([a2] + [a3]));
  }

  lemma LateStep()
    ensures LateWorld() == FormWalk.Step(Sent(), Form(0, true, [0]))
  {
    hide Sent, FormWalk.Step;
  }

  /** A run from a good start and a form token's walk in which one packet between the two form tokens lifts My_aru
      above the entry's Highest_seq: whatever follows of what the entry knows, the daemon stays in EVS. */
  lemma PassedArrival(lastSeq: nat, evs: seq<Evs.Event>)
    requires lastSeq >= FORM_GAP && EvsRuns.Timely(evs, NOTHING)
    ensures var w := PassedWorld();
            && Walked(w) && FormWalk.Visited(w, 0) && w.entry == Some(NOTHING) && Unfilled(w.r.ds[0], NOTHING)
            && w.r.ds[0].my > NOTHING.highest
            && Evs.Run(Evs.ReadForm2(w.r.ds[0], NOTHING), NOTHING, lastSeq, w.r.sent, evs).Recovering?
  {
    hide Walked, PassedWorld, EvsRuns.Form2Ok, EvsRuns.InEvs, Evs.Run, Evs.ReadForm2, EvsRuns.Timely;
    PassedWalk();
    var w := PassedWorld();
    Form2Holds(w, 0);
    EvsRuns.PassedNeverCommits(w.r.ds[0], w.r.sent, NOTHING, lastSeq, evs);
  }

  /** Both daemons come, before any packet reached daemon 0. */
  function BothWorld(): World {
    FormWalk.Step(FormWalk.Step(Sent(), Form(1, true, STALE)), Form(0, false, STALE))
  }

  lemma BothWalk()
    ensures var w := BothWorld();
            && Walked(w) && FormWalk.Visited(w, 0) && FormWalk.Visited(w, 1) && |w.r.ds| == 2
            && w.r.sent == [PART1, PART2] && w.r.ds[0] == NewDaemon(0, []) && w.snaps == [w.r.ds[1], w.r.ds[0]]
  {
    StartsWell();
    SentIs();
    hide FormWalk.Exec, Walked, Start, GoodStart, Visit, Ring.Shape;
    var w0, a1, a2, a3 := Unseen(TwoDaemons(), 0), Old(Ring.TokenVisit(PLAIN)), Form(1, true, STALE),
        Form(0, false, STALE);
    assert Ring.Shape(w0.r) by { StartShape(TwoDaemons()); }
    ExecMore(w0, a1, [a2] + [a3]);
    ExecMore(Sent(), a2, [a3]);
    var w2 := FormWalk.Step(Sent(), a2);
    ExecOne(w2, a3);
    WalkedBy([a1] + [a2]);
    ExecMore(w0, a1, [a2]);
    ExecOne(Sent(), a2);
    WalkedInv(w2);
    assert w2.r == Sent().r;
    NamedByPlace(w2, 1);
    WalkedBy([a1] + ([a2] + [a3]));
    assert !FormWalk.Visited(Sent(), 1);
    assert w2.snaps == [w2.r.ds[1]];
    assert !FormWalk.Visited(w2, 0);
    var w := BothWorld();
    assert w.snaps[0].me == 1 && w.snaps[1].me == 0;
  }

  lemma NamedByPlace(w: World, j: nat)
    requires FormWalk.Inv(w) && j < |w.r.ds|
    ensures w.r.ds[j].me == j
  {
    RunningLocal(w.r, j);
  }

  /** What of the entry matters. */
  lemma BothEntry(w: World)
    requires Walked(w) && |w.r.ds| == 2 && w.r.sent == [PART1, PART2]
    requires w.r.ds[0] == NewDaemon(0, []) && w.snaps == [w.r.ds[1], w.r.ds[0]] && FormWalk.Visited(w, 0)
    ensures w.entry.Some? && Ring.Shape(w.r)
    ensures var e := w.entry.value;
            && 1 !in e.holes && e.highest >= 1 && w.r.ds[1].my <= e.highest
            && Unfilled(w.r.ds[0], e) && Unfilled(w.r.ds[1], e)
            && w.r.ds[1].me == 1 && -1 <= w.r.ds[1].setAru <= w.r.ds[1].my
  {
    WalkedOwn(w);
    WalkedInv(w);
    hide Walked;
    EntryFacts(w, 0);
    NamedByPlace(w, 1);
    RunningLocal(w.r, 1);
    RunningSetAru(w.r, 1);
    var e := w.entry.value;
    assert OwnHeld(w.r.ds[1], w.r.sent) && w.r.sent[0].sender == 1;
    assert Has(w.snaps[0], 1);
    assert w.snaps[0].hi <= e.highest;
    hide Running;
    forall h | h in e.holes
      ensures h != 1 && h !in w.r.ds[0].store && h !in w.r.ds[1].store
    {
      HolesAbove(w, h);
      assert !Has(w.snaps[0], h) && !Has(w.snaps[1], h);
    }
  }

  lemma RunningSetAru(r: Ring.State, j: nat)
    requires Running(r) && j < |r.ds|
    ensures -1 <= r.ds[j].setAru <= r.ds[j].my
  {
    if Start(r) {
      assert Entered(r.ds[j], j);
    } else {
      var v := Ring.Views(r.ds);
      assert -1 <= v[j].setAru <= v[j].my;
    }
  }

  /** Both daemons in EVS, and the first regular token. */
  function BothMembers(w: World, lastSeq: nat, id: int): EvsRing.State
    requires w.entry.Some? && |w.r.ds| == 2
  {
    var e := w.entry.value;
    var m0, m1 := Evs.ReadForm2(w.r.ds[0], e), Evs.ReadForm2(w.r.ds[1], e);
    EvsRing.State.State([EvsRing.Member(m0, w.r.sent, e), EvsRing.Member(m1, w.r.sent, e)],
                        Token(lastSeq, id, 0, 0, []), 0, false)
  }

  /** Daemon 0 misses the first packet. */
  lemma RestsAtZero(d: Daemon.State, e: Entry, lastSeq: nat)
    requires EvsRuns.Form2Ok(d, [PART1, PART2], e) && d == NewDaemon(0, []) && 1 !in e.holes && e.highest >= 1 &&
             lastSeq > 2
    ensures EvsRing.RestsAt(Evs.ReadForm2(d, e), 0, lastSeq)
  {
    EvsRuns.ReadForm2Keeps(d, [PART1, PART2], e, lastSeq);
    hide Evs.ReadForm2, EvsRuns.InEvs;
    assert 1 !in Evs.ReadForm2(d, e).store;
  }

  /** A run from a good start and a form token's walk over all daemons, after which one daemon can go over to the next
      ring while the other one still misses packets that the first one has. */
  lemma BarrierBroken(lastSeq: nat, id: int)
    requires BothWorld().seqNo <= lastSeq
    ensures var w := BothWorld();
            && Walked(w) && FormWalk.Visited(w, 0) && FormWalk.Visited(w, 1) && |w.r.ds| == 2 && w.entry.Some?
            && EvsRing.Starts(BothMembers(w, lastSeq, id), lastSeq)
            && exists run :: EvsRing.Timely(BothMembers(w, lastSeq, id), run) &&
                             !EvsRing.Safe(EvsRing.Exec(BothMembers(w, lastSeq, id), run, lastSeq), lastSeq)
  {
    hide Walked, BothWorld, EvsRuns.Form2Ok, EvsRuns.InEvs, Evs.ReadForm2, EvsRing.RestsAt, EvsRing.Ahead;
    hide EvsRing.MemberStarts, EvsRing.Timely, EvsRing.Safe, EvsRing.Exec;
    BothWalk();
    var w := BothWorld();
    BothEntry(w);
    Form2Holds(w, 0);
    Form2Holds(w, 1);
    WalkedNumber(w, 0);
    var e := w.entry.value;
    EvsRing.FromForm2(w.r.ds[0], w.r.sent, e, 0, lastSeq);
    EvsRing.FromForm2(w.r.ds[1], w.r.sent, e, 1, lastSeq);
    var s := BothMembers(w, lastSeq, id);
    assert EvsRing.Starts(s, lastSeq);
    RestsAtZero(w.r.ds[0], e, lastSeq);
    NotGood(s, lastSeq);
    EvsRing.BarrierIff(s, lastSeq);
  }

  lemma NotGood(s: EvsRing.State, lastSeq: nat)
    requires |s.ms| == 2 && EvsRing.RestsAt(s.ms[0].d, 0, lastSeq)
    ensures !EvsBarrier.Good(EvsRing.Seen(s, lastSeq))
  {
    assert EvsBarrier.CanRest(EvsRing.Seen(s, lastSeq), 0, 0);
  }
}
