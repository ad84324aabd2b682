/** What the ring does for those who miss something or wait: every missing packet is requested, every request can be
    answered, overtaking packets go up at once, and a visit sends as much as the windows leave. */
module RingService {
  import opened Packets
  import opened Daemon
  import opened DaemonInv
  import opened Ring
  import opened RingInv
  import opened RingSafety
  import opened RingTheorems
  import AruRule
  import Burst
  import Form1
  import Protocol
  import Recovery

  // Requests.

  lemma Visit1Asks(r: Ring.State, c: Choice, s: nat)
    requires Rest(r) && RuleOk(r)
    ensures var v := Visit1(r.ds[r.next], r.t, c);
            s in v.t.rtr <==> c.room > 1 && v.d.my < s <= v.d.hi && s !in v.d.store && s - v.d.my <= c.room
  {
    hide LogOk, StoreOk, InSequence, Numbered, Fed, Sent, SentMy, Ruled, NewPackets, SendCount;
    assert DaemonOk(r, r.next);
    SendingKeeps(r);
    SendingMy(r);
    assert !BadRequest(r.ds[r.next], r.t, c);
    Visit1Is(r, c);
    MissingIs(Sent(r).store, SentMy(r) + 1, Sent(r).hi, c.room, s);
  }

  /** Discarding and handing up leave what is above Aru where it is. */
  lemma Visit2Above(d: Daemon.State, counted: nat, s: nat)
    requires s > d.aru && !Visit2(d, counted).exited
    ensures s in Visit2(d, counted).store <==> s in d.store
  {
    hide DeliverAgreed, DeliverSingles, DiscardLoop;
    DiscardAbove(d, d.hi);
    var e := Discard(d);
    AgreedKeys(e);
    var f := DeliverAgreed(e);
    var start := f.hi - counted + 1;
    SinglesKeys(f, if start <= f.delivered then f.delivered + 1 else start, start + counted - 1);
    assert s in e.store.Keys <==> s in Visit2(d, counted).store.Keys;
  }

  lemma RuleOfRunning(r: Ring.State)
    requires Running(r)
    ensures Rest(r) && RuleOk(r)
  {
    RunningRest(r);
    hide Rest;
    if Start(r) {
      FirstRuleOk(r);
    } else {
      RuleFromInv(r);
    }
  }

  /** What is left on the token after a visit are requests for exactly the packets that the visited daemon still
      misses, among the first c.room numbers after its My_aru. */
  lemma RequestsIff(r: Ring.State, c: Choice, s: nat)
    requires Reachable(r)
    ensures Shape(r)
    ensures var r' := Step(r, TokenVisit(c));
            var d' := r'.ds[r.next];
            s in r'.t.rtr <==> c.room > 1 && d'.my < s <= d'.hi && s !in d'.store && s - d'.my <= c.room
  {
    ReachableRuns(r);
    RuleOfRunning(r);
    RestShape(r);
    hide Reachable, Running, Rest, RuleOk, Visit1, Visit2, Core, Fed, Local, Sent, SentMy, Ruled, NewPackets;
    Visit1Keeps(r, c);
    VisitKeeps(r, c);
    VisitStep(r, c);
    var v := Visit1(r.ds[r.next], r.t, c);
    Visit1Asks(r, c, s);
    Visit2Hi(r, c);
    if s > v.d.aru {
      Visit2Above(v.d, v.counted, s);
    }
  }

  lemma Visit2Hi(r: Ring.State, c: Choice)
    requires Rest(r) && RuleOk(r)
    ensures var v := Visit1(r.ds[r.next], r.t, c);
            var d' := Visit(r.ds[r.next], r.t, c).d;
            SameRest(v.d, d') && v.d.aru <= v.d.my && Core(v.d, r.sent + NewPackets(r), v.d.discarded, v.d.delivered)
  {
    RestShape(r);
    hide Rest, RuleOk, Visit1, Visit2, Core, Fed, Local, Sent, SentMy, Ruled, NewPackets;
    Visit1Keeps(r, c);
    var v := Visit1(r.ds[r.next], r.t, c);
    Visit2Keeps(v.d, r.sent + NewPackets(r), v.counted);
  }

  lemma {:induction false} RunOwn(r: Ring.State, run: seq<Action>)
    requires Running(r) && Recovery.AllOwn(r)
    ensures Shape(r) && Recovery.AllOwn(Exec(r, run))
    decreases |run|
  {
    hide Running, Recovery.AllOwn, Step;
    assert Shape(r) by { RunningShape(r); }
    if run != [] {
      Recovery.StepOwn(r, run[0]);
      StepKeepsRunning(r, run[0]);
      RunOwn(Step(r, run[0]), run[1..]);
    }
  }

  lemma RunningShape(r: Ring.State)
    requires Running(r)
    ensures Shape(r)
  {
  }

  /** Every request on the token is for a packet of the ring that its maker still has. */
  lemma RequestsAnswered(r: Ring.State, s: nat)
    requires Reachable(r) && s in r.t.rtr
    ensures 1 <= s <= |r.sent|
    ensures var x := r.sent[s - 1].sender;
            x < |r.ds| && s in r.ds[x].store && !r.ds[x].store[s].Hole? && r.ds[x].store[s].p == r.sent[s - 1]
  {
    var start, run :| Start(start) && GoodStart(start) && r == Exec(start, run);
    ReachableRuns(r);
    StartOwn(start);
    RunOwn(start, run);
    RestNext(r);
    ReachableDaemon(r, r.next);
    assert 1 <= s <= |r.sent|;
    ArrayFits(r, r.next, s);
    var x := r.sent[s - 1].sender;
    ReachableDaemon(r, x);
    assert Recovery.OwnHeld(r.ds[x], r.sent);
    hide Reachable, Running, Start, GoodStart, LogOk, Fed, InSequence;
    assert Form1.Has(r.ds[x], s);
  }

  lemma {:induction false} AnswersAre(store: Store, rtr: seq<nat>, p: Packet)
    ensures p in Answers(store, rtr) <==> exists s :: s in rtr && s in store && !store[s].Hole? && store[s].p == p
  {
    if rtr != [] {
      var rest, last := rtr[..|rtr| - 1], rtr[|rtr| - 1];
      assert rtr == rest + [last];
      AnswersAre(store, rest, p);
    }
  }

  /** Wherever the token is, the daemon there can look up every request in its array, and answers with exactly the
      packets requested that it has. */
  lemma AnswersExact(r: Ring.State, p: Packet)
    requires Reachable(r)
    ensures Shape(r)
    ensures var d := r.ds[r.next];
            && (forall s | s in r.t.rtr :: Protocol.Within(s, d.discarded) && (s in d.store ==> !d.store[s].Hole?))
            && (p in Answers(d.store, r.t.rtr) <==>
                  1 <= p.seqNo <= |r.sent| && p == r.sent[p.seqNo - 1] && p.seqNo in r.t.rtr && p.seqNo in d.store)
  {
    hide Running, Local, Fed, Answers, DaemonOk, Start, GoodStart;
    ReachableRuns(r);
    RunningRest(r);
    hide Reachable;
    RestDaemon(r, r.next);
    RequestsFit(r);
    StoredAre(r.ds[r.next], r.sent);
    AnswersOf(r.ds[r.next], r.sent, r.t.rtr, p);
  }

  lemma AnswersOf(d: Daemon.State, sent: seq<Packet>, rtr: seq<nat>, p: Packet)
    requires Local(d, sent)
    ensures p in Answers(d.store, rtr) <==>
            1 <= p.seqNo <= |sent| && p == sent[p.seqNo - 1] && p.seqNo in rtr && p.seqNo in d.store
  {
    hide Answers;
    StoredAre(d, sent);
    AnswersAre(d.store, rtr, p);
    hide Local;
  }

  lemma RequestsFit(r: Ring.State)
    requires Shape(r) && DaemonOk(r, r.next)
    ensures Local(r.ds[r.next], r.sent)
    ensures forall s | s in r.t.rtr :: 1 <= s <= |r.sent| && Protocol.Within(s, r.ds[r.next].discarded)
  {
    hide Core, Fed;
  }

  lemma StoredAre(d: Daemon.State, sent: seq<Packet>)
    requires Local(d, sent)
    ensures forall s | s in d.store ::
              1 <= s <= |sent| && !d.store[s].Hole? && d.store[s].p == sent[s - 1] && sent[s - 1].seqNo == s
    ensures d.aru == d.discarded
  {
    hide LogOk, InSequence;
  }

  lemma StartOwn(r: Ring.State)
    requires Start(r)
    ensures Recovery.AllOwn(r)
  {
    forall j: nat | j < |r.ds|
      ensures r.ds[j].me == j && Recovery.OwnHeld(r.ds[j], r.sent)
    {
      assert Entered(r.ds[j], j);
    }
  }

  lemma RestNext(r: Ring.State)
    requires Running(r)
    ensures r.next < |r.ds|
  {
  }

  // Arrivals.

  /** A packet of the ring that arrives is there afterwards, if it was not there and discarded already. */
  lemma ReceiveGets(d: Daemon.State, sent: seq<Packet>, s: nat)
    requires Local(d, sent) && 1 <= s <= |sent|
    ensures Form1.Has(Receive(d, sent[s - 1]), s)
  {
    LocalRuns(d, sent);
    var p := sent[s - 1];
    assert p.seqNo == s;
    assert d.aru == d.discarded;
    hide Local, DeliverAgreed, DeliverSingles, Advance;
    if s > d.aru && s !in d.store {
      var store, hi := d.store[s := Fresh(p)], Max(d.hi, s);
      if s == d.my + 1 {
        var e := d.(store := store, hi := hi, my := Advance(store, d.my, hi));
        AgreedKeys(e);
        assert s in DeliverAgreed(e).store.Keys;
      } else {
        var e := d.(store := store, hi := hi);
        var i := if s <= e.delivered then e.delivered + 1 else s;
        SinglesKeys(e, i, s);
        assert s in DeliverSingles(e, i, s).store.Keys;
      }
    }
  }

  /** A packet that arrives after a gap is handed up at once exactly if it may overtake. */
  lemma OvertakesAtOnce(d: Daemon.State, sent: seq<Packet>, s: nat)
    requires Local(d, sent) && 1 <= s <= |sent| && s != d.my + 1 && s > d.aru && s !in d.store
    ensures Receive(d, sent[s - 1]).log == if Single(sent[s - 1]) then d.log + [sent[s - 1]] else d.log
    ensures Receive(d, sent[s - 1]).store ==
            d.store[s := if Single(sent[s - 1]) then Handed(sent[s - 1]) else Fresh(sent[s - 1])]
  {
    var p := sent[s - 1];
    assert p.seqNo == s && s > d.my >= d.delivered;
    var e := d.(store := d.store[s := Fresh(p)], hi := Max(d.hi, s));
    hide Local, Single, Accepts;
    assert Receive(d, p) == DeliverSingles(e, s, s);
    if Single(p) {
      assert DeliverSingles(e, s, s) == DeliverSingles(Deliver(e, s), s + 1, s) == Deliver(e, s);
    } else {
      assert DeliverSingles(e, s, s) == DeliverSingles(e, s + 1, s) == e;
    }
  }

  /** The overtaking packets of others above My_aru are up. */
  ghost predicate SinglesUp(d: Daemon.State, sent: seq<Packet>) {
    forall s | s in d.store && d.my < s <= |sent| && Single(sent[s - 1]) && sent[s - 1].sender != d.me ::
      Early(d.store, s)
  }

  lemma {:induction false} AgreedAbove(d: Daemon.State, s: nat)
    requires s > d.my
    ensures s in DeliverAgreed(d).store <==> s in d.store
    ensures Early(DeliverAgreed(d).store, s) == Early(d.store, s)
    decreases d.my - d.delivered
  {
    if !d.exited && d.my > d.delivered {
      var i := d.delivered + 1;
      if i in d.store {
        match d.store[i]
        case Fresh(p) => if !p.service.Safe? { AgreedAbove(Deliver(d, i).(delivered := i), s); }
        case Handed(_) => AgreedAbove(d.(delivered := i), s);
        case Hole =>
      }
    }
  }

  lemma {:induction false} SinglesStay(d: Daemon.State, i: nat, end: int, s: nat)
    ensures Early(d.store, s) ==> Early(DeliverSingles(d, i, end).store, s)
    decreases end - i
  {
    if !d.exited && i <= end {
      if i in d.store && d.store[i].Fresh? && Single(d.store[i].p) {
        SinglesStay(Deliver(d, i), i + 1, end, s);
      } else {
        SinglesStay(d, i + 1, end, s);
      }
    }
  }

  /** The loop hands up every overtaking packet of its range. */
  lemma {:induction false} SinglesHanded(d: Daemon.State, i: nat, end: int, s: nat)
    requires i <= s <= end && s in d.store && !d.store[s].Hole? && Single(d.store[s].p)
    requires !DeliverSingles(d, i, end).exited
    ensures Early(DeliverSingles(d, i, end).store, s)
    decreases end - i
  {
    if !d.exited {
      if i in d.store && d.store[i].Fresh? && Single(d.store[i].p) {
        if i < s {
          SinglesHanded(Deliver(d, i), i + 1, end, s);
        } else {
          SinglesStay(Deliver(d, i), i + 1, end, s);
        }
      } else if i < s {
        SinglesHanded(d, i + 1, end, s);
      } else {
        SinglesStay(d, i + 1, end, s);
      }
    }
  }

  lemma {:induction false} DiscardLoopAboveStays(d: Daemon.State, i: nat, s: nat)
    requires s > d.aru
    ensures Early(DiscardLoop(d, i).store, s) == Early(d.store, s)
    decreases d.aru - i
  {
    if !d.exited && i <= d.aru && i in d.store {
      var e := if d.store[i].Fresh? then Deliver(d, i) else d;
      DiscardLoopAboveStays(e.(store := e.store - {i}), i + 1, s);
    }
  }

  lemma NextUp(d: Daemon.State, sent: seq<Packet>, s: nat)
    requires Local(d, sent) && SinglesUp(d, sent) && s == d.my + 1 <= |sent| && s !in d.store
    ensures var store, hi := d.store[s := Fresh(sent[s - 1])], Max(d.hi, s);
            SinglesUp(DeliverAgreed(d.(store := store, hi := hi, my := Advance(store, d.my, hi))), sent)
  {
    hide Single, DeliverAgreed, Advance, Local;
    var store, hi := d.store[s := Fresh(sent[s - 1])], Max(d.hi, s);
    var e := d.(store := store, hi := hi, my := Advance(store, d.my, hi));
    assert e.my >= s by { LocalRuns(d, sent); ReceiveNext(d, sent, s); AgreedMy(e); }
    AgreedMy(e);
    forall t | t in DeliverAgreed(e).store && e.my < t <= |sent| && Single(sent[t - 1]) && sent[t - 1].sender != d.me
      ensures Early(DeliverAgreed(e).store, t)
    {
      AgreedAbove(e, t);
      assert Early(d.store, t);
    }
  }

  lemma ReceiveUp(d: Daemon.State, sent: seq<Packet>, s: nat)
    requires Local(d, sent) && SinglesUp(d, sent) && 1 <= s <= |sent|
    ensures SinglesUp(Receive(d, sent[s - 1]), sent)
  {
    LocalRuns(d, sent);
    assert sent[s - 1].seqNo == s;
    hide Single, Local, DeliverAgreed, DeliverSingles, Advance;
    if s > d.aru && s !in d.store {
      if s == d.my + 1 {
        NextUp(d, sent, s);
      } else {
        OvertakesAtOnce(d, sent, s);
        var e := d.(store := d.store[s := Fresh(sent[s - 1])], hi := Max(d.hi, s));
        SinglesSame(e, if s <= e.delivered then e.delivered + 1 else s, s);
      }
    }
  }

  lemma {:induction false} SinglesSame(d: Daemon.State, i: nat, end: int)
    ensures DeliverSingles(d, i, end).my == d.my && DeliverSingles(d, i, end).me == d.me
    decreases end - i
  {
    if !d.exited && i <= end {
      if i in d.store && d.store[i].Fresh? && Single(d.store[i].p) {
        SinglesSame(Deliver(d, i), i + 1, end);
      } else {
        SinglesSame(d, i + 1, end);
      }
    }
  }

  lemma {:induction false} AgreedMy(d: Daemon.State)
    ensures DeliverAgreed(d).my == d.my && DeliverAgreed(d).me == d.me
    decreases d.my - d.delivered
  {
    if !d.exited && d.my > d.delivered {
      var i := d.delivered + 1;
      if i in d.store {
        match d.store[i]
        case Fresh(p) => if !p.service.Safe? { AgreedMy(Deliver(d, i).(delivered := i)); }
        case Handed(_) => AgreedMy(d.(delivered := i));
        case Hole =>
      }
    }
  }

  lemma Visit2Stays(d: Daemon.State, counted: nat, s: nat)
    requires s > d.aru && s > d.my
    ensures Early(d.store, s) ==> Early(Visit2(d, counted).store, s)
  {
    hide DeliverAgreed, DeliverSingles, DiscardLoop, Early;
    DiscardLoopAboveStays(d, d.discarded + 1, s);
    DiscardMy(d);
    var e := Discard(d);
    AgreedAbove(e, s);
    var f := DeliverAgreed(e);
    var start := f.hi - counted + 1;
    SinglesStay(f, if start <= f.delivered then f.delivered + 1 else start, start + counted - 1, s);
  }

  lemma {:induction false} DiscardLoopMy(d: Daemon.State, i: nat)
    ensures DiscardLoop(d, i).my == d.my
    decreases d.aru - i
  {
    if !d.exited && i <= d.aru && i in d.store {
      var e := if d.store[i].Fresh? then Deliver(d, i) else d;
      DiscardLoopMy(e.(store := e.store - {i}), i + 1);
    }
  }

  lemma DiscardMy(d: Daemon.State)
    ensures Discard(d).my == d.my
  {
    DiscardLoopMy(d, d.discarded + 1);
  }

  lemma {:induction false} SendManySlots(d: Daemon.State, n: nat, s: nat)
    requires n <= |Lengths(d.down)| && s in d.store
    ensures s in SendMany(d, n).store && SendMany(d, n).store[s] == d.store[s]
    decreases n
  {
    if n > 0 && !d.exited {
      SendManySlots(SendOne(d), n - 1, s);
    }
  }

  lemma MadeAbove(sent: seq<Packet>, made: seq<Packet>, x: nat, s: nat)
    requires forall i | 0 <= i < |made| :: made[i].sender == x
    ensures |sent| < s <= |sent + made| ==> (sent + made)[s - 1].sender == x
  {
  }

  /** The visited daemon: of the packets there, those above the ring's highest number so far are its own. */
  lemma SentUp(r: Ring.State)
    requires Rest(r) && SinglesUp(r.ds[r.next], r.sent)
    ensures SinglesUp(Sent(r).(my := SentMy(r)), r.sent + NewPackets(r))
  {
    hide Fed, Made, LogOk, InSequence, SendMany, BurstOf, Single;
    assert DaemonOk(r, r.next);
    SendingKeeps(r);
    SendingBounds(r);
    SendingMy(r);
    var d, d1, all := r.ds[r.next], Sent(r), r.sent + NewPackets(r);
    forall s | s in d1.store && SentMy(r) < s <= |all| && Single(all[s - 1]) && all[s - 1].sender != d1.me
      ensures Early(d1.store, s)
    {
      MadeAbove(r.sent, NewPackets(r), r.next, s);
      assert s in d.store && all[s - 1] == r.sent[s - 1];
      SendManySlots(Raised(d, r.t), SendCount(r).0, s);
      assert Early(d.store, s);
    }
  }

  lemma VisitUp(r: Ring.State, c: Choice)
    requires Rest(r) && RuleOk(r) && SinglesUp(r.ds[r.next], r.sent)
    ensures SinglesUp(Visit(r.ds[r.next], r.t, c).d, r.sent + NewPackets(r))
  {
    RestShape(r);
    hide Visit1, Visit2, Core, Fed, Rest, RuleOk, Sent, SentMy, NewPackets, Ruled, Single;
    SentUp(r);
    Visit1Keeps(r, c);
    Visit2Hi(r, c);
    Recovery.Visit1Store(r, c);
    Visit1My(r, c);
    var v, all := Visit1(r.ds[r.next], r.t, c), r.sent + NewPackets(r);
    var e := Visit2(v.d, v.counted);
    forall s | s in e.store && e.my < s <= |all| && Single(all[s - 1]) && all[s - 1].sender != e.me
      ensures Early(e.store, s)
    {
      assert s in v.d.store.Keys;
      assert Early(v.d.store, s);
      Visit2Stays(v.d, v.counted, s);
    }
  }

  lemma Visit1My(r: Ring.State, c: Choice)
    requires Rest(r) && RuleOk(r)
    ensures Visit1(r.ds[r.next], r.t, c).d.my == SentMy(r) && Sent(r).me == r.next
  {
    hide Core, Fed, Visit1, Sent, SentMy, NewPackets;
    assert DaemonOk(r, r.next);
    Visit1Keeps(r, c);
    SendingKeeps(r);
  }

  ghost predicate AllUp(r: Ring.State) {
    forall j: nat | j < |r.ds| :: SinglesUp(r.ds[j], r.sent)
  }

  lemma UpGrows(d: Daemon.State, sent: seq<Packet>, made: seq<Packet>)
    requires Local(d, sent) && SinglesUp(d, sent)
    ensures SinglesUp(d, sent + made)
  {
    hide LogOk, InSequence, Single;
    forall s | s in d.store && d.my < s <= |sent + made| && Single((sent + made)[s - 1]) &&
               (sent + made)[s - 1].sender != d.me
      ensures Early(d.store, s)
    {
      assert (sent + made)[s - 1] == sent[s - 1];
    }
  }

  lemma StepUp(r: Ring.State, a: Action)
    requires Running(r) && AllUp(r)
    ensures Shape(r) && AllUp(Step(r, a))
  {
    RuleOfRunning(r);
    RestShape(r);
    hide Rest, RuleOk, Running, Receive, Visit, Local, Fed, NewPackets, SinglesUp;
    match a
    case Post(who, m) =>
      if who < |r.ds| && MessageOk(m) && !r.ds[who].exited {
        assert SinglesUp(r.ds[who], r.sent);
        PostUp(r.ds[who], m, r.sent);
      }
    case Arrive(who, s) =>
      if who < |r.ds| && 1 <= s <= |r.sent| {
        RestDaemon(r, who);
        ReceiveUp(r.ds[who], r.sent, s);
      }
    case TokenVisit(c) =>
      VisitKeeps(r, c);
      VisitStep(r, c);
      VisitUp(r, c);
      forall j: nat | j < |r.ds| && j != r.next
        ensures SinglesUp(r.ds[j], r.sent + NewPackets(r))
      {
        RestDaemon(r, j);
        UpGrows(r.ds[j], r.sent, NewPackets(r));
      }
  }

  lemma PostUp(d: Daemon.State, m: Message, sent: seq<Packet>)
    requires SinglesUp(d, sent) && MessageOk(m)
    ensures SinglesUp(Daemon.Post(d, m), sent)
  {
  }

  lemma {:induction false} RunUp(r: Ring.State, run: seq<Action>)
    requires Running(r) && AllUp(r)
    ensures Shape(r) && AllUp(Exec(r, run))
    decreases |run|
  {
    hide Running, AllUp, Step;
    assert Shape(r) by { RunningShape(r); }
    if run != [] {
      StepUp(r, run[0]);
      StepKeepsRunning(r, run[0]);
      RunUp(Step(r, run[0]), run[1..]);
    }
  }

  lemma SeqsLogged(d: Daemon.State, sent: seq<Packet>, s: nat)
    requires Local(d, sent) && (1 <= s <= d.delivered || (s > d.delivered && Early(d.store, s)))
    ensures Logged(d.log, s)
  {
    OnceMeans(d.log);
    hide Logged, Seqs, Ord, Once;
    assert s in Seqs(d.log);
  }

  /** Every overtaking packet of another daemon that lies above a gap has been handed up. */
  lemma OvertakingIsPrompt(r: Ring.State, j: nat, s: nat)
    requires Reachable(r) && j < |r.ds| && s in r.ds[j].store && r.ds[j].my < s
    ensures s <= |r.sent|
    ensures Single(r.sent[s - 1]) && r.sent[s - 1].sender != j ==> r.ds[j].store[s].Handed? && Logged(r.ds[j].log, s)
  {
    var start, run :| Start(start) && GoodStart(start) && r == Exec(start, run);
    forall i: nat | i < |start.ds|
      ensures SinglesUp(start.ds[i], start.sent)
    {
      assert Entered(start.ds[i], i);
    }
    RunUp(start, run);
    ReachableDaemon(r, j);
    assert SinglesUp(r.ds[j], r.sent);
    hide Reachable, Start, GoodStart, Exec, LogOk, Fed, InSequence, Single;
    if Single(r.sent[s - 1]) && r.sent[s - 1].sender != j {
      SeqsLogged(r.ds[j], r.sent, s);
    }
  }

  lemma {:induction false} SinglesDelivered(d: Daemon.State, i: nat, end: int)
    ensures DeliverSingles(d, i, end).delivered == d.delivered
    decreases end - i
  {
    if !d.exited && i <= end {
      if i in d.store && d.store[i].Fresh? && Single(d.store[i].p) {
        SinglesDelivered(Deliver(d, i), i + 1, end);
      } else {
        SinglesDelivered(d, i + 1, end);
      }
    }
  }

  lemma Stored(d: Daemon.State, sent: seq<Packet>, lo: nat, s: nat)
    requires Core(d, sent, lo, d.delivered) && s in d.store
    ensures 1 <= s <= |sent| && !d.store[s].Hole? && d.store[s].p == sent[s - 1] && !d.exited
  {
    hide LogOk, InSequence;
  }

  lemma Visit2Is(d: Daemon.State, counted: nat)
    requires !d.exited
    ensures var f := DeliverAgreed(Discard(d));
            var start := f.hi - counted + 1;
            Visit2(d, counted) ==
            DeliverSingles(f, if start <= f.delivered then f.delivered + 1 else start, start + counted - 1)
  {
  }

  lemma Visit2HandsUp(d: Daemon.State, sent: seq<Packet>, counted: nat, s: nat)
    requires Core(d, sent, d.discarded, d.delivered) && d.discarded <= d.aru <= d.my && d.my + 1 !in d.store
    requires s in d.store && d.hi - counted < s <= d.hi && 1 <= s <= |sent| && Single(sent[s - 1])
    ensures Logged(Visit2(d, counted).log, s)
  {
    hide Core, Local, Single, DeliverAgreed, DeliverSingles, Discard, Logged, Visit2;
    Stored(d, sent, d.discarded, s);
    Visit2Keeps(d, sent, counted);
    Visit2Is(d, counted);
    DiscardKeeps(d, sent);
    DiscardAbove(d, d.hi);
    var e := Discard(d);
    DeliverAgreedKeeps(e, sent, e.discarded);
    AgreedKeys(e);
    var f := DeliverAgreed(e);
    var start := f.hi - counted + 1;
    var i := if start <= f.delivered then f.delivered + 1 else start;
    SinglesDelivered(f, i, start + counted - 1);
    LocalRuns(Visit2(d, counted), sent);
    if s > f.delivered {
      DiscardedUp(f, sent);
      assert s in e.store.Keys && s in f.store;
      Stored(f, sent, f.discarded, s);
      SinglesHanded(f, i, start + counted - 1, s);
    }
    SeqsLogged(Visit2(d, counted), sent, s);
  }

  lemma DiscardedUp(d: Daemon.State, sent: seq<Packet>)
    requires Core(d, sent, d.discarded, d.delivered)
    ensures d.discarded <= d.delivered
  {
  }

  /** The overtaking packets among the last numbers of a visit, as many as it counts datagrams, are handed up by the
      daemon that made them before the visit ends. */
  lemma OwnOvertake(r: Ring.State, c: Choice, s: nat)
    requires Reachable(r)
    ensures Shape(r)
    ensures var r' := Step(r, TokenVisit(c));
            1 <= s && |r'.sent| - SendCount(r).1 < s <= |r'.sent| && Single(r'.sent[s - 1]) ==>
              Logged(r'.ds[r.next].log, s)
  {
    ReachableRuns(r);
    RuleOfRunning(r);
    RestShape(r);
    hide Reachable, Running, Rest, RuleOk, Visit1, Visit2, Core, Fed, Local, Sent, SentMy, Ruled, NewPackets, SendCount;
    hide Single, Logged;
    Visit1Keeps(r, c);
    VisitKeeps(r, c);
    VisitStep(r, c);
    SendingKeeps(r);
    SendingBounds(r);
    Recovery.Visit1Store(r, c);
    Visit1Count(r, c);
    var v, all := Visit1(r.ds[r.next], r.t, c), r.sent + NewPackets(r);
    if 1 <= s && |all| - SendCount(r).1 < s <= |all| && Single(all[s - 1]) {
      Visit2HandsUp(v.d, all, v.counted, s);
    }
  }

  lemma Visit1Count(r: Ring.State, c: Choice)
    requires Rest(r) && RuleOk(r)
    ensures Visit1(r.ds[r.next], r.t, c).counted == SendCount(r).1
  {
    hide LogOk, StoreOk, InSequence, Numbered, Fed, SentMy, Ruled, Made, BurstOf, SendMany;
    assert DaemonOk(r, r.next);
    SendingKeeps(r);
    assert !BadRequest(r.ds[r.next], r.t, c);
  }

  // Flow control.

  lemma {:induction false} AllSent(d: Daemon.State, n: nat)
    requires n == |Lengths(d.down)| && !SendMany(d, n).exited
    ensures SendMany(d, n).down.msgs == []
    decreases n
  {
    if n > 0 {
      AllSent(SendOne(d), n - 1);
    }
  }

  /** What a visit sends: nothing when the token counts a full window or Aru is too far behind; never so much that the
      windows are passed by more than one datagram; and otherwise all that waits, until a window is used up. */
  lemma WindowsKept(r: Ring.State, c: Choice)
    requires Reachable(r)
    ensures Shape(r)
    ensures var r' := Step(r, TokenVisit(c));
            var d, made, counted := r.ds[r.next], |r'.sent| - |r.sent|, SendCount(r).1;
            && made >= 0
            && (made > 0 ==> |r.sent| <= d.aru + Burst.MAX_SEQ_GAP && r.t.fc < Burst.WINDOW + Burst.PERSONAL_WINDOW)
            && (made > 0 ==> r.t.fc + counted <= Burst.WINDOW + Burst.PERSONAL_WINDOW + 1)
            && counted <= Burst.PERSONAL_WINDOW + 1 && counted <= made <= Burst.PER_DATAGRAM * counted
            && (r'.ds[r.next].down.msgs != [] && |r.sent| <= d.aru + Burst.MAX_SEQ_GAP ==>
                  counted >= Burst.PERSONAL_WINDOW || r.t.fc + counted >= Burst.WINDOW + Burst.PERSONAL_WINDOW)
  {
    ReachableRuns(r);
    RuleOfRunning(r);
    RestShape(r);
    hide Reachable, Running, Rest, RuleOk, Visit, Core, Fed, Local, Sent, SentMy, Ruled, NewPackets;
    VisitKeeps(r, c);
    VisitStep(r, c);
    SendingKeeps(r);
    VisitDown(r, c);
    RestDaemon(r, r.next);
    LocalRuns(r.ds[r.next], r.sent);
    var d := r.ds[r.next];
    var d0 := Raised(d, r.t);
    var allowed := Burst.Allowed(r.t.fc, d0.hi, d0.aru);
    Burst.AllowedIs(r.t.fc, d0.hi, d0.aru);
    Burst.VisitBound(Lengths(d.down), allowed);
    Burst.TakeAll(Lengths(d.down), allowed, Burst.EMPTY, 0);
    hide Burst.Take, Lengths, Burst.Allowed;
    assert d0.hi == |r.sent| by { RestSeq(r); }
  }

  lemma RestSeq(r: Ring.State)
    requires Rest(r)
    ensures r.t.seqNo == |r.sent|
  {
  }

  /** What still waits after a visit. */
  lemma VisitDown(r: Ring.State, c: Choice)
    requires Rest(r) && RuleOk(r)
    ensures Visit(r.ds[r.next], r.t, c).d.down.msgs != [] ==> SendCount(r).0 < |Lengths(r.ds[r.next].down)|
  {
    RestShape(r);
    hide Rest, RuleOk, Visit1, Visit2, Core, Fed, Local, SentMy, Ruled, NewPackets, SendMany, Lengths, BurstOf;
    Visit2Hi(r, c);
    SendingKeeps(r);
    SendingBounds(r);
    Visit1Down(r, c);
    CoreRuns(Sent(r), r.sent + NewPackets(r), r.ds[r.next].discarded, r.ds[r.next].delivered);
    if SendCount(r).0 == |Lengths(r.ds[r.next].down)| {
      AllSent(Raised(r.ds[r.next], r.t), SendCount(r).0);
    }
  }

  lemma Visit1Down(r: Ring.State, c: Choice)
    requires Rest(r) && RuleOk(r)
    ensures Visit1(r.ds[r.next], r.t, c).d.down == Sent(r).down
  {
    hide LogOk, StoreOk, InSequence, Numbered, Fed, SentMy, Ruled, Sent, NewPackets, SendCount, Visit1;
    assert DaemonOk(r, r.next);
    SendingKeeps(r);
    SendingMy(r);
    assert !BadRequest(r.ds[r.next], r.t, c);
    Visit1Is(r, c);
  }
}
