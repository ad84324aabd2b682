/** That the ring gets on: packets that everybody has become stable, are handed up everywhere and dropped. */
module RingProgress {
  import opened Packets
  import opened Daemon
  import opened DaemonInv
  import opened Ring
  import opened RingInv
  import opened RingSafety
  import opened RingTheorems
  import AruRule
  import RingDefect

  /** Everybody has every packet. */
  ghost predicate Caught(v: seq<AruRule.View>, m: AruRule.Mark) {
    forall j | 0 <= j < |v| :: v[j].my == v[j].hi == m.seqNo
  }

  /** The rule at the next visit when nothing is sent. */
  function Turn(v: seq<AruRule.View>, m: AruRule.Mark, next: nat): (r: (seq<AruRule.View>, AruRule.Mark))
    requires next < |v|
    ensures |r.0| == |v|
  {
    var (w, m') := AruRule.VisitView(v[next], m, next, m.seqNo, m.seqNo);
    (v[next := w], m')
  }

  function Turns(v: seq<AruRule.View>, m: AruRule.Mark, next: nat, k: nat): (r: (seq<AruRule.View>, AruRule.Mark))
    requires next < |v|
    ensures |r.0| == |v|
    decreases k
  {
    if k == 0 then (v, m) else
      var (v', m') := Turn(v, m, next);
      Turns(v', m', AruRule.Next(next, |v|), k - 1)
  }

  /** The aru is as high as it can get, and the i daemons visited last let it go so. */
  ghost predicate Let(v: seq<AruRule.View>, m: AruRule.Mark, next: nat, i: nat) {
    && next < |v| && Caught(v, m) && m.aru == m.seqNo
    && forall j | 0 <= j < |v| && AruRule.Rank(j, next, |v|) >= |v| - i :: v[j].last == m.seqNo
  }

  /** Everybody let it go so, and the i daemons visited last computed an Aru that high. */
  ghost predicate Stable(v: seq<AruRule.View>, m: AruRule.Mark, next: nat, i: nat) {
    && Let(v, m, next, |v|)
    && forall j | 0 <= j < |v| && AruRule.Rank(j, next, |v|) >= |v| - i :: v[j].aru == m.seqNo
  }

  lemma RankTurns(v: seq<AruRule.View>, next: nat)
    requires next < |v|
    ensures var n := |v|; var next' := AruRule.Next(next, n);
            && next' < n && AruRule.Rank(next, next', n) == n - 1 && AruRule.Rank(next, next, n) == 0
            && forall j | 0 <= j < n && j != next :: AruRule.Rank(j, next', n) == AruRule.Rank(j, next, n) - 1
  {
  }

  lemma LetTurn(v: seq<AruRule.View>, m: AruRule.Mark, next: nat, i: nat)
    requires Let(v, m, next, i)
    ensures var (v', m') := Turn(v, m, next); Let(v', m', AruRule.Next(next, |v|), i + 1) && m'.seqNo == m.seqNo
  {
    RankTurns(v, next);
    hide AruRule.Rank, AruRule.Next;
  }

  lemma StableTurn(v: seq<AruRule.View>, m: AruRule.Mark, next: nat, i: nat)
    requires Stable(v, m, next, i)
    ensures var (v', m') := Turn(v, m, next); Stable(v', m', AruRule.Next(next, |v|), i + 1) && m'.seqNo == m.seqNo
  {
    RankTurns(v, next);
    hide AruRule.Rank, AruRule.Next;
    assert AruRule.Rank(next, next, |v|) >= |v| - |v|;
  }

  lemma {:induction false} StableTurns(v: seq<AruRule.View>, m: AruRule.Mark, next: nat, i: nat, k: nat)
    requires Stable(v, m, next, i) && i + k >= |v|
    ensures var (v', m') := Turns(v, m, next, k);
            m'.seqNo == m.seqNo && forall j | 0 <= j < |v| :: v'[j].aru == m.seqNo
    decreases k
  {
    if k == 0 {
      forall j | 0 <= j < |v|
        ensures v[j].aru == m.seqNo
      {
        assert AruRule.Rank(j, next, |v|) >= 0;
      }
    } else {
      StableTurn(v, m, next, i);
      var (v', m') := Turn(v, m, next);
      StableTurns(v', m', AruRule.Next(next, |v|), i + 1, k - 1);
    }
  }

  lemma {:induction false} LetTurns(v: seq<AruRule.View>, m: AruRule.Mark, next: nat, i: nat, k: nat)
    requires Let(v, m, next, i) && i <= |v| && k >= |v| - i + |v|
    ensures var (v', m') := Turns(v, m, next, k);
            m'.seqNo == m.seqNo && forall j | 0 <= j < |v| :: v'[j].aru == m.seqNo
    decreases k
  {
    if i == |v| {
      StableStarts(v, m, next);
      StableTurns(v, m, next, 0, k);
    } else {
      LetTurn(v, m, next, i);
      var (v', m') := Turn(v, m, next);
      LetTurns(v', m', AruRule.Next(next, |v|), i + 1, k - 1);
    }
  }

  lemma StableStarts(v: seq<AruRule.View>, m: AruRule.Mark, next: nat)
    requires Let(v, m, next, |v|)
    ensures Stable(v, m, next, 0)
  {
    assert forall j | 0 <= j < |v| :: AruRule.Rank(j, next, |v|) < |v|;
  }

  lemma LetStarts(v: seq<AruRule.View>, m: AruRule.Mark, next: nat)
    requires next < |v| && Caught(v, m) && m.aru == m.seqNo
    ensures Let(v, m, next, 0)
  {
    assert forall j | 0 <= j < |v| :: AruRule.Rank(j, next, |v|) < |v|;
  }

  /** The daemon that set the aru raises it when the token comes round to it, if nobody did before. */
  lemma {:induction false} AllTurns(v: seq<AruRule.View>, m: AruRule.Mark, next: nat, k: nat)
    requires next < |v| && Caught(v, m) && 0 <= m.lastId < |v| && m.aru <= m.seqNo
    requires k >= AruRule.Rank(m.lastId, next, |v|) + 1 + 2 * |v|
    ensures var (v', m') := Turns(v, m, next, k);
            m'.seqNo == m.seqNo && forall j | 0 <= j < |v| :: v'[j].aru == m.seqNo
    decreases k
  {
    if m.aru == m.seqNo {
      LetStarts(v, m, next);
      LetTurns(v, m, next, 0, k);
    } else {
      RankTurns(v, next);
      var (v', m') := Turn(v, m, next);
      var next' := AruRule.Next(next, |v|);
      if m'.aru == m'.seqNo {
        LetStarts(v', m', next');
        LetTurns(v', m', next', 0, k - 1);
      } else {
        AllTurns(v', m', next', k - 1);
      }
    }
  }

  /** The aru was set by a daemon of the ring. */
  predicate Owned(r: Ring.State) {
    0 <= r.t.lastId < |r.ds|
  }

  /** Nothing sent yet, or the invariant and an owner of the aru. */
  ghost predicate Going(r: Ring.State) {
    (Start(r) && GoodStart(r)) || (Inv(r) && Owned(r))
  }

  lemma StepKeepsGoing(r: Ring.State, a: Action)
    requires Going(r)
    ensures Going(Step(r, a))
  {
    if Inv(r) && Owned(r) {
      StepKeepsInv(r, a);
      OwnedStep(r, a);
    } else {
      match a
      case Post(who, m) => PostKeepsStart(r, who, m);
      case Arrive(who, s) =>
      case TokenVisit(c) =>
        FirstVisitKeeps(r, c);
        FirstOwned(r, c);
    }
  }

  lemma OwnedStep(r: Ring.State, a: Action)
    requires Inv(r) && Owned(r)
    ensures Owned(Step(r, a))
  {
    hide Rest, Sent, SentMy, Visit, Receive, AruRule.Inv;
    if a.TokenVisit? {
      RuleFromInv(r);
      VisitKeepsRest(r, a.c);
    }
  }

  lemma FirstOwned(r: Ring.State, c: Choice)
    requires Start(r) && GoodStart(r)
    ensures Owned(Step(r, TokenVisit(c)))
  {
    FirstRuleOk(r);
    StartRest(r);
    assert Entered(r.ds[r.next], r.next);
    hide Rest, Sent, SentMy, Visit, RuleOk;
    VisitKeepsRest(r, c);
  }

  lemma {:induction false} RunKeepsGoing(r: Ring.State, run: seq<Action>)
    requires Going(r)
    ensures Going(Exec(r, run))
    decreases |run|
  {
    hide Going, Step;
    assert Shape(r) by { GoingShape(r); }
    if run != [] {
      StepKeepsGoing(r, run[0]);
      RunKeepsGoing(Step(r, run[0]), run[1..]);
    }
  }

  lemma GoingShape(r: Ring.State)
    requires Going(r)
    ensures Shape(r)
  {
  }

  /** Everybody has every packet and nobody has a message waiting. */
  predicate Calm(r: Ring.State) {
    forall j | 0 <= j < |r.ds| :: r.ds[j].my == |r.sent| && r.ds[j].down.msgs == []
  }

  lemma CalmViews(r: Ring.State)
    requires Rest(r) && Calm(r)
    ensures Caught(Views(r.ds), MarkOf(r.t))
  {
    forall j: nat | j < |r.ds|
      ensures r.ds[j].hi == |r.sent|
    {
      assert DaemonOk(r, j);
      LocalRuns(r.ds[j], r.sent);
    }
  }

  /** With nothing waiting nothing is sent. */
  lemma NothingMade(r: Ring.State)
    requires Rest(r) && r.ds[r.next].down.msgs == []
    ensures NewPackets(r) == []
  {
    hide DaemonOk;
    SendingBounds(r);
    assert Lengths(r.ds[r.next].down) == [];
  }

  lemma CalmDown(r: Ring.State, c: Choice, j: nat)
    requires Rest(r) && RuleOk(r) && Calm(r) && j < |r.ds|
    ensures Step(r, TokenVisit(c)).ds[j].down.msgs == []
  {
    hide Sent, SentMy, Visit, RuleOk, Rebuilt, Chain, Bodies, NewPackets, Ruled, Local;
    RestDaemon(r, j);
    NothingMade(r);
    VisitKeeps(r, c);
    assert r.sent + [] == r.sent;
    LocalRuns(Visit(r.ds[r.next], r.t, c).d, r.sent);
    VisitStep(r, c);
  }

  lemma CalmTurn(r: Ring.State, c: Choice)
    requires Inv(r) && Owned(r) && Calm(r)
    ensures var r' := Step(r, TokenVisit(c));
            && Inv(r') && Owned(r') && Calm(r') && r'.sent == r.sent
            && r'.next == AruRule.Next(r.next, |r.ds|)
            && (Views(r'.ds), MarkOf(r'.t)) == Turn(Views(r.ds), MarkOf(r.t), r.next)
  {
    hide DaemonOk, Sent, SentMy, Visit, NewPackets;
    var r' := Step(r, TokenVisit(c));
    RuleFromInv(r);
    StepKeepsInv(r, TokenVisit(c));
    OwnedStep(r, TokenVisit(c));
    VisitKeepsRest(r, c);
    NothingMade(r);
    SendingMy(r);
    SendingKeeps(r);
    VisitKeeps(r, c);
    assert r.sent + [] == r.sent;
    CalmViews(r);
    forall j | 0 <= j < |r'.ds|
      ensures r'.ds[j].my == |r'.sent| && r'.ds[j].down.msgs == []
    {
      CalmDown(r, c, j);
      ViewsAt(r'.ds, j);
      ViewsAt(r.ds, j);
    }
  }

  function Visits(cs: seq<Choice>): (run: seq<Action>)
    ensures |run| == |cs|
  {
    if cs == [] then [] else [TokenVisit(cs[0])] + Visits(cs[1..])
  }

  lemma {:induction false} CalmTurns(r: Ring.State, cs: seq<Choice>)
    requires Inv(r) && Owned(r) && Calm(r)
    ensures Shape(r)
    ensures var r' := Exec(r, Visits(cs));
            r'.sent == r.sent && (Views(r'.ds), MarkOf(r'.t)) == Turns(Views(r.ds), MarkOf(r.t), r.next, |cs|)
    decreases |cs|
  {
    hide Inv, Owned, Calm, Step, Turn, Views, MarkOf, AruRule.Next;
    InvShape(r);
    if cs != [] {
      CalmTurn(r, cs[0]);
      CalmTurns(Step(r, TokenVisit(cs[0])), cs[1..]);
    }
  }

  lemma InvShape(r: Ring.State)
    requires Inv(r)
    ensures Shape(r)
  {
  }

  lemma ReachableGoing(r: Ring.State)
    requires Reachable(r)
    ensures Going(r) && Shape(r)
  {
    var start, run :| Start(start) && GoodStart(start) && r == Exec(start, run);
    hide Inv, Start, GoodStart;
    RunKeepsGoing(start, run);
  }

  lemma ReachableMore(r: Ring.State, more: seq<Action>)
    requires Reachable(r) && Shape(r)
    ensures Reachable(Exec(r, more))
  {
    var start, run :| Start(start) && GoodStart(start) && r == Exec(start, run);
    RingDefect.ExecConcat(start, run, more);
  }

  lemma MarkLow(r: Ring.State)
    requires Inv(r)
    ensures r.t.aru <= r.t.seqNo && r.next < |r.ds|
  {
  }

  lemma CalmArus(r: Ring.State, cs: seq<Choice>, j: nat)
    requires Inv(r) && Owned(r) && Calm(r) && |cs| >= 3 * |r.ds| && j < |r.ds|
    ensures Shape(r) && Exec(r, Visits(cs)).sent == r.sent && Exec(r, Visits(cs)).ds[j].aru == |r.sent|
  {
    hide DaemonOk, AruRule.Inv, Turns;
    CalmViews(r);
    MarkLow(r);
    CalmTurns(r, cs);
    AllTurns(Views(r.ds), MarkOf(r.t), r.next, |cs|);
    ViewsAt(Exec(r, Visits(cs)).ds, j);
  }

  lemma AllDropped(d: Daemon.State, sent: seq<Packet>)
    requires Local(d, sent) && d.aru == |sent|
    ensures d.discarded == d.delivered == |sent| && d.store == map[]
  {
    hide LogOk;
    assert forall s | s in d.store :: d.discarded < s <= d.hi;
    assert d.store.Keys == {};
  }

  /** When everybody has every packet and nothing waits, the token needs at most three times round: then every
      daemon has handed up every packet, SAFE ones too, and has dropped it. */
  lemma Progress(r: Ring.State, cs: seq<Choice>, j: nat)
    requires Reachable(r) && r.sent != [] && Calm(r) && |cs| >= 3 * |r.ds| && j < |r.ds|
    ensures Shape(r)
    ensures var r' := Exec(r, Visits(cs));
            var d := r'.ds[j];
            && r'.sent == r.sent
            && d.aru == d.discarded == d.delivered == |r.sent| && d.store == map[]
            && forall s: nat | 1 <= s <= |r.sent| :: Logged(d.log, s)
  {
    ReachableGoing(r);
    assert Inv(r) && Owned(r);
    ReachableMore(r, Visits(cs));
    hide Reachable, Inv, Local, Calm, Going;
    CalmArus(r, cs, j);
    var r' := Exec(r, Visits(cs));
    ExactlyOnce(r', j);
    ReachableLocal(r', j);
    AllDropped(r'.ds[j], r'.sent);
  }

  lemma ReachableLocal(r: Ring.State, j: nat)
    requires Reachable(r) && j < |r.ds|
    ensures Local(r.ds[j], r.sent)
  {
    ReachableDaemon(r, j);
  }

  /** What is in order is handed up: only a SAFE packet can be next. */
  ghost predicate Prompt(d: Daemon.State, sent: seq<Packet>) {
    d.delivered < d.my ==> d.delivered < |sent| && sent[d.delivered].service.Safe?
  }

  lemma {:induction false} AgreedPrompt(d: Daemon.State, sent: seq<Packet>, lo: nat)
    requires Core(d, sent, lo, d.delivered)
    ensures Prompt(DeliverAgreed(d), sent)
    decreases d.my - d.delivered
  {
    if d.my > d.delivered {
      var i := d.delivered + 1;
      assert i in d.store && d.store[i].p == sent[i - 1];
      if d.store[i].Handed? {
        PassHanded(d, sent, lo, d.delivered);
        AgreedPrompt(d.(delivered := i), sent, lo);
      } else if !d.store[i].p.service.Safe? {
        DeliverKeeps(d, sent, lo, d.delivered, i, i);
        AgreedPrompt(Deliver(d, i).(delivered := i), sent, lo);
      }
    }
  }

  lemma {:induction false} SinglesCounters(d: Daemon.State, i: nat, end: int)
    ensures var e := DeliverSingles(d, i, end); e.delivered == d.delivered && e.my == d.my
    decreases end - i
  {
    if !d.exited && i <= end {
      if i in d.store && d.store[i].Fresh? && Single(d.store[i].p) {
        SinglesCounters(Deliver(d, i), i + 1, end);
      } else {
        SinglesCounters(d, i + 1, end);
      }
    }
  }

  lemma ReceivePrompt(d: Daemon.State, sent: seq<Packet>, s: nat)
    requires Local(d, sent) && Prompt(d, sent) && 1 <= s <= |sent|
    ensures Prompt(Receive(d, sent[s - 1]), sent)
  {
    LocalRuns(d, sent);
    assert sent[s - 1].seqNo == s;
    hide LogOk, StoreOk, DeliverAgreed, DeliverSingles, Advance, InSequence, Numbered;
    if s > d.aru && s !in d.store {
      var store, hi := d.store[s := Fresh(sent[s - 1])], Max(d.hi, s);
      if s == d.my + 1 {
        var e := d.(store := store, hi := hi, my := Advance(store, d.my, hi));
        InsertKeeps(d, sent, s, hi, Advance(store, d.my, hi));
        AgreedPrompt(e, sent, d.discarded);
      } else {
        var e := d.(store := store, hi := hi);
        SinglesCounters(e, if s <= e.delivered then e.delivered + 1 else s, s);
      }
    }
  }

  lemma Visit2Prompt(d: Daemon.State, sent: seq<Packet>, counted: nat)
    requires Core(d, sent, d.discarded, d.delivered) && d.discarded <= d.aru <= d.my
    ensures Prompt(Visit2(d, counted), sent)
  {
    hide LogOk, StoreOk, InSequence, Numbered, DeliverAgreed, DeliverSingles;
    DiscardKeeps(d, sent);
    var e := Discard(d);
    AgreedPrompt(e, sent, e.discarded);
    var f := DeliverAgreed(e);
    var start := f.hi - counted + 1;
    SinglesCounters(f, if start <= f.delivered then f.delivered + 1 else start, start + counted - 1);
  }

  ghost predicate AllPrompt(r: Ring.State) {
    forall j | 0 <= j < |r.ds| :: Prompt(r.ds[j], r.sent)
  }

  lemma VisitPrompt(r: Ring.State, c: Choice)
    requires Rest(r) && RuleOk(r) && AllPrompt(r)
    ensures AllPrompt(Step(r, TokenVisit(c)))
  {
    RestShape(r);
    hide Visit1, Visit2, Core, Fed, Rest, RuleOk, Sent, SentMy, NewPackets, Ruled;
    Visit1Keeps(r, c);
    VisitKeeps(r, c);
    var v := Visit1(r.ds[r.next], r.t, c);
    Visit2Prompt(v.d, r.sent + NewPackets(r), v.counted);
    LocalRuns(Visit(r.ds[r.next], r.t, c).d, r.sent + NewPackets(r));
    VisitStep(r, c);
    assert forall j | 0 <= j < |r.ds| :: Prompt(r.ds[j], r.sent);
  }

  lemma StepPrompt(r: Ring.State, a: Action)
    requires Going(r) && AllPrompt(r)
    ensures Shape(r) && AllPrompt(Step(r, a))
  {
    GoingRest(r);
    RestShape(r);
    hide Rest, Going, Receive, RuleOk, Local, Fed;
    match a
    case Post(who, m) =>
      assert forall j | 0 <= j < |r.ds| :: Prompt(r.ds[j], r.sent);
    case Arrive(who, s) =>
      assert forall j | 0 <= j < |r.ds| :: Prompt(r.ds[j], r.sent);
      if who < |r.ds| && 1 <= s <= |r.sent| {
        RestDaemon(r, who);
        ReceivePrompt(r.ds[who], r.sent, s);
      }
    case TokenVisit(c) =>
      VisitPrompt(r, c);
  }

  lemma GoingRest(r: Ring.State)
    requires Going(r)
    ensures Rest(r) && RuleOk(r)
  {
    if Inv(r) && Owned(r) {
      RuleFromInv(r);
    } else {
      StartRest(r);
      FirstRuleOk(r);
    }
  }

  lemma {:induction false} RunPrompt(r: Ring.State, run: seq<Action>)
    requires Going(r) && AllPrompt(r)
    ensures Shape(r) && AllPrompt(Exec(r, run))
    decreases |run|
  {
    hide Going, Step, AllPrompt;
    assert Shape(r) by { GoingShape(r); }
    if run != [] {
      StepPrompt(r, run[0]);
      StepKeepsGoing(r, run[0]);
      RunPrompt(Step(r, run[0]), run[1..]);
    }
  }

  /** Agreed delivery is prompt: at every daemon the packets received without a gap are handed up to the first
      SAFE one that is not stable yet. */
  lemma DeliveryIsPrompt(r: Ring.State, j: nat)
    requires Reachable(r) && j < |r.ds|
    ensures var d := r.ds[j];
            || d.delivered == d.my
            || (d.delivered < d.my && d.delivered < |r.sent| && r.sent[d.delivered].service.Safe? &&
                d.aru <= d.delivered)
  {
    ReachableDaemon(r, j);
    var start, run :| Start(start) && GoodStart(start) && r == Exec(start, run);
    assert forall i: nat | i < |start.ds| :: Entered(start.ds[i], i);
    RunPrompt(start, run);
    hide LogOk, StoreOk;
  }
}
