/** All daemons of the next ring in EVS, each with what its old ring left it, and the one token that visits them: the
    barrier of EvsBarrier, for the daemons themselves. */
module EvsRing {
  import opened Packets
  import opened Daemon
  import opened DaemonInv
  import opened Form1
  import AruRule
  import B = EvsBarrier
  import BD = EvsBarrierDefect
  import Evs
  import EvsRuns

  /** A daemon, the packets of its old ring, and that ring's entry. */
  datatype Member = Member(d: Daemon.State, sent: seq<Packet>, e: Entry)

  /** over: the daemon visited last goes over to the next ring. */
  datatype State = State(ms: seq<Member>, t: Token, next: nat, over: bool)

  /** Packet s of its old ring arrives at daemon j; or the token at the next daemon. */
  datatype Action = Arrive(j: nat, s: nat) | Visit

  function Step(s: State, a: Action, lastSeq: nat): (s': State)
    requires s.next < |s.ms|
    ensures s'.next < |s'.ms| && |s'.ms| == |s.ms|
  {
    if s.over then s else
      match a
      case Arrive(j, x) =>
        if j >= |s.ms| then s else
          var m := s.ms[j];
          s.(ms := s.ms[j := m.(d := Evs.Step(m.d, m.e, lastSeq, m.sent, Evs.Got(x)).d)])
      case Visit =>
        var m := s.ms[s.next];
        var p := Evs.Step(m.d, m.e, lastSeq, m.sent, Evs.TokenAt(s.t));
        State.State(s.ms[s.next := m.(d := p.d)], Evs.TokenAfter(m.d, s.t, lastSeq),
          AruRule.Next(s.next, |s.ms|), p.Done?)
  }

  function Exec(s: State, run: seq<Action>, lastSeq: nat): (s': State)
    requires s.next < |s.ms|
    ensures s'.next < |s'.ms| && |s'.ms| == |s.ms|
    decreases |run|
  {
    if run == [] then s else Exec(Step(s, run[0], lastSeq), run[1..], lastSeq)
  }

  /** No packet arrives that the entry of its ring does not know. */
  predicate Timely(s: State, run: seq<Action>) {
    forall i | 0 <= i < |run| && run[i].Arrive? && run[i].j < |s.ms| :: run[i].s <= s.ms[run[i].j].e.highest
  }

  /** A daemon after Read_form2, whose My_aru did not pass the entry's Highest_seq. */
  ghost predicate MemberStarts(m: Member, k: nat, lastSeq: nat) {
    && EvsRuns.InEvs(m.d, m.sent, m.e, lastSeq) && m.d.me == k && m.d.hi == m.e.highest && m.d.my <= m.d.hi
    && m.d.last == 0 && m.d.aru <= m.d.my && -1 <= m.d.setAru < lastSeq
  }

  /** The first regular token is on its way to the first daemon. */
  ghost predicate Starts(s: State, lastSeq: nat) {
    && s.next == 0 < |s.ms| && !s.over && s.t.aru == lastSeq && s.t.seqNo == 0
    && forall k: nat | k < |s.ms| :: MemberStarts(s.ms[k], k, lastSeq)
  }

  /** When a daemon goes over, every daemon has committed. */
  ghost predicate Safe(s: State, lastSeq: nat) {
    s.over ==> forall k: nat | k < |s.ms| :: s.ms[k].d.my == lastSeq
  }

  /** My_aru as the next token visit will find it. */
  function Ahead(d: Daemon.State, lastSeq: nat): nat {
    if d.my == lastSeq then lastSeq else Advance(d.store, d.my, d.hi)
  }

  /** Where My_aru can rest: before the packets missing. */
  predicate RestsAt(d: Daemon.State, a: nat, lastSeq: nat) {
    Ahead(d, lastSeq) <= a < d.hi && a + 1 !in d.store
  }

  ghost function Rests(d: Daemon.State, lastSeq: nat): set<int> {
    set a: nat | a < d.hi && RestsAt(d, a, lastSeq)
  }

  function ViewAt(d: Daemon.State, lastSeq: nat): AruRule.View {
    ViewOf(d).(my := Ahead(d, lastSeq))
  }

  function Views(s: State, lastSeq: nat): seq<AruRule.View> {
    seq(|s.ms|, k requires 0 <= k < |s.ms| => ViewAt(s.ms[k].d, lastSeq))
  }

  ghost function AllRests(s: State, lastSeq: nat): seq<set<int>> {
    seq(|s.ms|, k requires 0 <= k < |s.ms| => Rests(s.ms[k].d, lastSeq))
  }

  /** The start as the aru rule sees it. */
  ghost function Seen(s: State, lastSeq: nat): B.State {
    B.State(Views(s, lastSeq), AllRests(s, lastSeq), MarkOf(s.t), 0, 0, false, false)
  }

  // Advance.

  lemma {:induction false} AdvanceTo(store: Store, my: nat, hi: nat, a: nat)
    requires my <= a <= hi && (forall t | my < t <= a :: t in store) && (a == hi || a + 1 !in store)
    ensures Advance(store, my, hi) == a
    decreases a - my
  {
    if my < a {
      AdvanceTo(store, my + 1, hi, a);
    }
  }

  lemma {:induction false} AdvanceMore(store: Store, store': Store, my: nat, hi: nat)
    requires forall t | t in store :: t in store'
    ensures Advance(store, my, hi) <= Advance(store', my, hi)
    decreases hi - my
  {
    if my < hi && my + 1 in store {
      AdvanceMore(store, store', my + 1, hi);
    }
  }

  lemma AdvanceStays(store: Store, my: nat, hi: nat)
    requires my <= hi
    ensures Advance(store, Advance(store, my, hi), hi) == Advance(store, my, hi)
  {
    AdvanceCovers(store, my, hi);
    AdvanceTo(store, Advance(store, my, hi), hi, Advance(store, my, hi));
  }

  /** What runs keep of each daemon. */
  ghost predicate MemberOk(m: Member, m0: Member, k: nat, lastSeq: nat) {
    && EvsRuns.InEvs(m.d, m.sent, m.e, lastSeq) && m.sent == m0.sent && m.e == m0.e
    && m.d.me == k && m.d.hi == m0.d.hi == m.e.highest && (m.d.my == lastSeq || m.d.my <= m.d.hi) && m.d.aru <= m.d.my
    && m0.d.my <= m0.d.hi && Ahead(m0.d, lastSeq) <= Ahead(m.d, lastSeq)
    && forall t | t in m0.d.store :: t in m.d.store
  }

  lemma AheadOk(m: Member, m0: Member, k: nat, lastSeq: nat)
    requires MemberOk(m, m0, k, lastSeq)
    ensures var a := Ahead(m.d, lastSeq);
            && m.d.hi < lastSeq && m.d.my <= a && (m.d.my != lastSeq ==> a <= m.d.hi)
            && (a == lastSeq || a == m.d.hi || a in Rests(m0.d, lastSeq)) && (a == lastSeq ==> m.d.my == lastSeq)
  {
    EvsRuns.InEvsShape(m.d, m.sent, m.e, lastSeq);
    hide EvsRuns.InEvs;
    if m.d.my != lastSeq {
      AdvanceCovers(m.d.store, m.d.my, m.d.hi);
    }
  }

  lemma ArriveOk(m: Member, m0: Member, k: nat, x: nat, lastSeq: nat)
    requires MemberOk(m, m0, k, lastSeq) && x <= m.e.highest
    ensures var d := Evs.Step(m.d, m.e, lastSeq, m.sent, Evs.Got(x)).d;
            && MemberOk(m.(d := d), m0, k, lastSeq)
            && ViewAt(d, lastSeq) == ViewAt(m.d, lastSeq).(my := Ahead(d, lastSeq))
            && Ahead(m.d, lastSeq) <= Ahead(d, lastSeq)
  {
    hide EvsRuns.InEvs, Evs.Insert, Ahead, InSequence, EvsRuns.HolesIn;
    EvsRuns.InEvsShape(m.d, m.sent, m.e, lastSeq);
    if 1 <= x {
      assert m.sent[x - 1].seqNo == x;
      EvsRuns.InsertKeeps(m.d, m.sent, m.e, lastSeq, x);
      InsertAhead(m.d, m.sent[x - 1], lastSeq);
      EvsRuns.InsertFrame(m.d, m.sent[x - 1]);
    }
  }

  lemma InsertAhead(d: Daemon.State, p: Packet, lastSeq: nat)
    requires p.seqNo <= d.hi < lastSeq && (d.my == lastSeq || d.my <= d.hi) && d.aru <= d.my
    ensures var f := Evs.Insert(d, p);
            && f.hi == d.hi && (f.my == lastSeq <==> d.my == lastSeq) && (f.my == lastSeq || f.my <= f.hi) &&
               d.my <= f.my
            && f.setAru == d.setAru && Ahead(d, lastSeq) <= Ahead(f, lastSeq)
  {
    var f := Evs.Insert(d, p);
    if d.my != lastSeq {
      AdvanceMore(d.store, f.store, d.my, d.hi);
      AdvanceStays(f.store, d.my, d.hi);
    }
  }

  lemma VisitOk(m: Member, m0: Member, k: nat, t: Token, lastSeq: nat)
    requires MemberOk(m, m0, k, lastSeq) && t.seqNo == 0
    ensures var p := Evs.Step(m.d, m.e, lastSeq, m.sent, Evs.TokenAt(t));
            var (w, mark) := B.Pass(ViewAt(m.d, lastSeq), MarkOf(t), k, lastSeq);
            && MemberOk(m.(d := p.d), m0, k, lastSeq) && ViewAt(p.d, lastSeq) == w
            && MarkOf(Evs.TokenAfter(m.d, t, lastSeq)) == mark && mark.seqNo == 0 && (p.Done? <==> w.aru == lastSeq)
  {
    hide EvsRuns.InEvs, Evs.Recover, InSequence, EvsRuns.HolesIn;
    EvsRuns.InEvsShape(m.d, m.sent, m.e, lastSeq);
    EvsRuns.CommitKeeps(m.d, m.sent, m.e, lastSeq, t);
    if m.d.my != lastSeq {
      AdvanceStays(m.d.store, m.d.my, m.d.hi);
    }
  }

  // Every run is one of the barrier's.

  ghost predicate Rel(s: State, b: B.State, s0: State, lastSeq: nat) {
    && |s.ms| == |s0.ms| && s.next < |s.ms| && b.v == Views(s, lastSeq) && b.rests == AllRests(s0, lastSeq)
    && b.m == MarkOf(s.t) && b.next == s.next && b.done == s.over && s.t.seqNo == 0
    && forall k: nat | k < |s.ms| :: MemberOk(s.ms[k], s0.ms[k], k, lastSeq)
  }

  lemma RelStart(s: State, lastSeq: nat)
    requires Starts(s, lastSeq)
    ensures Rel(s, Seen(s, lastSeq), s, lastSeq) && B.Start(Seen(s, lastSeq), lastSeq) && lastSeq > 0
  {
    hide Ahead, EvsRuns.InEvs;
    var b := Seen(s, lastSeq);
    forall k: nat | k < |s.ms|
      ensures MemberOk(s.ms[k], s.ms[k], k, lastSeq) && b.v[k].my <= b.v[k].hi < lastSeq
      ensures b.v[k].my == b.v[k].hi || b.v[k].my in b.rests[k]
      ensures b.v[k].last == 0 && -1 <= b.v[k].setAru < lastSeq
    {
      assert MemberStarts(s.ms[k], k, lastSeq);
      EvsRuns.InEvsShape(s.ms[k].d, s.ms[k].sent, s.ms[k].e, lastSeq);
      AheadOk(s.ms[k], s.ms[k], k, lastSeq);
    }
    assert MemberStarts(s.ms[0], 0, lastSeq);
    EvsRuns.InEvsShape(s.ms[0].d, s.ms[0].sent, s.ms[0].e, lastSeq);
  }

  lemma ViewsUpdate(s: State, s': State, j: nat, lastSeq: nat)
    requires |s'.ms| == |s.ms| && j < |s.ms| && s'.ms == s.ms[j := s'.ms[j]]
    ensures Views(s', lastSeq) == Views(s, lastSeq)[j := ViewAt(s'.ms[j].d, lastSeq)]
  {
    hide ViewAt;
  }

  lemma ArriveRefines(s: State, b: B.State, s0: State, j: nat, x: nat, lastSeq: nat) returns (c: B.Action)
    requires Rel(s, b, s0, lastSeq) && !s.over && j < |s.ms| && x <= s.ms[j].e.highest
    ensures Rel(Step(s, Arrive(j, x), lastSeq), B.Step(b, c, lastSeq), s0, lastSeq)
  {
    hide Evs.Step, Ahead, EvsRuns.InEvs, Rests, MemberOk;
    var m := s.ms[j];
    ArriveOk(m, s0.ms[j], j, x, lastSeq);
    var s' := Step(s, Arrive(j, x), lastSeq);
    ViewsUpdate(s, s', j, lastSeq);
    AheadOk(m, s0.ms[j], j, lastSeq);
    AheadOk(s'.ms[j], s0.ms[j], j, lastSeq);
    c := B.Grow(j, Ahead(s'.ms[j].d, lastSeq));
    assert b.v[j] == ViewAt(m.d, lastSeq) && b.rests[j] == Rests(s0.ms[j].d, lastSeq);
    MemberHi(m, s0.ms[j], j, lastSeq);
    MemberHi(s'.ms[j], s0.ms[j], j, lastSeq);
    if Ahead(s'.ms[j].d, lastSeq) == lastSeq {
      AlreadyThere(m, s'.ms[j].d, x, lastSeq);
      assert b.v[j := b.v[j]] == b.v;
    }
  }

  lemma MemberHi(m: Member, m0: Member, k: nat, lastSeq: nat)
    requires MemberOk(m, m0, k, lastSeq)
    ensures m.d.hi == m0.d.hi && m.e == m0.e && m.d.hi == m.e.highest
  {
  }

  /** Packets take nobody to the form token's number. */
  lemma AlreadyThere(m: Member, d: Daemon.State, x: nat, lastSeq: nat)
    requires d == Evs.Step(m.d, m.e, lastSeq, m.sent, Evs.Got(x)).d && d.my == lastSeq && m.d.hi < lastSeq
    requires d.hi == m.d.hi && (m.d.my == lastSeq || m.d.my <= m.d.hi)
    ensures ViewAt(m.d, lastSeq).my == ViewAt(d, lastSeq).my == lastSeq
  {
  }

  lemma VisitRefines(s: State, b: B.State, s0: State, lastSeq: nat)
    requires Rel(s, b, s0, lastSeq) && !s.over
    ensures Rel(Step(s, Visit, lastSeq), B.Step(b, B.Visit, lastSeq), s0, lastSeq)
  {
    hide Evs.Step, Ahead, EvsRuns.InEvs, Rests, MemberOk, B.Pass, Evs.TokenAfter;
    var m := s.ms[s.next];
    VisitOk(m, s0.ms[s.next], s.next, s.t, lastSeq);
    ViewsUpdate(s, Step(s, Visit, lastSeq), s.next, lastSeq);
    assert b.v[s.next] == ViewAt(m.d, lastSeq);
  }

  lemma TimelyRest(s: State, a: Action, run: seq<Action>, lastSeq: nat)
    requires s.next < |s.ms|
    ensures Timely(s, [a] + run) ==>
            Timely(Step(s, a, lastSeq), run) && (a.Arrive? && a.j < |s.ms| ==> a.s <= s.ms[a.j].e.highest)
    ensures Timely(s, run) && (a.Arrive? && a.j < |s.ms| ==> a.s <= s.ms[a.j].e.highest) ==> Timely(s, [a] + run)
  {
    var all := [a] + run;
    var s' := Step(s, a, lastSeq);
    assert forall j | 0 <= j < |s.ms| :: s'.ms[j].e == s.ms[j].e;
    hide Step;
    if Timely(s, all) {
      assert all[0] == a;
      forall i | 0 <= i < |run| && run[i].Arrive? && run[i].j < |s'.ms|
        ensures run[i].s <= s'.ms[run[i].j].e.highest
      {
        assert all[i + 1] == run[i];
      }
    }
  }

  lemma {:induction false} RunRefines(s: State, b: B.State, s0: State, run: seq<Action>, lastSeq: nat)
    returns (brun: seq<B.Action>)
    requires Rel(s, b, s0, lastSeq) && Timely(s, run)
    ensures b.next < |b.v| && Rel(Exec(s, run, lastSeq), B.Exec(b, brun, lastSeq), s0, lastSeq)
    decreases |run|
  {
    assert b.next < |b.v|;
    if run == [] {
      brun := [];
    } else {
      var s' := Step(s, run[0], lastSeq);
      assert run == [run[0]] + run[1..];
      TimelyRest(s, run[0], run[1..], lastSeq);
      if s.over || (run[0].Arrive? && run[0].j >= |s.ms|) {
        brun := RunRefines(s', b, s0, run[1..], lastSeq);
      } else {
        var c := B.Visit;
        match run[0] {
          case Arrive(j, x) => c := ArriveRefines(s, b, s0, j, x, lastSeq);
          case Visit => VisitRefines(s, b, s0, lastSeq);
        }
        hide Rel, Step, B.Step;
        assert B.Step(b, c, lastSeq).next < |B.Step(b, c, lastSeq).v|;
        var rest := RunRefines(s', B.Step(b, c, lastSeq), s0, run[1..], lastSeq);
        brun := [c] + rest;
        assert brun[1..] == rest;
      }
    }
  }

  // Every run of the barrier's is one of the daemons.

  /** Nothing above where My_aru is got there since. */
  ghost predicate Tight(m: Member, m0: Member, lastSeq: nat) {
    forall t | t in m.d.store && t > Ahead(m.d, lastSeq) :: t in m0.d.store
  }

  function Deliver(m: Member, xs: seq<nat>, lastSeq: nat): Member
    decreases |xs|
  {
    if xs == [] then m else Deliver(m.(d := Evs.Step(m.d, m.e, lastSeq, m.sent, Evs.Got(xs[0])).d), xs[1..], lastSeq)
  }

  lemma {:induction false} AdvanceBelow(store: Store, my: nat, hi: nat, a: nat)
    requires my <= a && a + 1 !in store
    ensures Advance(store, my, hi) <= a
    decreases hi - my
  {
    if my < hi && my + 1 in store {
      AdvanceBelow(store, my + 1, hi, a);
    }
  }

  lemma HeldBelow(m: Member, m0: Member, k: nat, lastSeq: nat)
    requires MemberOk(m, m0, k, lastSeq) && m.d.my != lastSeq
    ensures m.e.aru <= m.d.my && (forall t | m.e.aru < t <= m.d.my :: t in m.d.store) && !m.d.exited &&
            m.d.aru <= m.d.my
    ensures m.e.highest <= |m.sent| && forall j | 0 <= j < |m.sent| :: m.sent[j].seqNo == j + 1
  {
    EvsRuns.InEvsShape(m.d, m.sent, m.e, lastSeq);
    EvsRuns.InEvsReached(m.d, m.sent, m.e, lastSeq);
  }

  lemma Inserted(d: Daemon.State, p: Packet, a: nat, lastSeq: nat)
    requires !d.exited && d.aru < p.seqNo <= a <= d.hi < lastSeq && p.seqNo !in d.store && d.my < p.seqNo
    requires a == d.hi || a + 1 !in d.store
    ensures var f := Evs.Insert(d, p);
            && f.store == d.store[p.seqNo := Fresh(p)] && f.my <= a
  {
    var store := d.store[p.seqNo := Fresh(p)];
    if a < d.hi {
      AdvanceBelow(store, d.my, d.hi, a);
    }
  }

  /** The packets missing up to a arrive, from number i on. */
  lemma {:induction false} Fill(m: Member, m0: Member, k: nat, i: nat, a: nat, lastSeq: nat) returns (xs: seq<nat>)
    requires MemberOk(m, m0, k, lastSeq) && m.d.my <= a <= m.d.hi < lastSeq && m.e.aru < i <= a + 1
    requires (forall t | m.e.aru < t < i :: t in m.d.store) && (a == m.d.hi || a + 1 !in m.d.store)
    ensures var f := Deliver(m, xs, lastSeq);
            && MemberOk(f, m0, k, lastSeq) && Ahead(f.d, lastSeq) == a
            && ViewAt(f.d, lastSeq) == ViewAt(m.d, lastSeq).(my := a)
            && (forall t | t in f.d.store :: t in m.d.store || t <= a) && f.e == m.e
    ensures forall x | x in xs :: x <= a
    decreases a + 1 - i
  {
    hide EvsRuns.InEvs, Evs.Insert;
    HeldBelow(m, m0, k, lastSeq);
    if i == a + 1 {
      xs := [];
      AdvanceTo(m.d.store, m.d.my, m.d.hi, a);
    } else if i in m.d.store {
      xs := Fill(m, m0, k, i + 1, a, lastSeq);
    } else {
      var p := m.sent[i - 1];
      assert p.seqNo == i;
      Inserted(m.d, p, a, lastSeq);
      ArriveOk(m, m0, k, i, lastSeq);
      var f := m.(d := Evs.Insert(m.d, p));
      MemberHi(f, m0, k, lastSeq);
      MemberHi(m, m0, k, lastSeq);
      var rest := Fill(f, m0, k, i + 1, a, lastSeq);
      xs := [i] + rest;
      assert xs[1..] == rest;
      assert Deliver(m, xs, lastSeq) == Deliver(f, rest, lastSeq);
    }
  }

  function Arrives(j: nat, xs: seq<nat>): seq<Action> {
    if xs == [] then [] else [Arrive(j, xs[0])] + Arrives(j, xs[1..])
  }

  lemma {:induction false} ArrivesAre(s: State, j: nat, xs: seq<nat>, lastSeq: nat)
    requires s.next < |s.ms| && j < |s.ms| && !s.over && forall x | x in xs :: x <= s.ms[j].e.highest
    ensures Exec(s, Arrives(j, xs), lastSeq) == s.(ms := s.ms[j := Deliver(s.ms[j], xs, lastSeq)])
    ensures Timely(s, Arrives(j, xs))
    decreases |xs|
  {
    hide Evs.Step;
    if xs != [] {
      var s' := Step(s, Arrive(j, xs[0]), lastSeq);
      FirstNat(xs);
      assert Arrives(j, xs)[1..] == Arrives(j, xs[1..]);
      ArrivesAre(s', j, xs[1..], lastSeq);
      TimelyRest(s, Arrive(j, xs[0]), Arrives(j, xs[1..]), lastSeq);
      TimelyKept(s, s', Arrives(j, xs[1..]));
    } else {
      assert s.ms[j := s.ms[j]] == s.ms;
    }
  }

  lemma FirstNat(xs: seq<nat>)
    ensures xs != [] ==> xs[0] in xs && forall x | x in xs[1..] :: x in xs
  {
  }

  lemma TimelyKept(s: State, s': State, run: seq<Action>)
    requires |s'.ms| == |s.ms| && forall j | 0 <= j < |s.ms| :: s'.ms[j].e == s.ms[j].e
    ensures Timely(s, run) <==> Timely(s', run)
  {
  }

  /** Rel, and nothing has arrived beyond where My_aru is. */
  ghost predicate TightRel(s: State, b: B.State, s0: State, lastSeq: nat) {
    Rel(s, b, s0, lastSeq) && forall k: nat | k < |s.ms| :: Tight(s.ms[k], s0.ms[k], lastSeq)
  }

  lemma FillRest(m: Member, m0: Member, k: nat, my: nat, lastSeq: nat) returns (xs: seq<nat>)
    requires MemberOk(m, m0, k, lastSeq) && Tight(m, m0, lastSeq) && Ahead(m.d, lastSeq) <= my
    requires my == m.d.hi || my in Rests(m0.d, lastSeq)
    ensures var f := Deliver(m, xs, lastSeq);
            && MemberOk(f, m0, k, lastSeq) && Tight(f, m0, lastSeq)
            && ViewAt(f.d, lastSeq) == ViewAt(m.d, lastSeq).(my := my) && f.e == m.e
    ensures forall x | x in xs :: x <= m.e.highest
  {
    hide EvsRuns.InEvs;
    AheadOk(m, m0, k, lastSeq);
    MemberHi(m, m0, k, lastSeq);
    HeldBelow(m, m0, k, lastSeq);
    xs := Fill(m, m0, k, m.d.my + 1, my, lastSeq);
    hide Ahead, MemberOk;
    assert Ahead(Deliver(m, xs, lastSeq).d, lastSeq) == my;
  }

  lemma GrowReal(s: State, b: B.State, s0: State, j: nat, my: nat, lastSeq: nat) returns (run: seq<Action>)
    requires TightRel(s, b, s0, lastSeq) && !s.over && B.MayGrow(b, j, my)
    ensures Timely(s, run) && TightRel(Exec(s, run, lastSeq), B.Step(b, B.Grow(j, my), lastSeq), s0, lastSeq)
  {
    hide Ahead, EvsRuns.InEvs, Rests, MemberOk, Tight;
    assert b.v[j] == ViewAt(s.ms[j].d, lastSeq) && b.rests[j] == Rests(s0.ms[j].d, lastSeq);
    var xs := FillRest(s.ms[j], s0.ms[j], j, my, lastSeq);
    run := Arrives(j, xs);
    ArrivesAre(s, j, xs, lastSeq);
    ViewsUpdate(s, Exec(s, run, lastSeq), j, lastSeq);
  }

  lemma VisitReal(s: State, b: B.State, s0: State, lastSeq: nat)
    requires TightRel(s, b, s0, lastSeq) && !s.over
    ensures TightRel(Step(s, Visit, lastSeq), B.Step(b, B.Visit, lastSeq), s0, lastSeq)
  {
    VisitRefines(s, b, s0, lastSeq);
    hide Rel, EvsRuns.InEvs, Rests, MemberOk;
    var m := s.ms[s.next];
    assert Tight(m, s0.ms[s.next], lastSeq);
    assert MemberOk(m, s0.ms[s.next], s.next, lastSeq) by { RelMember(s, b, s0, s.next, lastSeq); }
    VisitTight(m, s0.ms[s.next], s.next, s.t, lastSeq);
  }

  lemma RelMember(s: State, b: B.State, s0: State, k: nat, lastSeq: nat)
    requires Rel(s, b, s0, lastSeq) && k < |s.ms|
    ensures MemberOk(s.ms[k], s0.ms[k], k, lastSeq)
  {
    hide MemberOk;
  }

  lemma VisitTight(m: Member, m0: Member, k: nat, t: Token, lastSeq: nat)
    requires MemberOk(m, m0, k, lastSeq) && Tight(m, m0, lastSeq)
    ensures Tight(m.(d := Evs.Step(m.d, m.e, lastSeq, m.sent, Evs.TokenAt(t)).d), m0, lastSeq)
  {
    EvsRuns.InEvsShape(m.d, m.sent, m.e, lastSeq);
    hide EvsRuns.InEvs, Evs.Recover;
    EvsRuns.CommitFrame(m.d, t, lastSeq);
    if m.d.my != lastSeq {
      AdvanceStays(m.d.store, m.d.my, m.d.hi);
    }
  }

  lemma {:induction false} ExecThen(s: State, r1: seq<Action>, r2: seq<Action>, lastSeq: nat)
    requires s.next < |s.ms|
    ensures Exec(s, r1 + r2, lastSeq) == Exec(Exec(s, r1, lastSeq), r2, lastSeq)
    ensures Timely(s, r1) && Timely(Exec(s, r1, lastSeq), r2) ==> Timely(s, r1 + r2)
    decreases |r1|
  {
    if r1 == [] {
      assert r1 + r2 == r2;
    } else {
      assert r1 == [r1[0]] + r1[1..] && r1 + r2 == [r1[0]] + (r1[1..] + r2) && (r1 + r2)[1..] == r1[1..] + r2;
      TimelyRest(s, r1[0], r1[1..], lastSeq);
      TimelyRest(s, r1[0], r1[1..] + r2, lastSeq);
      ExecThen(Step(s, r1[0], lastSeq), r1[1..], r2, lastSeq);
    }
  }

  lemma {:induction false} RunReal(s: State, b: B.State, s0: State, brun: seq<B.Action>, lastSeq: nat)
    returns (run: seq<Action>)
    requires TightRel(s, b, s0, lastSeq)
    ensures b.next < |b.v| && Timely(s, run) && TightRel(Exec(s, run, lastSeq), B.Exec(b, brun, lastSeq), s0, lastSeq)
    decreases |brun|
  {
    assert b.next < |b.v|;
    if brun == [] {
      run := [];
    } else {
      var r1 := [];
      match brun[0] {
        case Grow(j, my) =>
          if !s.over && B.MayGrow(b, j, my) {
            r1 := GrowReal(s, b, s0, j, my, lastSeq);
          }
        case Visit =>
          if !s.over {
            r1 := [Visit];
            VisitReal(s, b, s0, lastSeq);
            assert [Visit][1..] == [];
          }
      }
      var b' := B.Step(b, brun[0], lastSeq);
      hide Rel, Step, B.Step, Tight, Timely;
      assert TightRel(Exec(s, r1, lastSeq), b', s0, lastSeq) && b'.next < |b'.v| && Timely(s, r1);
      var r2 := RunReal(Exec(s, r1, lastSeq), b', s0, brun[1..], lastSeq);
      run := r1 + r2;
      ExecThen(s, r1, r2, lastSeq);
    }
  }

  /** Whether everybody has committed is seen from the barrier. */
  lemma SafeSeen(s: State, b: B.State, s0: State, lastSeq: nat)
    requires Rel(s, b, s0, lastSeq)
    ensures Safe(s, lastSeq) <==> B.Safe(b, lastSeq)
  {
    hide Rests, EvsRuns.InEvs;
    forall k: nat | k < |s.ms|
      ensures b.v[k].my == lastSeq <==> s.ms[k].d.my == lastSeq
    {
      AheadOk(s.ms[k], s0.ms[k], k, lastSeq);
    }
    hide Ahead, MemberOk;
  }

  /** The barrier of EVS: over all runs, whatever packets that the entries know arrive when, no daemon goes over to the
      next ring before all have everything, exactly when the start is good. */
  lemma BarrierIff(s: State, lastSeq: nat)
    requires Starts(s, lastSeq)
    ensures B.Good(Seen(s, lastSeq)) <==> forall run | Timely(s, run) :: Safe(Exec(s, run, lastSeq), lastSeq)
  {
    hide MemberStarts, Ahead, Rests, B.Good, MemberOk, Timely;
    var b := Seen(s, lastSeq);
    RelStart(s, lastSeq);
    if B.Good(b) {
      forall run | Timely(s, run)
        ensures Safe(Exec(s, run, lastSeq), lastSeq)
      {
        var brun := RunRefines(s, b, s, run, lastSeq);
        B.GoodIsSafe(b, brun, lastSeq);
        SafeSeen(Exec(s, run, lastSeq), B.Exec(b, brun, lastSeq), s, lastSeq);
      }
    } else {
      var brun := BD.BadRun(b, lastSeq);
      var run := RunReal(s, b, s, brun, lastSeq);
      SafeSeen(Exec(s, run, lastSeq), B.Exec(b, brun, lastSeq), s, lastSeq);
      assert !Safe(Exec(s, run, lastSeq), lastSeq);
    }
  }

  lemma OverSeen(s: State, run: seq<Action>, lastSeq: nat) returns (c: B.State)
    requires Starts(s, lastSeq) && B.Good(Seen(s, lastSeq)) && Timely(s, run)
    requires Exec(s, run, lastSeq).over && |s.ms| >= 2
    ensures Rel(Exec(s, run, lastSeq), c, s, lastSeq) && B.Complete(c, lastSeq) && |c.v| == |s.ms| && lastSeq > 0
  {
    hide MemberStarts, Ahead, Rests, B.Good, B.Start, Timely, MemberOk;
    var b := Seen(s, lastSeq);
    RelStart(s, lastSeq);
    var brun := RunRefines(s, b, s, run, lastSeq);
    c := B.Exec(b, brun, lastSeq);
    B.StartInv(b, lastSeq);
    B.RunKeeps(b, b, brun, lastSeq);
  }

  /** When the first daemon goes over, every daemon has every packet up to its entry's Highest_seq, a hole for each that
      nobody has; and at its next token visit it goes over too. */
  lemma AllFollow(s: State, run: seq<Action>, k: nat, lastSeq: nat)
    requires Starts(s, lastSeq) && B.Good(Seen(s, lastSeq)) && Timely(s, run)
    requires Exec(s, run, lastSeq).over && k < |s.ms| && |s.ms| >= 2
    ensures var u := Exec(s, run, lastSeq);
            var m := u.ms[k];
            && Evs.Complete(m.d.store, m.e.aru + 1, m.e.highest)
            && Evs.Step(m.d, m.e, lastSeq, m.sent, Evs.TokenAt(u.t)).Done?
            && MarkOf(Evs.TokenAfter(m.d, u.t, lastSeq)) == MarkOf(u.t)
  {
    hide MemberStarts, Ahead, Rests, B.Good, Timely, Evs.TokenAfter, B.Pass, Evs.Step, MemberOk, Starts, Seen;
    var c := OverSeen(s, run, lastSeq);
    var u := Exec(s, run, lastSeq);
    B.AllGoOver(c, k, lastSeq);
    assert c.v[k] == ViewAt(u.ms[k].d, lastSeq) && MemberOk(u.ms[k], s.ms[k], k, lastSeq);
    AheadOk(u.ms[k], s.ms[k], k, lastSeq);
    VisitOk(u.ms[k], s.ms[k], k, u.t, lastSeq);
    CommittedHas(u.ms[k], s.ms[k], k, lastSeq);
  }

  lemma CommittedHas(m: Member, m0: Member, k: nat, lastSeq: nat)
    requires MemberOk(m, m0, k, lastSeq) && m.d.my == lastSeq
    ensures Evs.Complete(m.d.store, m.e.aru + 1, m.e.highest)
  {
  }

  /** A daemon that read the FORM2 token without an exit, and whose My_aru did not pass, starts as the barrier wants. */
  lemma FromForm2(d: Daemon.State, sent: seq<Packet>, e: Entry, k: nat, lastSeq: nat)
    requires EvsRuns.Form2Ok(d, sent, e) && |sent| < lastSeq && d.my <= e.highest && d.me == k
    requires -1 <= d.setAru <= d.my
    ensures MemberStarts(Member(Evs.ReadForm2(d, e), sent, e), k, lastSeq)
  {
    EvsRuns.ReadForm2Keeps(d, sent, e, lastSeq);
    EvsRuns.InEvsReached(Evs.ReadForm2(d, e), sent, e, lastSeq);
    EvsRuns.InEvsShape(Evs.ReadForm2(d, e), sent, e, lastSeq);
    hide EvsRuns.Form2Ok, EvsRuns.InEvs, Evs.ReadForm2;
  }
}
