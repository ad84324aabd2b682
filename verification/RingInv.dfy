/** What every step of a ring keeps. */
module RingInv {
  import opened Packets
  import opened Daemon
  import opened DaemonInv
  import opened Ring
  import AruRule
  import Burst

  /** The aru rule behaves at the next visit: the Aru computed is at least everybody's and at most what
      the visited daemon has, whose own Aru was the lowest. */
  ghost predicate RuleOk(r: Ring.State)
    requires Shape(r)
  {
    var w := Ruled(r).0;
    && w.aru <= SentMy(r)
    && forall j | 0 <= j < |r.ds| :: r.ds[j].aru <= w.aru && r.ds[r.next].aru <= r.ds[j].aru
  }

  /** Few packets are made at a visit, all by the visited daemon. */
  lemma SendingBounds(r: Ring.State)
    requires Rest(r)
    ensures var (n, counted) := SendCount(r);
            && n <= |Lengths(r.ds[r.next].down)| && counted <= n <= Burst.MAX_BURST &&
               counted <= Burst.PERSONAL_WINDOW + 1
            && (n > 0 ==> |r.sent| <= r.ds[r.next].aru + Burst.MAX_SEQ_GAP)
            && |NewPackets(r)| <= n
            && (forall i | 0 <= i < |NewPackets(r)| :: NewPackets(r)[i].sender == r.next)
  {
    assert DaemonOk(r, r.next);
    hide Core, Fed, Burst.Take, Lengths, Made;
    LocalRuns(r.ds[r.next], r.sent);
    var d0 := Raised(r.ds[r.next], r.t);
    Burst.VisitBound(Lengths(d0.down), Burst.Allowed(r.t.fc, d0.hi, d0.aru));
    MadeBy(d0, SendCount(r).0);
  }

  /** Sending: the new packets extend those of the ring. */
  lemma SendingKeeps(r: Ring.State)
    requires Rest(r)
    ensures var d := r.ds[r.next];
            var all := r.sent + NewPackets(r);
            var d1 := Sent(r);
            && Core(d1, all, d.discarded, d.delivered)
            && Fed(d1, all, r.posted[r.next])
            && d1 == d.(store := d1.store, hi := |all|, down := d1.down)
            && d.hi <= |r.sent| && |NewPackets(r)| == SendCount(r).0
            && (forall s | |r.sent| < s <= |all| :: s in d1.store)
            && (forall s | s in d1.store :: s in d.store || s > |r.sent|)
  {
    assert DaemonOk(r, r.next);
    var d := r.ds[r.next];
    var d0 := Raised(d, r.t);
    Framed(d, d0, r.sent, d.discarded, d.delivered);
    SendingBounds(r);
    hide LogOk, StoreOk, InSequence, Numbered, Burst.Take, Lengths, SendCount;
    FedFramed(d, d0, r.sent, r.posted[r.next]);
    hide Fed;
    SendManyKeeps(d0, r.sent, r.posted[r.next], SendCount(r).0);
  }

  /** My_aru after sending. */
  lemma SendingMy(r: Ring.State)
    requires Rest(r)
    ensures var d := r.ds[r.next];
            && AruRule.Sends(ViewOf(d), MarkOf(r.t), SentMy(r), Sent(r).hi)
            && (forall s | d.my < s <= SentMy(r) :: s in Sent(r).store)
            && SentMy(r) + 1 !in Sent(r).store
            && (d.my < |r.sent| ==> SentMy(r) == d.my)
  {
    hide LogOk, StoreOk, InSequence, Numbered, Fed, Sent, NewPackets;
    assert DaemonOk(r, r.next);
    SendingKeeps(r);
    var d1 := Sent(r);
    KeysBelow(d1, r.sent + NewPackets(r));
    AdvanceCovers(d1.store, d1.my, d1.hi);
  }

  lemma FedFramed(d: Daemon.State, e: Daemon.State, sent: seq<Packet>, posted: seq<Message>)
    requires Fed(d, sent, posted) && e.me == d.me && e.down == d.down
    ensures Fed(e, sent, posted)
  {
  }

  lemma ViewsAt(ds: seq<Daemon.State>, j: nat)
    requires j < |ds|
    ensures Views(ds)[j] == ViewOf(ds[j])
  {
  }

  /** A visit without a bad request, up to the sending of the token, in terms of Sent and Ruled. */
  lemma Visit1Is(r: Ring.State, c: Choice)
    requires Shape(r) && r.ds[r.next].me == r.next
    requires !r.ds[r.next].exited && !BadRequest(r.ds[r.next], r.t, c) && !Sent(r).exited
    requires Sent(r).setAru == r.ds[r.next].setAru && Sent(r).last == r.ds[r.next].last
    ensures var d := r.ds[r.next];
            var v := Visit1(d, r.t, c);
            var (w, m) := Ruled(r);
            && v.made == NewPackets(r)
            && v.d == Sent(r).(my := SentMy(r), nRetrans := c.retrans, nSent := SendCount(r).1, setAru := w.setAru,
               last := w.last, aru := w.aru)
            && ViewOf(v.d) == w && MarkOf(v.t) == m && v.t.seqNo == v.d.hi
            && v.t.fc == r.t.fc - d.nRetrans - d.nSent + c.retrans + SendCount(r).1
            && (forall s | s in v.t.rtr :: v.d.my < s <= v.d.hi)
  {
  }

  /** The visited daemon up to the sending of the token. */
  lemma Visit1Keeps(r: Ring.State, c: Choice)
    requires Rest(r) && RuleOk(r)
    ensures var d := r.ds[r.next];
            var v := Visit1(d, r.t, c);
            var all := r.sent + NewPackets(r);
            var (w, m) := Ruled(r);
            && v.made == NewPackets(r)
            && Core(v.d, all, v.d.discarded, v.d.delivered)
            && Fed(v.d, all, r.posted[r.next])
            && v.d.discarded <= v.d.aru <= v.d.my && v.d.my + 1 !in v.d.store
            && v.d.me == r.next && v.d.hi == |all|
            && ViewOf(v.d) == w && MarkOf(v.t) == m && v.t.seqNo == |all|
            && v.t.fc == r.t.fc - d.nRetrans - d.nSent + v.d.nRetrans + v.d.nSent
            && (forall s | s in v.t.rtr :: v.d.my < s <= |all|)
  {
    hide LogOk, StoreOk, InSequence, Numbered, Fed, Visit1, Sent, SentMy, Ruled, NewPackets, SendCount;
    assert DaemonOk(r, r.next);
    var d := r.ds[r.next];
    SendingKeeps(r);
    SendingMy(r);
    assert !BadRequest(d, r.t, c);
    Visit1Is(r, c);
    var v := Visit1(d, r.t, c);
    Framed(Sent(r), v.d, r.sent + NewPackets(r), d.discarded, d.delivered);
    FedFramed(Sent(r), v.d, r.sent + NewPackets(r), r.posted[r.next]);
  }

  /** Discarding and handing up afterwards. */
  lemma Visit2Keeps(d: Daemon.State, sent: seq<Packet>, counted: nat)
    requires Core(d, sent, d.discarded, d.delivered)
    requires d.discarded <= d.aru <= d.my && d.my + 1 !in d.store
    ensures var e := Visit2(d, counted);
            && Local(e, sent) && SameRest(d, e)
  {
    hide LogOk, StoreOk, InSequence, Numbered;
    DiscardKeeps(d, sent);
    var e := Discard(d);
    DeliverAgreedKeeps(e, sent, e.discarded);
    var f := DeliverAgreed(e);
    var start := f.hi - counted + 1;
    DeliverSinglesKeeps(f, sent, f.discarded, if start <= f.delivered then f.delivered + 1 else start,
        start + counted - 1);
  }

  /** The whole visit, as seen by the visited daemon. */
  lemma VisitKeeps(r: Ring.State, c: Choice)
    requires Rest(r) && RuleOk(r)
    ensures var d := r.ds[r.next];
            var v := Visit(d, r.t, c);
            var sent := r.sent + v.made;
            && Local(v.d, sent) && Fed(v.d, sent, r.posted[r.next])
            && v.d.me == r.next && !v.d.exited && Numbered(sent) && InSequence(sent)
            && (ViewOf(v.d), MarkOf(v.t)) == Ruled(r)
            && v.t.seqNo == |sent|
            && v.t.fc == r.t.fc - d.nRetrans - d.nSent + v.d.nRetrans + v.d.nSent
            && (forall s | s in v.t.rtr :: SentMy(r) < s <= |sent|)
            && v.made == NewPackets(r)
  {
    hide DaemonOk, Visit1, Visit2, Core, Fed, Sent, SentMy, NewPackets;
    Visit1Keeps(r, c);
    var v := Visit1(r.ds[r.next], r.t, c);
    var sent := r.sent + v.made;
    Visit2Keeps(v.d, sent, v.counted);
    FedFramed(v.d, Visit2(v.d, v.counted), sent, r.posted[r.next]);
    LocalRuns(Visit2(v.d, v.counted), sent);
  }

  /** flow_control at the next visit. */
  lemma VisitLoad(r: Ring.State, c: Choice)
    requires Rest(r) && RuleOk(r)
    ensures var d := r.ds[r.next];
            Step(r, TokenVisit(c)).t.fc == r.t.fc - d.nRetrans - d.nSent + c.retrans + SendCount(r).1
  {
    hide Core, Visit1, Visit2, Sent, SentMy, NewPackets, SendCount;
    assert DaemonOk(r, r.next);
    LocalRuns(r.ds[r.next], r.sent);
    SendingKeeps(r);
    VisitKeeps(r, c);
    assert !BadRequest(r.ds[r.next], r.t, c);
    CoreRuns(Sent(r), r.sent + NewPackets(r), r.ds[r.next].discarded, r.ds[r.next].delivered);
    Visit1Is(r, c);
    VisitStep(r, c);
  }

  lemma CoreRuns(d: Daemon.State, sent: seq<Packet>, lo: nat, del: nat)
    requires Core(d, sent, lo, del)
    ensures !d.exited
  {
  }

  lemma RestShape(r: Ring.State)
    requires Rest(r)
    ensures Shape(r) && r.t.seqNo == |r.sent|
  {
  }

  lemma LocalRuns(d: Daemon.State, sent: seq<Packet>)
    requires Local(d, sent)
    ensures !d.exited && Numbered(sent) && InSequence(sent) && d.aru <= d.my <= d.hi <= |sent|
  {
  }

  lemma LocalGrows(d: Daemon.State, sent: seq<Packet>, more: seq<Packet>)
    requires Local(d, sent)
    requires Numbered(sent + more) && InSequence(sent + more)
    ensures Local(d, sent + more)
  {
    GrowKeeps(d, sent, more, d.discarded, d.delivered);
  }

  lemma FedGrows(d: Daemon.State, sent: seq<Packet>, made: seq<Packet>, posted: seq<Message>)
    requires Fed(d, sent, posted)
    requires forall i | 0 <= i < |made| :: made[i].sender != d.me
    ensures Fed(d, sent + made, posted)
  {
    OthersMade(sent, made, d.me);
  }

  lemma VisitStep(r: Ring.State, c: Choice)
    requires Shape(r) && !Visit(r.ds[r.next], r.t, c).d.exited
    ensures var v := Visit(r.ds[r.next], r.t, c);
            Step(r, TokenVisit(c)) ==
            Ring.State(r.ds[r.next := v.d], r.posted, r.sent + v.made, v.t, AruRule.Next(r.next, |r.ds|))
  {
  }

  lemma DaemonAfterVisit(r: Ring.State, c: Choice, j: nat)
    requires Rest(r) && RuleOk(r) && j < |r.ds|
    ensures DaemonOk(Step(r, TokenVisit(c)), j)
  {
    hide Local, Fed, Visit, NewPackets, SendCount;
    VisitKeeps(r, c);
    VisitStep(r, c);
    SendingBounds(r);
    assert DaemonOk(r, j) && DaemonOk(r, r.next);
    var v := Visit(r.ds[r.next], r.t, c);
    var w := Ruled(r).0;
    assert v.d.aru == w.aru && r.ds[j].aru <= w.aru;
    if j != r.next {
      LocalGrows(r.ds[j], r.sent, v.made);
      FedGrows(r.ds[j], r.sent, v.made, r.posted[j]);
    }
  }

  lemma VisitKeepsRest(r: Ring.State, c: Choice)
    requires Rest(r) && RuleOk(r)
    ensures var r' := Step(r, TokenVisit(c));
            && Rest(r')
            && r'.next == AruRule.Next(r.next, |r.ds|)
            && MarkOf(r'.t) == Ruled(r).1
            && Views(r'.ds) == Views(r.ds)[r.next := Ruled(r).0]
  {
    hide DaemonOk, Visit, Local, Fed;
    var r' := Step(r, TokenVisit(c));
    var v := Visit(r.ds[r.next], r.t, c);
    VisitKeeps(r, c);
    VisitStep(r, c);
    forall j: nat | j < |r'.ds|
      ensures DaemonOk(r', j)
    {
      DaemonAfterVisit(r, c, j);
    }
    LoadUpdate(r.ds, r.next, v.d);
  }

  /** Under the aru invariant the rule behaves. */
  lemma RuleFromInv(r: Ring.State)
    requires Inv(r)
    ensures RuleOk(r)
    ensures AruRule.Inv(Views(r.ds)[r.next := Ruled(r).0], Ruled(r).1, AruRule.Next(r.next, |r.ds|))
  {
    hide DaemonOk, Sent, SentMy;
    SendingMy(r);
    var v := Views(r.ds);
    var n := |r.ds|;
    AruRule.VisitKeepsInv(v, MarkOf(r.t), r.next, SentMy(r), Sent(r).hi);
    forall j | 0 <= j < n
      ensures r.ds[j].aru <= Ruled(r).0.aru && r.ds[r.next].aru <= r.ds[j].aru
    {
      assert v[j].aru == r.ds[j].aru && v[r.next].aru == r.ds[r.next].aru;
      if j != r.next {
        assert AruRule.Rank(r.next, r.next, n) < AruRule.Rank(j, r.next, n);
      }
    }
  }

  /** A token visit keeps the invariant. */
  lemma TokenVisitKeepsInv(r: Ring.State, c: Choice)
    requires Inv(r)
    ensures Inv(Step(r, TokenVisit(c)))
  {
    hide DaemonOk;
    RuleFromInv(r);
    VisitKeepsRest(r, c);
  }

  lemma ReplaceOne(r: Ring.State, who: nat, d: Daemon.State, posted: seq<Message>)
    requires Rest(r) && who < |r.ds|
    requires d.me == who && Local(d, r.sent) && Fed(d, r.sent, posted)
    requires ViewOf(d).(my := 0, hi := 0) == ViewOf(r.ds[who]).(my := 0, hi := 0)
    requires d.nRetrans == r.ds[who].nRetrans && d.nSent == r.ds[who].nSent
    ensures Rest(r.(ds := r.ds[who := d], posted := r.posted[who := posted]))
  {
    hide Local, Fed;
    var r' := r.(ds := r.ds[who := d], posted := r.posted[who := posted]);
    LoadUpdate(r.ds, who, d);
    forall j: nat | j < |r'.ds|
      ensures DaemonOk(r', j)
    {
      assert DaemonOk(r, j);
    }
  }

  lemma PostFed(d: Daemon.State, sent: seq<Packet>, posted: seq<Message>, m: Message)
    requires Local(d, sent) && Fed(d, sent, posted) && MessageOk(m)
    ensures var e := Daemon.Post(d, m); Local(e, sent) && Fed(e, sent, posted + [m])
  {
    var e := Daemon.Post(d, m);
    Framed(d, e, sent, d.discarded, d.delivered);
    hide LogOk, StoreOk, Chain, Rebuilt, Bodies;
    assert Rebuilt(sent, d.me) + e.down.msgs == posted + [m];
  }

  /** A new message and an arriving packet leave everything but one daemon alone. */
  lemma PostKeepsRest(r: Ring.State, who: nat, m: Message)
    requires Rest(r)
    ensures var r' := Step(r, Post(who, m)); Rest(r') && Views(r'.ds) == Views(r.ds)
  {
    hide Local, Fed;
    if who < |r.ds| && MessageOk(m) {
      assert DaemonOk(r, who);
      LocalRuns(r.ds[who], r.sent);
      PostFed(r.ds[who], r.sent, r.posted[who], m);
      ReplaceOne(r, who, Daemon.Post(r.ds[who], m), r.posted[who] + [m]);
    }
  }

  lemma ArrivedDaemon(d: Daemon.State, sent: seq<Packet>, posted: seq<Message>, s: nat)
    requires Local(d, sent) && Fed(d, sent, posted) && 1 <= s <= |sent|
    ensures var e := Receive(d, sent[s - 1]);
            && Local(e, sent) && Fed(e, sent, posted)
            && ViewOf(e) == ViewOf(d).(my := e.my, hi := e.hi) && e.me == d.me
            && e.nRetrans == d.nRetrans && e.nSent == d.nSent
            && d.my <= e.my && d.hi <= e.hi <= |sent| && e.my <= e.hi <= Max(d.hi, s)
            && (s == d.my + 1 ==> e.my >= s)
  {
    LocalRuns(d, sent);
    assert sent[s - 1].seqNo == s;
    hide Fed, Core, Receive;
    ReceiveKeeps(d, sent, sent[s - 1]);
    var e := Receive(d, sent[s - 1]);
    LocalRuns(e, sent);
    FedFramed(d, e, sent, posted);
  }

  lemma ViewsSet(ds: seq<Daemon.State>, j: nat, d: Daemon.State)
    requires j < |ds|
    ensures Views(ds[j := d]) == Views(ds)[j := ViewOf(d)] && Views(ds) == Views(ds)[j := ViewOf(ds[j])]
  {
  }

  lemma RestDaemon(r: Ring.State, j: nat)
    requires Rest(r) && j < |r.ds|
    ensures |r.ds| == |r.posted| && r.ds[j].me == j && Local(r.ds[j], r.sent) && Fed(r.ds[j], r.sent, r.posted[j])
  {
    assert DaemonOk(r, j);
  }

  lemma ArriveOne(r: Ring.State, who: nat, s: nat)
    requires Rest(r) && who < |r.ds| && 1 <= s <= |r.sent|
    ensures var e := Receive(r.ds[who], r.sent[s - 1]);
            && Rest(r.(ds := r.ds[who := e]))
            && ViewOf(e) == ViewOf(r.ds[who]).(my := e.my, hi := e.hi)
            && r.ds[who].my <= e.my && r.ds[who].hi <= e.hi <= |r.sent| && e.my <= e.hi <= Max(r.ds[who].hi, s)
            && (s == r.ds[who].my + 1 ==> e.my >= s)
  {
    hide Fed, Core, Local, Receive, Rest;
    RestDaemon(r, who);
    ArrivedDaemon(r.ds[who], r.sent, r.posted[who], s);
    ReplaceOne(r, who, Receive(r.ds[who], r.sent[s - 1]), r.posted[who]);
    assert r.posted[who := r.posted[who]] == r.posted;
  }

  lemma ArriveKeepsRest(r: Ring.State, who: nat, s: nat)
    requires Rest(r)
    ensures var r' := Step(r, Arrive(who, s));
            && Rest(r')
            && (who < |r.ds| ==>
              var d, d' := r.ds[who], r'.ds[who];
              Views(r'.ds) == Views(r.ds)[who := ViewOf(d).(my := d'.my, hi := d'.hi)] && d.my <= d'.my &&
              d.hi <= d'.hi <= |r.sent| && d'.my <= d'.hi
              && (s == d.my + 1 && s <= |r.sent| ==> d'.my >= s) && d'.hi <= Max(d.hi, s))
  {
    hide Fed, Core, Local, Receive, Rest, Views;
    if who < |r.ds| {
      RestDaemon(r, who);
      LocalRuns(r.ds[who], r.sent);
      ViewsSet(r.ds, who, r.ds[who]);
      if 1 <= s <= |r.sent| {
        ArriveOne(r, who, s);
        ViewsSet(r.ds, who, Receive(r.ds[who], r.sent[s - 1]));
      }
    }
  }

  /** Every step keeps the invariant. */
  lemma StepKeepsInv(r: Ring.State, a: Action)
    requires Inv(r)
    ensures Inv(Step(r, a))
  {
    hide DaemonOk;
    match a
    case Post(who, m) => PostKeepsRest(r, who, m);
    case Arrive(who, s) =>
      ArriveKeepsRest(r, who, s);
      if who < |r.ds| {
        var d' := Step(r, a).ds[who];
        AruRule.ReceiveKeepsInv(Views(r.ds), MarkOf(r.t), r.next, who, d'.my, d'.hi);
      }
    case TokenVisit(c) => TokenVisitKeepsInv(r, c);
  }
}
