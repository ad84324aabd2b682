/** What holds over every run of a ring, from the first token visit in OP on. */
module RingSafety {
  import opened Packets
  import opened Daemon
  import opened DaemonInv
  import opened Ring
  import opened RingInv
  import AruRule
  import Burst

  /** The sequence number of a form token is at least this much above every Highest_seq. */
  const FORM_GAP: nat := 3333

  /** A daemon that has just entered OP: Discard_packets reset its counters; messages may wait. */
  predicate Entered(d: Daemon.State, me: nat) {
    && d.me == me && d.hi == d.my == d.aru == d.last == d.discarded == d.delivered == 0
    && d.setAru == -1 && d.store == map[] && d.log == [] && d.down.cur == 0 && !d.exited
  }

  predicate Quiet(d: Daemon.State) {
    d.nRetrans == 0 && d.nSent == 0
  }

  /** The token reaches the first daemon that entered OP; all the others have entered OP since.  The
      token still carries the aru of the recovery phase, which is the sequence number of the form token
      (0 if a daemon already cleared it), and seq 0.  Nothing was sent during recovery, and unless the
      visited daemon set the aru last, nothing had to be retransmitted either. */
  predicate Start(r: Ring.State) {
    && Shape(r)
    && r.sent == []
    && (forall j: nat | j < |r.ds| :: Entered(r.ds[j], j) && r.posted[j] == r.ds[j].down.msgs)
    && r.t.seqNo == 0 && r.t.rtr == [] && r.t.fc == Load(r.ds)
    && (r.t.aru == 0 || r.t.aru >= FORM_GAP)
    && (r.t.lastId != r.next ==> forall j: nat | j < |r.ds| :: Quiet(r.ds[j]))
  }

  /** The aru rule starts well: nobody will take a Set_aru of the first visit for its own later. */
  predicate GoodStart(r: Ring.State) {
    |r.ds| <= 2 || r.t.aru == 0 || r.t.lastId == r.next
  }

  lemma EmptyChain(me: nat)
    ensures Chain([], me) == [] && Rebuilt([], me) == [] && Bodies([]) == [] && Ord([]) == [] && Seqs([]) == {}
  {
  }

  lemma EnteredLocal(d: Daemon.State, me: nat)
    requires Entered(d, me)
    ensures Local(d, []) && Fed(d, [], d.down.msgs)
  {
    EmptyChain(me);
  }

  lemma StartRest(r: Ring.State)
    requires Start(r)
    ensures Rest(r)
  {
    forall j: nat | j < |r.ds|
      ensures DaemonOk(r, j)
    {
      assert Entered(r.ds[j], j);
      EnteredLocal(r.ds[j], j);
    }
  }

  /** Nothing sent yet, or the invariant. */
  ghost predicate Running(r: Ring.State) {
    (Start(r) && GoodStart(r)) || Inv(r)
  }

  /** At the first visit Aru stays 0. */
  lemma FirstRuleOk(r: Ring.State)
    requires Start(r)
    ensures RuleOk(r) && Ruled(r).0.aru == 0
    ensures SentMy(r) == Sent(r).hi <= Burst.MAX_BURST
  {
    StartRest(r);
    assert Entered(r.ds[r.next], r.next);
    hide Sent, SentMy, NewPackets, Rest;
    SendingMy(r);
    SendingKeeps(r);
    SendingBounds(r);
    assert forall j: nat | j < |r.ds| :: Entered(r.ds[j], j);
  }

  lemma FirstVisitKeeps(r: Ring.State, c: Choice)
    requires Start(r) && GoodStart(r)
    ensures Inv(Step(r, TokenVisit(c)))
  {
    FirstRuleOk(r);
    StartRest(r);
    hide Sent, SentMy, Rest;
    VisitKeepsRest(r, c);
    var v := Views(r.ds);
    forall j | 0 <= j < |v|
      ensures v[j] == AruRule.View(0, 0, -1, 0, 0)
    {
      assert Entered(r.ds[j], j);
    }
    AruRule.FirstVisit(v, MarkOf(r.t), r.next, Sent(r).hi);
  }

  lemma PostEntered(d: Daemon.State, me: nat, m: Message)
    requires Entered(d, me) && MessageOk(m)
    ensures var e := Daemon.Post(d, m);
            !d.exited && Entered(e, me) && e.down.msgs == d.down.msgs + [m] && e.nRetrans == d.nRetrans &&
            e.nSent == d.nSent
  {
  }

  lemma PostKeepsStart(r: Ring.State, who: nat, m: Message)
    requires Start(r) && GoodStart(r)
    ensures Start(Step(r, Post(who, m))) && GoodStart(Step(r, Post(who, m)))
  {
    if who < |r.ds| && MessageOk(m) {
      var d := r.ds[who];
      assert Entered(d, who);
      PostEntered(d, who, m);
      hide Entered, Daemon.Post, MessageOk;
      LoadUpdate(r.ds, who, Daemon.Post(d, m));
      assert Quiet(d) <==> Quiet(Daemon.Post(d, m));
    }
  }

  lemma StepKeepsRunning(r: Ring.State, a: Action)
    requires Running(r)
    ensures Running(Step(r, a))
  {
    hide Inv;
    if Inv(r) {
      StepKeepsInv(r, a);
    } else {
      match a
      case Post(who, m) => PostKeepsStart(r, who, m);
      case Arrive(who, s) =>
      case TokenVisit(c) => FirstVisitKeeps(r, c);
    }
  }

  /** The invariant holds over every run that starts well. */
  lemma {:induction false} RunKeeps(r: Ring.State, run: seq<Action>)
    requires Running(r)
    ensures Running(Exec(r, run))
    decreases |run|
  {
    if run != [] {
      StepKeepsRunning(r, run[0]);
      RunKeeps(Step(r, run[0]), run[1..]);
    }
  }

  lemma RunningRest(r: Ring.State)
    requires Running(r)
    ensures Rest(r)
  {
    if Start(r) {
      StartRest(r);
    }
  }
}
