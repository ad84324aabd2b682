/** The guarantees of one ring: of every state that some run from a good start reaches. */
module RingTheorems {
  import opened Packets
  import opened Daemon
  import opened DaemonInv
  import opened Ring
  import opened RingInv
  import opened RingSafety
  import AruRule
  import Burst
  import Protocol

  ghost predicate Reachable(r: Ring.State) {
    exists start, run :: Start(start) && GoodStart(start) && r == Exec(start, run)
  }

  lemma ReachableRuns(r: Ring.State)
    requires Reachable(r)
    ensures Running(r) && Shape(r)
  {
    hide GoodStart, Inv;
    var start, run :| Start(start) && GoodStart(start) && r == Exec(start, run);
    RunKeeps(start, run);
  }

  lemma ReachableDaemon(r: Ring.State, j: nat)
    requires Reachable(r) && j < |r.ds|
    ensures Shape(r) && DaemonOk(r, j)
    ensures r.ds[j].delivered <= |r.sent|
  {
    ReachableRuns(r);
    hide DaemonOk;
    RunningRest(r);
    DaemonFacts(r, j);
  }

  lemma DaemonFacts(r: Ring.State, j: nat)
    requires j < |r.ds| == |r.posted| && DaemonOk(r, j)
    ensures r.ds[j].delivered <= |r.sent|
  {
  }

  /** The daemon has packet s of the ring, or had it and discarded it. */
  ghost predicate Holds(d: Daemon.State, sent: seq<Packet>, s: nat)
    requires s <= |sent|
  {
    1 <= s ==> s <= d.discarded || (s in d.store && d.store[s] in {Fresh(sent[s - 1]), Handed(sent[s - 1])})
  }

  lemma HoldsUpTo(d: Daemon.State, sent: seq<Packet>, s: nat)
    requires Local(d, sent) && s <= d.my
    ensures s <= |sent| && Holds(d, sent, s)
  {
  }

  /** No daemon takes a fatal exit; no Aru exceeds what any daemon has received without a gap, so
      everything up to any Aru is, or was, at every daemon; every request on the token is above every Aru. */
  lemma AruSafety(r: Ring.State, j: nat, k: nat)
    requires Reachable(r) && j < |r.ds| && k < |r.ds|
    ensures !r.ds[j].exited
    ensures r.ds[j].aru <= r.ds[k].my <= |r.sent|
    ensures forall s: nat | 1 <= s <= r.ds[j].aru :: Holds(r.ds[k], r.sent, s)
    ensures forall s | s in r.t.rtr :: r.ds[j].aru < s
  {
    ReachableRuns(r);
    ReachableDaemon(r, j);
    ReachableDaemon(r, k);
    hide Core, Fed, Rest;
    LocalRuns(r.ds[j], r.sent);
    LocalRuns(r.ds[k], r.sent);
    if Start(r) {
      assert Entered(r.ds[j], j);
    } else {
      assert Views(r.ds)[j].aru <= Views(r.ds)[k].last <= Views(r.ds)[k].my;
    }
    forall s: nat | 1 <= s <= r.ds[j].aru
      ensures Holds(r.ds[k], r.sent, s)
    {
      HoldsUpTo(r.ds[k], r.sent, s);
    }
  }

  lemma VisitLog(d: Daemon.State, t: Token, c: Choice)
    ensures d.log <= Visit(d, t, c).d.log
  {
  }

  lemma VisitMonotone(r: Ring.State, c: Choice, j: nat)
    requires Running(r) && j < |r.ds|
    ensures var r' := Step(r, TokenVisit(c));
            r.ds[j].aru <= r'.ds[j].aru && r.ds[j].log <= r'.ds[j].log && r.sent <= r'.sent
  {
    RunningRest(r);
    hide Rest, Sent, SentMy, Visit;
    if Start(r) {
      FirstRuleOk(r);
    } else {
      RuleFromInv(r);
    }
    VisitKeepsRest(r, c);
    VisitLog(r.ds[r.next], r.t, c);
    ViewsAt(Step(r, TokenVisit(c)).ds, r.next);
  }

  lemma StepMonotone(r: Ring.State, a: Action, j: nat)
    requires Running(r) && j < |r.ds|
    ensures var r' := Step(r, a);
            r.ds[j].aru <= r'.ds[j].aru && r.ds[j].log <= r'.ds[j].log && r.sent <= r'.sent
  {
    RunningRest(r);
    hide Rest, Visit;
    match a
    case Post(who, m) =>
    case Arrive(who, s) =>
      ArriveKeepsRest(r, who, s);
      ViewsAt(r.ds, j);
      ViewsAt(Step(r, a).ds, j);
    case TokenVisit(c) => VisitMonotone(r, c, j);
  }

  lemma {:induction false} RunMonotone(r: Ring.State, more: seq<Action>, j: nat)
    requires Running(r) && j < |r.ds|
    ensures var r' := Exec(r, more);
            r.ds[j].aru <= r'.ds[j].aru && r.ds[j].log <= r'.ds[j].log && r.sent <= r'.sent
    decreases |more|
  {
    if more != [] {
      StepMonotone(r, more[0], j);
      StepKeepsRunning(r, more[0]);
      RunMonotone(Step(r, more[0]), more[1..], j);
    }
  }

  /** Nobody's Aru ever falls, and what was handed up or made on the ring stays so. */
  lemma Monotone(r: Ring.State, more: seq<Action>, j: nat)
    requires Reachable(r) && j < |r.ds| && Shape(r)
    ensures var r' := Exec(r, more);
            r.ds[j].aru <= r'.ds[j].aru && r.ds[j].log <= r'.ds[j].log && r.sent <= r'.sent
  {
    ReachableRuns(r);
    RunMonotone(r, more, j);
  }

  /** A SAFE packet is handed up only when every daemon of the ring has it. */
  lemma SafeDelivery(r: Ring.State, j: nat, k: nat, i: nat)
    requires Reachable(r) && j < |r.ds| && k < |r.ds|
    requires i < |r.ds[j].log| && r.ds[j].log[i].service.Safe?
    ensures var p := r.ds[j].log[i];
            1 <= p.seqNo <= |r.sent| && r.sent[p.seqNo - 1] == p && Holds(r.ds[k], r.sent, p.seqNo)
  {
    AruSafety(r, j, k);
    ReachableDaemon(r, j);
    hide Holds, Fed;
  }

  /** Packet number s is in the log. */
  ghost predicate Logged(log: seq<Packet>, s: nat) {
    exists i :: 0 <= i < |log| && log[i].seqNo == s
  }

  lemma {:induction false} OnceMeans(log: seq<Packet>)
    requires Once(log)
    ensures forall i, i' | 0 <= i < i' < |log| :: log[i].seqNo != log[i'].seqNo
    ensures forall s: nat :: s in Seqs(log) <==> Logged(log, s)
  {
    if log != [] {
      var r := log[..|log| - 1];
      OnceMeans(r);
      assert forall i | 0 <= i < |r| :: r[i] == log[i] && Logged(r, r[i].seqNo);
      forall s: nat
        ensures s in Seqs(log) <==> Logged(log, s)
      {
        if s in Seqs(r) {
          var i :| 0 <= i < |r| && r[i].seqNo == s;
          assert log[i].seqNo == s;
        }
      }
    }
  }

  /** No packet is handed up twice at a daemon; everything up to its Aru was handed up; and only packets
      made on the ring are. */
  lemma ExactlyOnce(r: Ring.State, j: nat)
    requires Reachable(r) && j < |r.ds|
    ensures var log := r.ds[j].log;
            && (forall i, i' | 0 <= i < i' < |log| :: log[i].seqNo != log[i'].seqNo)
            && (forall i | 0 <= i < |log| :: 1 <= log[i].seqNo <= |r.sent| && log[i] == r.sent[log[i].seqNo - 1])
            && (forall s: nat | 1 <= s <= r.ds[j].aru :: Logged(log, s))
  {
    ReachableDaemon(r, j);
    hide StoreOk, Fed, Ord, InSequence;
    OnceMeans(r.ds[j].log);
    hide Logged, Seqs, Once;
  }

  lemma OrdOfLog(r: Ring.State, j: nat)
    requires Reachable(r) && j < |r.ds|
    ensures r.ds[j].delivered <= |r.sent| && Ord(r.ds[j].log) == Ord(r.sent[..r.ds[j].delivered])
  {
    ReachableDaemon(r, j);
  }

  /** The ordered packets that two daemons handed up are prefixes of one sequence, that of the ordered
      packets made. */
  lemma TotalOrder(r: Ring.State, j: nat, k: nat)
    requires Reachable(r) && j < |r.ds| && k < |r.ds|
    ensures var a, b := Ord(r.ds[j].log), Ord(r.ds[k].log);
            a <= Ord(r.sent) && b <= Ord(r.sent) && (a <= b || b <= a)
  {
    OrdOfLog(r, j);
    OrdOfLog(r, k);
    OrdPrefix(r.sent, r.ds[j].delivered);
    OrdPrefix(r.sent, r.ds[k].delivered);
  }

  lemma {:induction false} OrdPrefix(s: seq<Packet>, n: nat)
    requires n <= |s|
    ensures Ord(s[..n]) <= Ord(s)
  {
    if n < |s| {
      OrdPrefix(s[..|s| - 1], n);
      assert s[..|s| - 1][..n] == s[..n];
    } else {
      assert s[..n] == s;
    }
  }

  /** The circular packet array never confuses two packets: of the packets of the ring that a daemon has
      not discarded, received already or not, no two fall on one entry. */
  lemma NoAliasing(r: Ring.State, j: nat, s: nat, t: nat)
    requires Reachable(r) && j < |r.ds|
    requires r.ds[j].discarded < s <= |r.sent| && r.ds[j].discarded < t <= |r.sent|
    requires s % Protocol.MAX_PACKETS_IN_STRUCT == t % Protocol.MAX_PACKETS_IN_STRUCT
    ensures s == t
    ensures |r.sent| <= r.ds[j].discarded + MAX_LIVE < r.ds[j].discarded + Protocol.MAX_PACKETS_IN_STRUCT
  {
    hide Core, Fed, Reachable;
    LiveSpan(r, j);
    CloseNumbers(s, t);
  }

  lemma LiveSpan(r: Ring.State, j: nat)
    requires Reachable(r) && j < |r.ds|
    ensures |r.sent| <= r.ds[j].discarded + MAX_LIVE < r.ds[j].discarded + Protocol.MAX_PACKETS_IN_STRUCT
  {
    hide Core, Fed, Reachable;
    ReachableDaemon(r, j);
  }

  lemma CloseNumbers(s: nat, t: nat)
    requires s < t + Protocol.MAX_PACKETS_IN_STRUCT && t < s + Protocol.MAX_PACKETS_IN_STRUCT
    requires s % Protocol.MAX_PACKETS_IN_STRUCT == t % Protocol.MAX_PACKETS_IN_STRUCT
    ensures s == t
  {
  }

  ghost predicate SendersKnown(r: Ring.State) {
    forall i | 0 <= i < |r.sent| :: r.sent[i].sender < |r.ds|
  }

  lemma StepSenders(r: Ring.State, a: Action)
    requires Running(r) && SendersKnown(r)
    ensures SendersKnown(Step(r, a))
  {
    RunningRest(r);
    hide Rest, Visit, NewPackets, RuleOk, Inv, Start;
    if a.TokenVisit? {
      SendingBounds(r);
      if Start(r) {
        FirstRuleOk(r);
      } else {
        RuleFromInv(r);
      }
      VisitKeeps(r, a.c);
    }
  }

  lemma {:induction false} RunSenders(r: Ring.State, run: seq<Action>)
    requires Running(r) && SendersKnown(r)
    ensures SendersKnown(Exec(r, run))
    decreases |run|
  {
    if run != [] {
      StepSenders(r, run[0]);
      StepKeepsRunning(r, run[0]);
      RunSenders(Step(r, run[0]), run[1..]);
    }
  }

  /** Whatever packet of the ring arrives and whenever the token comes, the handlers working on the packet
      array find what they need: the packet's sender is a daemon of the ring, and neither the packet nor any
      packet the daemon may make at the visit lies beyond the array. */
  lemma ArrayFits(r: Ring.State, j: nat, s: nat)
    requires Reachable(r) && j < |r.ds| && 1 <= s <= |r.sent|
    ensures r.sent[s - 1].seqNo == s && r.sent[s - 1].sender < |r.ds|
    ensures var d := r.ds[j];
            && !d.exited && d.aru == d.discarded <= d.my && s <= d.discarded + Protocol.MAX_PACKETS_IN_STRUCT
            && d.hi + Burst.MAX_BURST <= d.discarded + Protocol.MAX_PACKETS_IN_STRUCT
            && r.t.seqNo + Burst.MAX_BURST <= d.discarded + Protocol.MAX_PACKETS_IN_STRUCT
  {
    ReachableDaemon(r, j);
    ReachableRuns(r);
    RunningRest(r);
    var start, run :| Start(start) && GoodStart(start) && r == Exec(start, run);
    hide GoodStart, Inv, DaemonOk, Core, Fed;
    RunSenders(start, run);
    assert DaemonOk(r, j) ==> Local(r.ds[j], r.sent);
    LocalRuns(r.ds[j], r.sent);
  }

  /** The token's flow_control is at every hop the number of datagrams of everybody's last visit. */
  lemma FlowControlConserved(r: Ring.State)
    requires Reachable(r)
    ensures r.t.fc == Load(r.ds)
  {
    ReachableRuns(r);
    RunningRest(r);
  }

  lemma {:induction false} RebuiltPrefix(s: seq<Packet>, n: nat, x: nat)
    requires n <= |s|
    ensures Rebuilt(s[..n], x) <= Rebuilt(s, x)
  {
    if n < |s| {
      RebuiltPrefix(s[..|s| - 1], n, x);
      assert s[..|s| - 1][..n] == s[..n];
    } else {
      assert s[..n] == s;
    }
  }

  lemma LogInSequence(r: Ring.State, j: nat)
    requires Reachable(r) && j < |r.ds|
    ensures InSequence(r.ds[j].log) && InSequence(r.sent)
  {
    ReachableDaemon(r, j);
  }

  lemma PostedIs(r: Ring.State, x: nat)
    requires Reachable(r) && x < |r.ds|
    ensures Shape(r) && r.posted[x] == Rebuilt(r.sent, x) + r.ds[x].down.msgs
  {
    ReachableDaemon(r, x);
  }

  /** Fragmentation and reassembly: the messages a daemon pushes up for another one, overtaking ones
      aside, are a first part of those posted there, unchanged and in order; and what was posted is
      exactly what the packets made rebuild, followed by what still waits. */
  lemma MessagesInOrder(r: Ring.State, j: nat, x: nat)
    requires Reachable(r) && j < |r.ds| && x < |r.ds|
    ensures Shape(r) && r.ds[j].delivered <= |r.sent|
    ensures r.posted[x] == Rebuilt(r.sent, x) + r.ds[x].down.msgs
    ensures Ordered(Rebuilt(r.ds[j].log, x)) == Ordered(Rebuilt(r.sent[..r.ds[j].delivered], x))
    ensures Ordered(Rebuilt(r.ds[j].log, x)) <= Ordered(r.posted[x])
  {
    PostedIs(r, x);
    OrdOfLog(r, j);
    LogInSequence(r, j);
    var d := r.ds[j];
    hide Reachable, InSequence;
    InSequencePrefix(r.sent, d.delivered);
    RebuiltOfOrd(d.log, x);
    RebuiltOfOrd(r.sent[..d.delivered], x);
    RebuiltPrefix(r.sent, d.delivered, x);
    var part := Rebuilt(r.sent[..d.delivered], x);
    assert r.posted[x][..|part|] == part;
    OrderedPrefix(r.posted[x], |part|);
  }

  /** A message rebuilt from packets is an overtaking one only if one packet made it. */
  lemma {:induction false} SinglesRebuilt(s: seq<Packet>, i: nat, x: nat)
    requires i < |s| && Single(s[i]) && s[i].sender == x
    ensures Message(s[i].service, [s[i].body]) in Rebuilt(s, x)
  {
    if i < |s| - 1 {
      SinglesRebuilt(s[..|s| - 1], i, x);
    }
  }

  lemma {:induction false} RebuiltFrom(log: seq<Packet>, ord: seq<Message>, all: seq<Message>, x: nat)
    requires InSequence(log)
    requires Ordered(Rebuilt(log, x)) == ord
    requires forall m | m in ord :: m in all
    requires forall i | 0 <= i < |log| && Single(log[i]) && log[i].sender == x ::
             Message(log[i].service, [log[i].body]) in all
    ensures forall m | m in Rebuilt(log, x) :: m in all
  {
    if log != [] {
      var r, p := log[..|log| - 1], log[|log| - 1];
      assert r + [p] == log;
      InSequencePrefix(log, |log| - 1);
      ChainAppend(r, p, x);
      assert AcceptedAt(log, |log| - 1);
      var rr, rl := Rebuilt(r, x), Rebuilt(log, x);
      if rl != rr {
        assert rl == rr + [rl[|rl| - 1]];
        OrderedAppend(rr, rl[|rl| - 1]);
      }
      assert forall m | m in Ordered(rr) :: m in ord;
      RebuiltFrom(r, Ordered(rr), all, x);
    }
  }

  /** Every message pushed up, overtaking or not, was posted by its sender. */
  lemma NothingInvented(r: Ring.State, j: nat, x: nat, m: Message)
    requires Reachable(r) && j < |r.ds| && x < |r.ds|
    requires m in Rebuilt(r.ds[j].log, x)
    ensures Shape(r) && m in r.posted[x]
  {
    MessagesInOrder(r, j, x);
    LogInSequence(r, j);
    ExactlyOnce(r, j);
    var log := r.ds[j].log;
    hide Reachable, InSequence, Logged;
    forall i | 0 <= i < |log| && Single(log[i]) && log[i].sender == x
      ensures Message(log[i].service, [log[i].body]) in r.posted[x]
    {
      SinglesRebuilt(r.sent, log[i].seqNo - 1, x);
    }
    OrderedSubset(r.posted[x]);
    RebuiltFrom(log, Ordered(Rebuilt(log, x)), r.posted[x], x);
  }

  lemma {:induction false} OrderedSubset(ms: seq<Message>)
    ensures forall m | m in Ordered(ms) :: m in ms
  {
    if ms != [] {
      OrderedSubset(ms[..|ms| - 1]);
    }
  }
}
