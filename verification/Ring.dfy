/** A ring of daemons, the packets made on it and its token, as a state machine.

    Packets may be lost, duplicated, delayed and reordered: any packet made on the ring may reach any
    daemon at any time, any number of times, or never. */
module Ring {
  import opened Packets
  import opened Daemon
  import opened DaemonInv
  import AruRule
  import Burst

  /** sent is every packet made so far; posted is every message given to each daemon. */
  datatype State = State(ds: seq<Daemon.State>, posted: seq<seq<Message>>, sent: seq<Packet>, t: Token, next: nat)

  datatype Action =
    | Post(who: nat, m: Message)        // a client's message reaches the down queue
    | Arrive(who: nat, s: nat)          // a copy of packet s arrives
    | TokenVisit(c: Choice)             // the token reaches the next daemon

  predicate Shape(r: State) {
    r.next < |r.ds| && |r.posted| == |r.ds|
  }

  /** One step.  A daemon that took a fatal exit does nothing any more. */
  function Step(r: State, a: Action): (r': State)
    requires Shape(r)
    ensures Shape(r') && |r'.ds| == |r.ds|
  {
    match a
    case Post(who, m) =>
      if who < |r.ds| && MessageOk(m) && !r.ds[who].exited then
        r.(ds := r.ds[who := Daemon.Post(r.ds[who], m)], posted := r.posted[who := r.posted[who] + [m]])
      else r
    case Arrive(who, s) =>
      if who < |r.ds| && 1 <= s <= |r.sent| then r.(ds := r.ds[who := Receive(r.ds[who], r.sent[s - 1])]) else r
    case TokenVisit(c) =>
      var v := Visit(r.ds[r.next], r.t, c);
      if v.d.exited then r.(ds := r.ds[r.next := v.d])
      else r.(ds := r.ds[r.next := v.d], sent := r.sent + v.made, t := v.t, next := AruRule.Next(r.next, |r.ds|))
  }

  /** A run. */
  function Exec(r: State, run: seq<Action>): (r': State)
    requires Shape(r)
    ensures Shape(r') && |r'.ds| == |r.ds|
    decreases |run|
  {
    if run == [] then r else Exec(Step(r, run[0]), run[1..])
  }

  function Views(ds: seq<Daemon.State>): (v: seq<AruRule.View>)
    ensures |v| == |ds|
  {
    seq(|ds|, i requires 0 <= i < |ds| => ViewOf(ds[i]))
  }

  /** The datagrams of everybody's last visit. */
  function Load(ds: seq<Daemon.State>): int {
    if ds == [] then 0 else Load(ds[..|ds| - 1]) + ds[|ds| - 1].nRetrans + ds[|ds| - 1].nSent
  }

  lemma {:induction false} LoadUpdate(ds: seq<Daemon.State>, j: nat, d: Daemon.State)
    requires j < |ds|
    ensures Load(ds[j := d]) == Load(ds) - ds[j].nRetrans - ds[j].nSent + d.nRetrans + d.nSent
  {
    var n := |ds| - 1;
    if j == n {
      assert ds[j := d][..n] == ds[..n];
    } else {
      assert ds[j := d][..n] == ds[..n][j := d];
      LoadUpdate(ds[..n], j, d);
    }
  }

  /** Packets in flight above any Aru stay far below the size of the circular packet store. */
  const MAX_LIVE: nat := Burst.MAX_SEQ_GAP + Burst.MAX_BURST

  ghost predicate DaemonOk(r: State, j: nat)
    requires j < |r.ds| == |r.posted|
  {
    && r.ds[j].me == j
    && Local(r.ds[j], r.sent)
    && Fed(r.ds[j], r.sent, r.posted[j])
    && |r.sent| <= r.ds[j].aru + MAX_LIVE
    && forall s | s in r.t.rtr :: r.ds[j].aru < s <= |r.sent|
  }

  /** Everything about a ring but its aru rule. */
  ghost predicate Rest(r: State) {
    && Shape(r)
    && r.t.seqNo == |r.sent|
    && r.t.fc == Load(r.ds)
    && forall j: nat | j < |r.ds| :: DaemonOk(r, j)
  }

  ghost predicate Inv(r: State) {
    Rest(r) && AruRule.Inv(Views(r.ds), MarkOf(r.t), r.next)
  }

  lemma {:induction false} OthersMade(sent: seq<Packet>, made: seq<Packet>, j: nat)
    requires forall i | 0 <= i < |made| :: made[i].sender != j
    ensures Rebuilt(sent + made, j) == Rebuilt(sent, j) && Chain(sent + made, j) == Chain(sent, j)
  {
    if made == [] {
      assert sent + made == sent;
    } else {
      var m, p := made[..|made| - 1], made[|made| - 1];
      assert sent + made == (sent + m) + [p];
      OthersMade(sent, m, j);
      ChainAppend(sent + m, p, j);
    }
  }

  lemma {:induction false} MadeBy(d: Daemon.State, n: nat)
    requires n <= |Lengths(d.down)|
    ensures |Made(d, n)| <= n
    ensures forall i | 0 <= i < |Made(d, n)| :: Made(d, n)[i].sender == d.me
    decreases n
  {
    if n > 0 && !d.exited {
      MadeBy(SendOne(d), n - 1);
    }
  }

  /** The rounds Send_new_packets makes at the next visit and the datagrams it counts. */
  function SendCount(r: State): (nat, nat)
    requires Shape(r)
  {
    var d0 := Raised(r.ds[r.next], r.t);
    BurstOf(d0, Burst.Allowed(r.t.fc, d0.hi, d0.aru))
  }

  /** The packets made at the next visit. */
  function NewPackets(r: State): seq<Packet>
    requires Shape(r)
  {
    Made(Raised(r.ds[r.next], r.t), SendCount(r).0)
  }

  /** The visited daemon after Send_new_packets. */
  function Sent(r: State): Daemon.State
    requires Shape(r)
  {
    SendMany(Raised(r.ds[r.next], r.t), SendCount(r).0)
  }

  /** Its My_aru just before the aru rule. */
  function SentMy(r: State): nat
    requires Shape(r)
  {
    Advance(Sent(r).store, Sent(r).my, Sent(r).hi)
  }

  /** The aru rule as applied at the next visit. */
  function Ruled(r: State): (AruRule.View, AruRule.Mark)
    requires Shape(r)
  {
    AruRule.VisitView(ViewOf(r.ds[r.next]), MarkOf(r.t), r.next, SentMy(r), Sent(r).hi)
  }
}
