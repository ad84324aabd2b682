/** One daemon of a ring, as a value: the counters of protocol.c, the packet store as a map from
    sequence numbers, and what was handed up.  The functions follow the handlers step by step;
    Protocol.dfy has the same handlers working in place on the circular packet array. */
module Daemon {
  import opened Packets
  import opened AruRule
  import Burst

  /** An entry of the packet store: exist is 1 (not handed up), 2 (handed up) or 3 (a hole that no
      surviving daemon can fill). */
  datatype Slot = Fresh(p: Packet) | Handed(p: Packet) | Hole

  type Store = map<nat, Slot>

  /** The down queue: messages waiting to be sent and how many parts of the first one were taken. */
  datatype Down = Down(msgs: seq<Message>, cur: nat)

  /** Messages have parts, and every part fits a packet. */
  predicate MessageOk(m: Message) {
    m.parts != [] && forall i | 0 <= i < |m.parts| :: |m.parts[i]| <= Burst.MAX_BODY
  }

  predicate DownOk(q: Down) {
    && (forall i | 0 <= i < |q.msgs| :: MessageOk(q.msgs[i]))
    && (if q.msgs == [] then q.cur == 0 else q.cur < |q.msgs[0].parts|)
  }

  type DownQueue = q: Down | DownOk(q) witness Down([], 0)

  /** The down queue after its next part was taken. */
  function PopPart(q: DownQueue): DownQueue
    requires q.msgs != []
  {
    if q.cur + 1 < |q.msgs[0].parts| then q.(cur := q.cur + 1) else Down(q.msgs[1..], 0)
  }

  /** The body lengths of the parts waiting, in order. */
  function Lengths(q: DownQueue): (r: seq<nat>)
    ensures forall i | 0 <= i < |r| :: r[i] <= Burst.MAX_BODY
    decreases |q.msgs|, if q.msgs == [] then 0 else |q.msgs[0].parts| - q.cur
  {
    if q.msgs == [] then [] else
      [|q.msgs[0].parts[q.cur]|] + Lengths(PopPart(q))
  }

  /** The regular token.  rtr holds the requests made on this ring. */
  datatype Token = Token(aru: nat, lastId: int, seqNo: nat, fc: int, rtr: seq<nat>)

  datatype State = State(
    me: nat,
    hi: nat,                 // Highest_seq
    my: nat,                 // My_aru
    aru: nat,                // Aru
    setAru: int,             // Set_aru
    last: nat,               // Last_token->aru
    discarded: nat,          // Last_discarded
    delivered: nat,          // Last_delivered
    store: Store,            // Packets
    log: seq<Packet>,        // everything given to Deliver_packet, in order
    down: DownQueue,         // Down_queue
    nRetrans: nat,           // Last_num_retrans
    nSent: nat,              // Last_num_sent
    exited: bool)            // a fatal exit was taken

  function ViewOf(d: State): View {
    View(d.my, d.hi, d.setAru, d.last, d.aru)
  }

  function MarkOf(t: Token): Mark {
    Mark(t.aru, t.lastId, t.seqNo)
  }

  /** Deliver_packet on a packet of the store that was not handed up yet. */
  function Deliver(d: State, s: nat): (e: State)
    requires s in d.store && d.store[s].Fresh?
    ensures d.log <= e.log
  {
    var p := d.store[s].p;
    d.(log := d.log + [p], store := d.store[s := Handed(p)], exited := d.exited || !Accepts(d.log, p))
  }

  /** Deliver_agreed_packets: hand up what is in order, up to the first SAFE packet. */
  function DeliverAgreed(d: State): (e: State)
    ensures d.log <= e.log
    decreases d.my - d.delivered
  {
    if d.exited || d.my <= d.delivered then d else
      var i := d.delivered + 1;
      if i !in d.store then d.(exited := true)
      else match d.store[i]
        case Fresh(p) =>
          if p.service.Safe? then d else DeliverAgreed(Deliver(d, i).(delivered := i))
        case Handed(_) => DeliverAgreed(d.(delivered := i))
        case Hole => d.(exited := true)
  }

  /** The loop of Deliver_reliable_packets over i .. end. */
  function DeliverSingles(d: State, i: nat, end: int): (e: State)
    ensures d.log <= e.log
    decreases end - i
  {
    if d.exited || i > end then d
    else if i in d.store && d.store[i].Fresh? && Single(d.store[i].p) then DeliverSingles(Deliver(d, i), i + 1, end)
    else DeliverSingles(d, i + 1, end)
  }

  /** Deliver_reliable_packets: hand up the overtaking packets among num packets from start on. */
  function DeliverReliable(d: State, start: int, num: nat): State {
    DeliverSingles(d, if start <= d.delivered then d.delivered + 1 else start, start + num - 1)
  }

  /** The loop of Discard_packets outside EVS, from i on: hand up what was not, drop everything up to Aru. */
  function DiscardLoop(d: State, i: nat): (e: State)
    ensures d.log <= e.log
    decreases d.aru - i
  {
    if d.exited || i > d.aru then d
    else if i !in d.store then d.(exited := true)
    else
      var e := if d.store[i].Fresh? then Deliver(d, i) else d;
      DiscardLoop(e.(store := e.store - {i}), i + 1)
  }

  function Discard(d: State): State {
    if d.aru <= d.discarded then d else
      var e := DiscardLoop(d, d.discarded + 1);
      if e.exited then e else
        e.(discarded := e.aru, delivered := if e.delivered < e.aru then e.aru else e.delivered)
  }

  /** My_aru after walking over the packets that are there. */
  function Advance(store: Store, my: nat, hi: nat): (r: nat)
    ensures my <= r && (my <= hi ==> r <= hi)
    decreases hi - my
  {
    if my < hi && my + 1 in store then Advance(store, my + 1, hi) else my
  }

  /** Prot_handle_bcast on one packet of this ring, outside EVS. */
  function Receive(d: State, p: Packet): State {
    if d.exited || p.seqNo <= d.aru || p.seqNo in d.store then d else
      var store := d.store[p.seqNo := Fresh(p)];
      var hi := if d.hi < p.seqNo then p.seqNo else d.hi;
      if p.seqNo == d.my + 1 then
        DeliverAgreed(d.(store := store, hi := hi, my := Advance(store, d.my, hi)))
      else
        DeliverReliable(d.(store := store, hi := hi), p.seqNo, 1)
  }

  /** The next packet to send, with its sequence number. */
  function NextPacket(d: State): Packet
    requires d.down.msgs != []
  {
    var m, cur := d.down.msgs[0], d.down.cur;
    Packet(d.hi + 1, d.me, m.service, if cur + 1 < |m.parts| then cur + 1 else -|m.parts|, m.parts[cur])
  }

  /** One round of the loop of Send_new_packets. */
  function SendOne(d: State): State
    requires d.down.msgs != []
  {
    var p := NextPacket(d);
    var d' := d.(hi := d.hi + 1, down := PopPart(d.down));
    if d.hi + 1 in d.store then d'.(exited := true) else d'.(store := d.store[d.hi + 1 := Fresh(p)])
  }

  /** n rounds of that loop. */
  function SendMany(d: State, n: nat): (e: State)
    requires n <= |Lengths(d.down)|
    ensures d.log <= e.log
    decreases n
  {
    if n == 0 || d.exited then d else SendMany(SendOne(d), n - 1)
  }

  /** The packets those rounds make. */
  function Made(d: State, n: nat): seq<Packet>
    requires n <= |Lengths(d.down)|
    decreases n
  {
    if n == 0 || d.exited then [] else [NextPacket(d)] + Made(SendOne(d), n - 1)
  }

  /** The rounds Send_new_packets makes and the datagrams it counts. */
  function BurstOf(d: State, allowed: nat): (nat, nat) {
    Burst.Take(Lengths(d.down), allowed, Burst.EMPTY, 0)
  }

  /** The retransmission requests: what is missing from My_aru + 1 on, looking at up to room numbers. */
  function Missing(store: Store, from: nat, hi: nat, room: int): (r: seq<nat>)
    ensures forall s | s in r :: from <= s <= hi && s !in store
    decreases hi + 1 - from
  {
    if from > hi || room <= 0 then [] else
      (if from !in store then [from] else []) + Missing(store, from + 1, hi, room - 1)
  }

  /** What the environment decides of a token visit: the number of retransmissions that were sent, the
      number of requests that fit on the token, and whether the token was sent again by
      Prot_token_hurry, which drops its requests. */
  datatype Choice = Choice(retrans: nat, room: int, hurried: bool)

  /** The outcome of a token visit: the daemon, the token sent on, the datagrams counted as new and the
      packets made. */
  datatype Visited = Visited(d: State, t: Token, counted: nat, made: seq<Packet>)

  function Raised(d: State, t: Token): State {
    d.(hi := if d.hi < t.seqNo then t.seqNo else d.hi)
  }

  /** A request below Aru makes Answer_retrans exit. */
  predicate BadRequest(d: State, t: Token, c: Choice) {
    !c.hurried && exists r :: r in t.rtr && r < d.aru
  }

  /** The packets Answer_retrans sends again: those requested that are there, in the order of the requests. */
  function Answers(store: Store, rtr: seq<nat>): seq<Packet> {
    if rtr == [] then [] else
      var s := rtr[|rtr| - 1];
      Answers(store, rtr[..|rtr| - 1]) + if s in store && !store[s].Hole? then [store[s].p] else []
  }

  /** Prot_handle_token outside EVS, up to the sending of the token: answer requests, send, count, ask
      for retransmissions, apply the aru rule. */
  function Visit1(d: State, t: Token, c: Choice): Visited
  {
    if d.exited then Visited(d, t, 0, [])
    else if BadRequest(d, t, c) then Visited(d.(exited := true), t, 0, [])
    else
      var d0 := Raised(d, t);
      var (n, counted) := BurstOf(d0, Burst.Allowed(t.fc, d0.hi, d0.aru));
      var made := Made(d0, n);
      var d1 := SendMany(d0, n);
      if d1.exited then Visited(d1, t, 0, made) else
        var fc := t.fc - d.nRetrans - d.nSent + c.retrans + counted;
        var my := Advance(d1.store, d1.my, d1.hi);
        var rtr := if my < d1.hi && c.room > 1 then Missing(d1.store, my + 1, d1.hi, c.room) else [];
        var (w, m) := VisitView(ViewOf(d1), MarkOf(t), d.me, my, d1.hi);
        Visited(
          d1.(my := my, nRetrans := c.retrans, nSent := counted, setAru := w.setAru, last := w.last, aru := w.aru),
          Token(m.aru, m.lastId, m.seqNo, fc, rtr), counted, made)
  }

  /** The rest of Prot_handle_token: discard and hand up. */
  function Visit2(d: State, counted: nat): State {
    if d.exited then d else
      var f := DeliverAgreed(Discard(d));
      DeliverReliable(f, f.hi - counted + 1, counted)
  }

  function Visit(d: State, t: Token, c: Choice): Visited
  {
    var v := Visit1(d, t, c);
    v.(d := Visit2(v.d, v.counted))
  }

  /** Prot_new_message: the message is put at the end of the down queue. */
  function Post(d: State, m: Message): State
    requires MessageOk(m)
  {
    if d.exited then d else d.(down := d.down.(msgs := d.down.msgs + [m]))
  }
}
