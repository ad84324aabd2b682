/** The daemon of Daemon.dfy as protocol.c has it: counters updated in place, the circular packet array
    and the up queues.  Every handler is proved to do what its function in Daemon does, as long as no
    live packet lies more than the array's size above the last one discarded. */
module Protocol {
  import opened Packets
  import opened Daemon
  import AruRule
  import Burst

  const MAX_PACKETS_IN_STRUCT: nat := 8192

  /** An entry of the packet array: exist is 0 when it is free. */
  datatype Cell = Cell(exist: nat, p: Packet)

  /** A message pushed up to the sessions. */
  datatype Pushed = Pushed(sender: nat, m: Message)

  function SlotOf(c: Cell): Slot {
    if c.exist == 1 then Fresh(c.p) else if c.exist == 2 then Handed(c.p) else Hole
  }

  predicate Full(cells: seq<Cell>, s: nat)
    requires |cells| == MAX_PACKETS_IN_STRUCT
  {
    cells[s % MAX_PACKETS_IN_STRUCT].exist != 0
  }

  predicate Within(s: nat, lo: nat) {
    lo < s <= lo + MAX_PACKETS_IN_STRUCT
  }

  /** The packets in the array, seen as a map from their numbers. */
  function StoreOf(cells: seq<Cell>, lo: nat): Store
    requires |cells| == MAX_PACKETS_IN_STRUCT
  {
    map s: nat | lo < s <= lo + MAX_PACKETS_IN_STRUCT && Full(cells, s) :: SlotOf(cells[s % MAX_PACKETS_IN_STRUCT])
  }

  lemma StorePut(cells: seq<Cell>, lo: nat, s: nat, c: Cell)
    requires |cells| == MAX_PACKETS_IN_STRUCT && Within(s, lo)
    ensures var after := StoreOf(cells[s % MAX_PACKETS_IN_STRUCT := c], lo);
            after == if c.exist == 0 then StoreOf(cells, lo) - {s} else StoreOf(cells, lo)[s := SlotOf(c)]
  {
    hide SlotOf;
    var cells' := cells[s % MAX_PACKETS_IN_STRUCT := c];
    forall t: nat | Within(t, lo) && t != s
      ensures cells'[t % MAX_PACKETS_IN_STRUCT] == cells[t % MAX_PACKETS_IN_STRUCT]
    {
      EntriesDiffer(s, t, lo);
    }
  }

  lemma EntriesDiffer(s: nat, t: nat, lo: nat)
    requires Within(s, lo) && Within(t, lo) && s != t
    ensures s % MAX_PACKETS_IN_STRUCT != t % MAX_PACKETS_IN_STRUCT
  {
  }

  lemma StoreGet(cells: seq<Cell>, lo: nat, s: nat)
    requires |cells| == MAX_PACKETS_IN_STRUCT && Within(s, lo)
    ensures s in StoreOf(cells, lo) <==> Full(cells, s)
    ensures Full(cells, s) ==> StoreOf(cells, lo)[s] == SlotOf(cells[s % MAX_PACKETS_IN_STRUCT])
  {
  }

  lemma StoreAbove(cells: seq<Cell>, lo: nat)
    requires |cells| == MAX_PACKETS_IN_STRUCT
    ensures forall s | s in StoreOf(cells, lo) :: Within(s, lo)
  {
  }

  /** One round of the array further on the entry is the same. */
  lemma EntryBelow(s: nat)
    requires s >= MAX_PACKETS_IN_STRUCT
    ensures (s - MAX_PACKETS_IN_STRUCT) % MAX_PACKETS_IN_STRUCT == s % MAX_PACKETS_IN_STRUCT
  {
  }

  lemma NothingBeyond(cells: seq<Cell>, lo: nat, lo': nat, s: nat)
    requires |cells| == MAX_PACKETS_IN_STRUCT && lo <= lo' <= lo + MAX_PACKETS_IN_STRUCT
    requires forall t | t in StoreOf(cells, lo) :: t > lo'
    requires Within(s, lo') && Full(cells, s)
    ensures Within(s, lo)
  {
    hide StoreOf;
    if s > lo + MAX_PACKETS_IN_STRUCT {
      var t: nat := s - MAX_PACKETS_IN_STRUCT;
      EntryBelow(s);
      StoreGet(cells, lo, t);
    }
  }

  /** Moving the window over free entries changes nothing. */
  lemma StoreShift(cells: seq<Cell>, lo: nat, lo': nat)
    requires |cells| == MAX_PACKETS_IN_STRUCT && lo <= lo' <= lo + MAX_PACKETS_IN_STRUCT
    requires forall s | s in StoreOf(cells, lo) :: s > lo'
    ensures StoreOf(cells, lo') == StoreOf(cells, lo)
  {
    hide SlotOf, StoreOf;
    var was, now := StoreOf(cells, lo), StoreOf(cells, lo');
    StoreAbove(cells, lo);
    StoreAbove(cells, lo');
    forall s: nat
      ensures s in now <==> s in was
      ensures s in now ==> now[s] == was[s]
    {
      if s in now {
        StoreGet(cells, lo', s);
        NothingBeyond(cells, lo, lo', s);
        StoreGet(cells, lo, s);
      } else if s in was {
        StoreGet(cells, lo, s);
        StoreGet(cells, lo', s);
      }
    }
    assert now.Keys == was.Keys;
  }

  /** What was pushed up for one sender, in order. */
  function PushedBy(pushed: seq<Pushed>, x: nat): seq<Message> {
    if pushed == [] then [] else
      var rest := PushedBy(pushed[..|pushed| - 1], x);
      var last := pushed[|pushed| - 1];
      if last.sender == x then rest + [last.m] else rest
  }

  lemma PushedAppend(pushed: seq<Pushed>, last: Pushed, x: nat)
    ensures PushedBy(pushed + [last], x) ==
            if last.sender == x then PushedBy(pushed, x) + [last.m] else PushedBy(pushed, x)
  {
    assert (pushed + [last])[..|pushed|] == pushed;
  }

  /** The up queues and the messages pushed are those of the packets handed up. */
  ghost predicate Chained(up: seq<seq<Body>>, pushed: seq<Pushed>, log: seq<Packet>) {
    && |up| > 0 && up[|up| - 1] == []
    && forall x | 0 <= x < |up| - 1 :: up[x] == Bodies(Chain(log, x)) && PushedBy(pushed, x) == Rebuilt(log, x)
  }

  function UpIndex(p: Packet, procs: nat): nat {
    if Single(p) then procs else p.sender
  }

  function Position(p: Packet): nat {
    if p.index < 0 then -p.index else p.index
  }

  lemma ChainedCheck(up: seq<seq<Body>>, pushed: seq<Pushed>, log: seq<Packet>, p: Packet)
    requires Chained(up, pushed, log) && p.sender < |up| - 1
    ensures Accepts(log, p) <==> |up[UpIndex(p, |up| - 1)]| + 1 == Position(p)
  {
  }

  lemma ChainedAppend(up: seq<seq<Body>>, pushed: seq<Pushed>, log: seq<Packet>, p: Packet)
    requires Chained(up, pushed, log) && p.sender < |up| - 1
    requires Accepts(log, p)
    ensures var i := UpIndex(p, |up| - 1);
            var parts := up[i] + [p.body];
            if p.index < 0 then Chained(up[i := []], pushed + [Pushed(p.sender, Message(p.service, parts))], log + [p])
            else Chained(up[i := parts], pushed, log + [p])
  {
    var i := UpIndex(p, |up| - 1);
    var parts := up[i] + [p.body];
    var up' := if p.index < 0 then up[i := []] else up[i := parts];
    var last := Pushed(p.sender, Message(p.service, parts));
    var pushed' := if p.index < 0 then pushed + [last] else pushed;
    EmptyBodies();
    assert Single(p) ==> parts == [p.body];
    hide Chain, Bodies, Rebuilt, PushedBy;
    forall x | 0 <= x < |up| - 1
      ensures up'[x] == Bodies(Chain(log + [p], x)) && PushedBy(pushed', x) == Rebuilt(log + [p], x)
    {
      ChainAppend(log, p, x);
      PushedAppend(pushed, last, x);
      BodiesAppend(Chain(log, x), p);
    }
  }

  class Engine {
    const me: nat
    const procs: nat                          // daemons of the configuration
    const packets: array<Cell>                // Packets
    const upQueue: array<seq<Body>>           // Up_queue; its last entry is for overtaking packets
    var highestSeq: nat
    var myAru: nat
    var aru: nat
    var setAru: int
    var lastTokenAru: nat                     // Last_token->aru
    var lastDiscarded: nat
    var lastDelivered: nat
    var messages: seq<Message>                // Down_queue
    var curElement: nat
    var lastNumRetrans: nat
    var lastNumSent: nat
    var pushed: seq<Pushed>                   // messages given to the sessions
    var evs: bool                             // Memb_state() is EVS
    var exited: bool
    ghost var log: seq<Packet>                // packets given to Deliver_packet

    ghost predicate Valid()
      reads this, packets, upQueue
    {
      && packets.Length == MAX_PACKETS_IN_STRUCT && upQueue.Length == procs + 1
      && (forall e | 0 <= e < packets.Length && packets[e].exist != 0 :: packets[e].p.sender < procs)
      && DownOk(Down(messages, curElement))
      && Chained(upQueue[..], pushed, log)
      && (!exited ==> lastDiscarded <= highestSeq <= lastDiscarded + MAX_PACKETS_IN_STRUCT)
      && (!exited && !evs ==> lastDiscarded <= lastDelivered && lastDiscarded <= myAru <= highestSeq)
    }

    ghost function Abs(): Daemon.State
      reads this, packets, upQueue
      requires Valid()
    {
      Daemon.State(me, highestSeq, myAru, aru, setAru, lastTokenAru, lastDiscarded, lastDelivered,
                   StoreOf(packets[..], lastDiscarded), log, Down(messages, curElement), lastNumRetrans,
                   lastNumSent, exited)
    }

    /** The object is where the function said, unless both took a fatal exit. */
    ghost predicate Is(d: Daemon.State)
      reads this, packets, upQueue
    {
      Valid() && exited == d.exited && (!exited ==> Abs() == d)
    }

    /** Everything is as Prot_init leaves it. */
    constructor (me: nat, procs: nat)
      ensures Valid() && fresh(packets) && fresh(upQueue) && this.procs == procs
      ensures Abs() == Daemon.State(me, 0, 0, 0, -1, 0, 0, 0, map[], [], Down([], 0), 0, 0, false)
      ensures pushed == [] && !evs
    {
      this.me, this.procs := me, procs;
      var none := Packet(0, 0, Reliable, 0, []);
      packets := new Cell[MAX_PACKETS_IN_STRUCT](_ => Cell(0, none));
      upQueue := new seq<Body>[procs + 1](_ => []);
      highestSeq, myAru, aru, setAru, lastTokenAru, lastDiscarded, lastDelivered := 0, 0, 0, -1, 0, 0, 0;
      messages, curElement, lastNumRetrans, lastNumSent, pushed, evs, exited, log := [], 0, 0, 0, [], false, false, [];
      new;
      forall s: nat | Within(s, 0)
        ensures !Full(packets[..], s)
      {
        assert s % MAX_PACKETS_IN_STRUCT < packets.Length;
      }
      assert StoreOf(packets[..], 0) == map[];
      EmptyBodies();
    }

    method SetCell(s: nat, c: Cell)
      requires Valid() && Within(s, lastDiscarded)
      requires c.exist != 0 ==> c.p.sender < procs
      modifies packets
      ensures Valid()
      ensures var was := old(Abs());
              Abs() == was.(store := if c.exist == 0 then was.store - {s} else was.store[s := SlotOf(c)])
    {
      StorePut(packets[..], lastDiscarded, s, c);
      packets[s % MAX_PACKETS_IN_STRUCT] := c;
      assert packets[..] == old(packets[..])[s % MAX_PACKETS_IN_STRUCT := c];
    }

    method GetCell(s: nat) returns (c: Cell)
      requires Valid() && Within(s, lastDiscarded)
      ensures c.exist == 0 <==> s !in Abs().store
      ensures c.exist != 0 ==> Abs().store[s] == SlotOf(c) && c.p.sender < procs
    {
      c := packets[s % MAX_PACKETS_IN_STRUCT];
      StoreGet(packets[..], lastDiscarded, s);
    }

    /** The part of Deliver_packet that works on the up queue: check the order, chain the packet, and
        push the message up if this was its last packet. */
    method ChainPacket(p: Packet)
      requires Valid() && !exited && p.sender < procs
      modifies `exited, `pushed, `log, upQueue
      ensures Valid() && exited == !Accepts(old(log), p)
      ensures !exited ==> Abs() == old(Abs()).(log := old(log) + [p])
    {
      hide Chained, StoreOf, DownOk, Accepts, Position;
      var procIndex := UpIndex(p, procs);
      ChainedCheck(upQueue[..], pushed, log, p);
      if |upQueue[procIndex]| + 1 != Position(p) {
        exited := true;
        return;
      }
      ChainedAppend(upQueue[..], pushed, log, p);
      ghost var up := upQueue[..];
      var parts := upQueue[procIndex] + [p.body];
      if p.index < 0 {
        pushed := pushed + [Pushed(p.sender, Message(p.service, parts))];
        upQueue[procIndex] := [];
        assert upQueue[..] == up[procIndex := []];
      } else {
        upQueue[procIndex] := parts;
        assert upQueue[..] == up[procIndex := parts];
      }
      log := log + [p];
    }

    /** Deliver_packet on entry s of the packet array. */
    method DeliverPacket(s: nat)
      requires Valid() && !exited && Within(s, lastDiscarded)
      requires s in Abs().store && Abs().store[s].Fresh?
      modifies `exited, `pushed, `log, packets, upQueue
      ensures Is(Deliver(old(Abs()), s))
    {
      hide Chained, StoreOf, DownOk, Accepts, Within;
      var c := GetCell(s);
      ChainPacket(c.p);
      if !exited {
        SetCell(s, Cell(2, c.p));
      }
    }

    /** Hand up entry s if it was not yet, and free it. */
    method DropPacket(s: nat)
      requires Valid() && !exited && Within(s, lastDiscarded)
      requires s in Abs().store
      modifies `exited, `pushed, `log, packets, upQueue
      ensures var d := old(Abs());
              var e := if d.store[s].Fresh? then Deliver(d, s) else d;
              Is(e.(store := e.store - {s})) && (!exited ==> Abs().store.Keys == d.store.Keys - {s})
    {
      hide Chained, StoreOf, DownOk, Deliver, Within;
      var c := GetCell(s);
      if c.exist == 1 {
        DeliverKeys(Abs(), s);
        DeliverPacket(s);
      }
      if !exited {
        SetCell(s, Cell(0, c.p));
      }
    }

    /** Deliver_agreed_packets. */
    method DeliverAgreedPackets()
      requires Valid() && !evs
      modifies `exited, `pushed, `log, `lastDelivered, packets, upQueue
      ensures Is(DeliverAgreed(old(Abs())))
    {
      hide StoreOf, Chained, Deliver, DownOk;
      if exited || myAru <= lastDelivered {
        return;
      }
      var i := lastDelivered + 1;
      while i <= myAru
        invariant Valid() && !exited && i == lastDelivered + 1 <= myAru + 1
        invariant DeliverAgreed(Abs()) == DeliverAgreed(old(Abs()))
        decreases myAru + 1 - i
      {
        var c := GetCell(i);
        if c.exist == 1 {
          if c.p.service.Safe? {
            return;
          }
          ghost var d := Abs();
          DeliverPacket(i);
          lastDelivered := lastDelivered + 1;
          if exited {
            return;
          }
          assert Abs() == Deliver(d, i).(delivered := i);
        } else if c.exist == 2 {
          lastDelivered := lastDelivered + 1;
        } else {
          exited := true;
          return;
        }
        i := i + 1;
      }
    }

    /** Deliver_reliable_packets. */
    method DeliverReliablePackets(startSeq: int, numPackets: nat)
      requires Valid() && !evs && (!exited ==> startSeq + numPackets - 1 <= lastDiscarded + MAX_PACKETS_IN_STRUCT)
      modifies `exited, `pushed, `log, packets, upQueue
      ensures Is(DeliverReliable(old(Abs()), startSeq, numPackets))
    {
      hide StoreOf, Chained, Deliver, DownOk;
      if exited {
        return;
      }
      var endSeq := startSeq + numPackets - 1;
      var i := if startSeq <= lastDelivered then lastDelivered + 1 else startSeq;
      while i <= endSeq
        invariant Valid() && !exited && lastDelivered < i && endSeq <= lastDiscarded + MAX_PACKETS_IN_STRUCT
        invariant DeliverSingles(Abs(), i, endSeq) == DeliverReliable(old(Abs()), startSeq, numPackets)
        decreases endSeq - i
      {
        var c := GetCell(i);
        if c.exist == 1 && c.p.service.Reliable? && c.p.index == -1 {
          DeliverPacket(i);
          if exited {
            return;
          }
        }
        i := i + 1;
      }
    }

    /** Everything up to Aru was freed. */
    method SetDiscarded()
      requires Valid() && !evs && !exited && lastDiscarded < aru <= myAru
      requires forall s | s in Abs().store :: aru < s
      modifies `lastDelivered, `lastDiscarded
      ensures Valid()
      ensures Abs() == old(Abs()).(discarded := aru,
                                   delivered := if old(lastDelivered) < aru then aru else old(lastDelivered))
    {
      hide Chained, DownOk;
      StoreShift(packets[..], lastDiscarded, aru);
      lastDiscarded := aru;
      if lastDelivered < lastDiscarded {
        lastDelivered := lastDiscarded;
      }
    }

    /** Discard_packets outside EVS. */
    method DiscardPackets()
      requires Valid() && !evs && (!exited ==> aru <= myAru)
      modifies `exited, `pushed, `log, `lastDelivered, `lastDiscarded, packets, upQueue
      ensures Is(Discard(old(Abs())))
    {
      hide Chained, Deliver, DownOk, StoreOf, DiscardLoop;
      if exited || aru <= lastDiscarded {
        DiscardLoopEnd(Abs(), lastDiscarded + 1);
        return;
      }
      StoreAbove(packets[..], lastDiscarded);
      ghost var d := Abs();
      var i := lastDiscarded + 1;
      while i <= aru
        invariant Valid() && !exited && lastDiscarded == d.discarded && lastDiscarded < i <= aru + 1
        invariant DiscardLoop(Abs(), i) == DiscardLoop(d, d.discarded + 1)
        invariant forall s | s in Abs().store :: i <= s
      {
        DiscardLoopStep(Abs(), i);
        var c := GetCell(i);
        if c.exist == 0 {
          exited := true;
          return;
        }
        DropPacket(i);
        if exited {
          return;
        }
        i := i + 1;
      }
      DiscardLoopEnd(Abs(), i);
      SetDiscarded();
    }

    /** My_aru moves over the packets that are there. */
    method AdvanceMyAru()
      requires Valid() && !exited && lastDiscarded <= myAru
      modifies `myAru
      ensures Valid() && Abs() == old(Abs()).(my := Advance(old(Abs()).store, old(myAru), highestSeq))
    {
      hide Chained, DownOk, StoreOf, Within;
      var j := myAru + 1;
      while j <= highestSeq
        invariant Valid() && j == myAru + 1
        invariant Abs() == old(Abs()).(my := myAru)
        invariant Advance(Abs().store, myAru, highestSeq) == Advance(old(Abs()).store, old(myAru), highestSeq)
      {
        var c := GetCell(j);
        if c.exist == 0 {
          break;
        }
        myAru := myAru + 1;
        j := j + 1;
      }
    }

    /** Prot_handle_bcast on one packet of a datagram of this ring, outside EVS. */
    method HandlePacket(p: Packet)
      requires Valid() && !evs && (!exited ==> aru == lastDiscarded && p.seqNo <= lastDiscarded + MAX_PACKETS_IN_STRUCT)
      modifies `exited, `pushed, `log, `lastDelivered, `highestSeq, `myAru, packets, upQueue
      ensures if p.sender < procs then Is(Receive(old(Abs()), p)) else Is(old(Abs()))
    {
      hide Chained, DownOk, StoreOf, DeliverAgreed, Advance;
      if exited || p.seqNo <= aru {
        return;
      }
      var c := GetCell(p.seqNo);
      if c.exist != 0 || p.sender >= procs {
        return;
      }
      SetCell(p.seqNo, Cell(1, p));
      if highestSeq < p.seqNo {
        highestSeq := p.seqNo;
      }
      if p.seqNo == myAru + 1 {
        AdvanceMyAru();
        DeliverAgreedPackets();
      } else {
        DeliverReliablePackets(p.seqNo, 1);
      }
    }

    /** Prot_new_message. */
    method NewMessage(m: Message)
      requires Valid() && MessageOk(m)
      modifies `messages
      ensures Is(Post(old(Abs()), m))
    {
      hide Chained, StoreOf;
      if !exited {
        messages := messages + [m];
      }
    }

    /** One round of the loop of Send_new_packets: number the next part, queue it, store it. */
    method SendPart() returns (p: Packet)
      requires Valid() && !evs && !exited && messages != [] && me < procs
      requires highestSeq < lastDiscarded + MAX_PACKETS_IN_STRUCT
      modifies `exited, `highestSeq, `messages, `curElement, packets
      ensures p == NextPacket(old(Abs())) && Is(SendOne(old(Abs()))) && highestSeq == old(highestSeq) + 1
    {
      hide Chained, StoreOf, Within;
      var m := messages[0];
      highestSeq := highestSeq + 1;
      curElement := curElement + 1;
      var index;
      if curElement < |m.parts| {
        index := curElement;
      } else {
        index := -|m.parts|;
      }
      p := Packet(highestSeq, me, m.service, index, m.parts[curElement - 1]);
      if curElement == |m.parts| {
        messages := messages[1..];
        curElement := 0;
      }
      var c := GetCell(p.seqNo);
      if c.exist != 0 {
        exited := true;
        return;
      }
      SetCell(p.seqNo, Cell(1, p));
    }

    /** Send_new_packets: send while datagrams are allowed, count the datagrams. */
    method SendNewPackets(allowed: nat) returns (sent: nat, ghost n: nat)
      requires Valid() && !evs && !exited && me < procs && allowed <= Burst.PERSONAL_WINDOW
      requires highestSeq + Burst.MAX_BURST <= lastDiscarded + MAX_PACKETS_IN_STRUCT
      modifies `exited, `highestSeq, `messages, `curElement, packets
      ensures n == BurstOf(old(Abs()), allowed).0 <= |Lengths(old(Abs()).down)|
      ensures Is(SendMany(old(Abs()), n))
      ensures !exited ==> sent == BurstOf(old(Abs()), allowed).1 && highestSeq == old(highestSeq) + n
    {
      hide Chained, StoreOf, Burst.Enqueue, Burst.Take, SendOne, SendMany, Lengths, DownOk, NextPacket;
      ghost var d := Abs();
      n := BurstOf(d, allowed).0;
      Burst.VisitBound(Lengths(d.down), allowed);
      ghost var k := 0;
      var q := Burst.EMPTY;
      sent := 0;
      while sent < allowed
        invariant Valid() && !exited && k <= n && highestSeq == d.hi + k
        invariant n - k <= |Lengths(Abs().down)|
        invariant Burst.Take(Lengths(Abs().down), allowed, q, sent) == (n - k, BurstOf(d, allowed).1)
        invariant SendMany(Abs(), n - k) == SendMany(d, n)
        decreases n - k
      {
        if messages == [] {
          break;
        }
        TakeStep(Abs(), allowed, q, sent);
        var p := SendPart();
        if exited {
          return;
        }
        var (q', flushed) := Burst.Enqueue(q, Burst.PACKET_HEADER + |p.body|);
        q := q';
        if flushed {
          sent := sent + 1;
        }
        k := k + 1;
      }
      TakeEnd(Abs(), allowed, q, sent);
      if q.bytes > 0 {
        sent := sent + 1;
      }
    }

    /** The requests are for numbers the array can hold, and there are no holes. */
    ghost predicate Answerable(rtr: seq<nat>)
      reads this, packets, upQueue
      requires Valid()
    {
      forall s | s in rtr :: Within(s, lastDiscarded) && (s in Abs().store ==> !Abs().store[s].Hole?)
    }

    /** Answer_retrans on the requests of this ring: the packets that are sent again. */
    method AnswerRetrans(rtr: seq<nat>) returns (answers: seq<Packet>)
      requires Valid() && !exited
      modifies `exited
      ensures Valid() && exited == exists r :: r in rtr && r < aru
      ensures !exited ==> Abs() == old(Abs())
      ensures !exited && Answerable(rtr) ==> answers == Answers(Abs().store, rtr)
    {
      hide Chained, StoreOf, DownOk;
      answers := [];
      ghost var d := Abs();
      for i := 0 to |rtr|
        invariant !exited && forall k | 0 <= k < i :: rtr[k] >= aru
        invariant Answerable(rtr) ==> answers == Answers(d.store, rtr[..i])
      {
        if rtr[i] < aru {
          assert rtr[i] in rtr;
          exited := true;
          return;
        }
        var c := packets[rtr[i] % MAX_PACKETS_IN_STRUCT];
        if Answerable(rtr) {
          StoreGet(packets[..], lastDiscarded, rtr[i]);
          assert rtr[..i + 1] == rtr[..i] + [rtr[i]] && rtr[i] in rtr;
          assert rtr[..i + 1][..i] == rtr[..i];
        }
        if c.exist != 0 {
          answers := answers + [c.p];
        }
      }
      assert rtr[..|rtr|] == rtr;
    }

    /** The retransmission requests put on the token. */
    method Requests(room: int) returns (rtr: seq<nat>)
      requires Valid() && !evs && !exited
      ensures rtr == if myAru < highestSeq && room > 1 then Missing(Abs().store, myAru + 1, highestSeq, room) else []
    {
      hide Chained, StoreOf, Within, DownOk, Missing;
      ghost var d := Abs();
      rtr := [];
      if myAru < highestSeq && room > 1 {
        var i, left := myAru + 1, room;
        while i <= highestSeq && left > 0
          invariant myAru < i <= highestSeq + 1
          invariant rtr + Missing(d.store, i, d.hi, left) == Missing(d.store, d.my + 1, d.hi, room)
        {
          MissingStep(d.store, i, d.hi, left, rtr);
          var c := GetCell(i);
          if c.exist == 0 {
            rtr := rtr + [i];
          }
          i, left := i + 1, left - 1;
        }
        MissingEnd(d.store, i, d.hi, left);
      }
    }

    /** The aru rule on the token, and Aru. */
    method UpdateAru(t: Token, fc: int, rtr: seq<nat>) returns (t': Token)
      requires Valid() && !exited
      modifies `setAru, `aru, `lastTokenAru
      ensures Valid() && aru <= myAru
      ensures var d := old(Abs());
              var (w, m) := AruRule.VisitView(ViewOf(d), MarkOf(t), me, d.my, d.hi);
              && Abs() == d.(setAru := w.setAru, last := w.last, aru := w.aru)
              && t' == Token(m.aru, m.lastId, m.seqNo, fc, rtr)
    {
      hide Chained, StoreOf, DownOk;
      var tokenAru, lastId := t.aru, t.lastId;
      if tokenAru == setAru || lastId == me || tokenAru == t.seqNo {
        tokenAru, lastId := myAru, me;
        if myAru < highestSeq {
          setAru := myAru;
        } else {
          setAru := -1;
        }
      } else if tokenAru > myAru {
        tokenAru, lastId, setAru := myAru, me, myAru;
      } else {
        setAru := -1;
      }
      t' := Token(tokenAru, lastId, highestSeq, fc, rtr);
      if tokenAru > lastTokenAru {
        aru := lastTokenAru;
      } else {
        aru := tokenAru;
      }
      lastTokenAru := tokenAru;
    }

    /** Prot_handle_token up to the sending of new packets. */
    method AnswerAndSend(t: Token, c: Choice) returns (numSent: nat, answers: seq<Packet>)
      requires Valid() && !evs && !exited && me < procs
      requires highestSeq + Burst.MAX_BURST <= lastDiscarded + MAX_PACKETS_IN_STRUCT
      requires t.seqNo + Burst.MAX_BURST <= lastDiscarded + MAX_PACKETS_IN_STRUCT
      modifies `exited, `highestSeq, `messages, `curElement, packets
      ensures Valid() && (BadRequest(old(Abs()), t, c) ==> exited)
      ensures var d0 := Raised(old(Abs()), t);
              var (n, counted) := BurstOf(d0, Burst.Allowed(t.fc, d0.hi, d0.aru));
              !BadRequest(old(Abs()), t, c) ==>
                n <= |Lengths(d0.down)| && Is(SendMany(d0, n)) && (!exited ==> numSent == counted)
      ensures !exited && old(Answerable(t.rtr)) ==>
                answers == if c.hurried then [] else Answers(old(Abs()).store, t.rtr)
    {
      hide Chained, StoreOf, DownOk, BurstOf, SendMany, Lengths, Answers;
      numSent, answers := 0, [];
      if !c.hurried {
        answers := AnswerRetrans(t.rtr);
        if exited {
          return;
        }
      }
      if highestSeq < t.seqNo {
        highestSeq := t.seqNo;
      }
      ghost var n;
      numSent, n := SendNewPackets(Burst.Allowed(t.fc, highestSeq, aru));
    }

    /** Prot_handle_token from the sending of new packets to the sending of the token. */
    method PassOn(t: Token, c: Choice, numSent: nat) returns (t': Token)
      requires Valid() && !evs && !exited
      modifies `lastNumRetrans, `lastNumSent, `myAru, `setAru, `aru, `lastTokenAru
      ensures Valid() && aru <= myAru
      ensures var d := old(Abs());
              var my := Advance(d.store, d.my, d.hi);
              var (w, m) := AruRule.VisitView(ViewOf(d), MarkOf(t), me, my, d.hi);
              var rtr := if my < d.hi && c.room > 1 then Missing(d.store, my + 1, d.hi, c.room) else [];
              && Abs() == d.(my := my, nRetrans := c.retrans, nSent := numSent, setAru := w.setAru, last := w.last,
                             aru := w.aru)
              && t' == Token(m.aru, m.lastId, m.seqNo, t.fc - d.nRetrans - d.nSent + c.retrans + numSent, rtr)
    {
      hide Chained, StoreOf, DownOk, Missing, Advance;
      var fc := t.fc - lastNumRetrans - lastNumSent + c.retrans + numSent;
      AdvanceMyAru();
      var rtr := Requests(c.room);
      t' := UpdateAru(t, fc, rtr);
      lastNumRetrans, lastNumSent := c.retrans, numSent;
    }

    /** Prot_handle_token outside EVS up to the sending of the token. */
    method PassToken(t: Token, c: Choice) returns (t': Token, numSent: nat, answers: seq<Packet>)
      requires Valid() && !evs && !exited && me < procs
      requires highestSeq + Burst.MAX_BURST <= lastDiscarded + MAX_PACKETS_IN_STRUCT
      requires t.seqNo + Burst.MAX_BURST <= lastDiscarded + MAX_PACKETS_IN_STRUCT
      modifies `exited, `highestSeq, `messages, `curElement, `lastNumRetrans, `lastNumSent, `myAru, `setAru, `aru,
          `lastTokenAru, packets
      ensures var v := Visit1(old(Abs()), t, c);
              && Is(v.d)
              && (!exited ==> t' == v.t && numSent == v.counted && aru <= myAru)
      ensures !exited && old(Answerable(t.rtr)) ==>
                answers == if c.hurried then [] else Answers(old(Abs()).store, t.rtr)
    {
      hide Chained, StoreOf, DownOk, BurstOf, Missing, Made, SendMany, Advance, BadRequest, Raised, Lengths, Answers,
          Answerable;
      t' := t;
      numSent, answers := AnswerAndSend(t, c);
      if exited {
        return;
      }
      t' := PassOn(t, c, numSent);
    }

    /** Prot_handle_token outside EVS. */
    method HandleToken(t: Token, c: Choice) returns (t': Token, answers: seq<Packet>)
      requires Valid() && !evs && me < procs
      requires !exited ==> highestSeq + Burst.MAX_BURST <= lastDiscarded + MAX_PACKETS_IN_STRUCT
      requires !exited ==> t.seqNo + Burst.MAX_BURST <= lastDiscarded + MAX_PACKETS_IN_STRUCT
      modifies this, packets, upQueue
      ensures Is(Visit(old(Abs()), t, c).d)
      ensures !exited ==> t' == Visit(old(Abs()), t, c).t
      ensures !exited && old(Answerable(t.rtr)) ==>
                answers == if c.hurried then [] else Answers(old(Abs()).store, t.rtr)
    {
      hide Chained, StoreOf, DownOk, Visit1, Discard, DeliverAgreed, DeliverReliable, Answers, Answerable;
      t', answers := t, [];
      if exited {
        VisitExited(Abs(), t, c);
        return;
      }
      var numSent;
      t', numSent, answers := PassToken(t, c);
      if exited {
        return;
      }
      DiscardPackets();
      ghost var d := Discard(Visit1(old(Abs()), t, c).d);
      if exited {
        ExitedStays(d, d.hi - numSent + 1, numSent);
        return;
      }
      DeliverAgreedPackets();
      d := DeliverAgreed(d);
      if exited {
        ExitedStays(d, d.hi - numSent + 1, numSent);
        return;
      }
      DeliverReliablePackets(highestSeq - numSent + 1, numSent);
    }
  }

  lemma TakeStep(d: Daemon.State, allowed: nat, q: Burst.Queue, sent: nat)
    requires d.down.msgs != [] && sent < allowed && !d.exited
    ensures var (q', flushed) := Burst.Enqueue(q, Burst.PACKET_HEADER + |NextPacket(d).body|);
            var e := SendOne(d);
            var (n, s) := Burst.Take(Lengths(d.down), allowed, q, sent);
            && |Lengths(d.down)| == |Lengths(e.down)| + 1
            && (n - 1, s) == Burst.Take(Lengths(e.down), allowed, q', if flushed then sent + 1 else sent)
            && SendMany(d, n) == SendMany(e, n - 1) && (e.exited ==> SendMany(d, n) == e)
  {
    hide Burst.Enqueue;
    assert Lengths(d.down) == [|NextPacket(d).body|] + Lengths(SendOne(d).down);
    assert Lengths(d.down)[1..] == Lengths(SendOne(d).down);
  }

  lemma MissingStep(store: Store, i: nat, hi: nat, room: int, before: seq<nat>)
    requires i <= hi && room > 0
    ensures before + Missing(store, i, hi, room) ==
            (if i !in store then before + [i] else before) + Missing(store, i + 1, hi, room - 1)
  {
  }

  lemma MissingEnd(store: Store, i: nat, hi: nat, room: int)
    requires i > hi || room <= 0
    ensures Missing(store, i, hi, room) == []
  {
  }

  lemma ExitedStays(d: Daemon.State, start: int, num: nat)
    requires d.exited
    ensures DeliverAgreed(d) == d && DeliverReliable(d, start, num) == d
  {
  }

  lemma VisitExited(d: Daemon.State, t: Token, c: Choice)
    requires d.exited
    ensures Visit(d, t, c).d == d
  {
  }

  lemma TakeEnd(d: Daemon.State, allowed: nat, q: Burst.Queue, sent: nat)
    requires d.down.msgs == [] || sent >= allowed
    ensures Burst.Take(Lengths(d.down), allowed, q, sent) == (0, if q.bytes > 0 then sent + 1 else sent)
    ensures SendMany(d, 0) == d
  {
  }

  lemma DiscardLoopStep(d: Daemon.State, i: nat)
    requires !d.exited && i <= d.aru
    ensures if i !in d.store then DiscardLoop(d, i) == d.(exited := true)
            else
              var e := if d.store[i].Fresh? then Deliver(d, i) else d;
              DiscardLoop(d, i) == DiscardLoop(e.(store := e.store - {i}), i + 1) &&
              (e.exited ==> DiscardLoop(d, i).exited)
  {
  }

  lemma DiscardLoopEnd(d: Daemon.State, i: nat)
    requires d.exited || i > d.aru
    ensures DiscardLoop(d, i) == d
  {
  }

  lemma DeliverKeys(d: Daemon.State, s: nat)
    requires s in d.store && d.store[s].Fresh?
    ensures Deliver(d, s).store.Keys == d.store.Keys
  {
  }
}
