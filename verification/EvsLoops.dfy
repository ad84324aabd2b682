/** Read_form2 and the EVS branch of Discard_packets as they work in place on the packet array. */
module EvsLoops {
  import opened Packets
  import opened Daemon
  import opened DaemonInv
  import opened Form1
  import opened Protocol
  import Evs

  lemma MarkHolesStep(d: State, holes: seq<nat>, i: nat)
    requires i < |holes| && !Evs.MarkHoles(d, holes[..i]).exited
    ensures var e := Evs.MarkHoles(d, holes[..i]);
            Evs.MarkHoles(d, holes[..i + 1]) ==
            if holes[i] in e.store then e.(exited := true) else e.(store := e.store[holes[i] := Hole])
  {
    assert holes[..i + 1][..i] == holes[..i];
  }

  lemma {:induction false} MarkHolesExits(d: State, holes: seq<nat>, i: nat)
    requires i <= |holes| && Evs.MarkHoles(d, holes[..i]).exited
    ensures Evs.MarkHoles(d, holes) == Evs.MarkHoles(d, holes[..i])
    decreases |holes| - i
  {
    if i < |holes| {
      assert holes[..i + 1][..i] == holes[..i];
      MarkHolesExits(d, holes, i + 1);
    } else {
      assert holes[..i] == holes;
    }
  }

  /** The dummy packets for the holes. */
  method MarkHoles(g: Engine, holes: seq<nat>)
    requires g.Valid() && !g.exited && g.me < g.procs
    requires forall h | h in holes :: Within(h, g.lastDiscarded)
    modifies g`exited, g.packets
    ensures g.Is(Evs.MarkHoles(old(g.Abs()), holes))
  {
    hide Chained, StoreOf, DownOk, Within, Evs.MarkHoles;
    ghost var d := g.Abs();
    MarkHolesNone(d);
    for i := 0 to |holes|
      invariant g.Valid() && !g.exited && g.Abs() == Evs.MarkHoles(d, holes[..i])
    {
      MarkHolesStep(d, holes, i);
      var c := g.GetCell(holes[i]);
      if c.exist != 0 {
        MarkHolesExits(d, holes, i + 1);
        g.exited := true;
        return;
      }
      g.SetCell(holes[i], Cell(3, Packet(0, g.me, Reliable, 0, [])));
    }
    assert holes[..|holes|] == holes;
  }

  lemma MarkHolesNone(d: State)
    ensures forall holes: seq<nat> :: Evs.MarkHoles(d, holes[..0]) == d
  {
  }

  /** Read_form2 on the entry of the daemon's ring.  Highest_seq, which discarding does not read here, is set
      after it. */
  method ReadForm2(g: Engine, e: Entry)
    requires g.Valid() && !g.exited && !g.evs && g.me < g.procs
    requires g.lastDiscarded <= e.aru <= g.myAru && e.aru <= e.highest <= e.aru + MAX_PACKETS_IN_STRUCT
    requires forall h | h in e.holes :: Within(h, e.aru)
    modifies g, g.packets, g.upQueue
    ensures g.Is(Evs.ReadForm2(old(g.Abs()), e)) && g.evs
  {
    hide Chained, StoreOf, DownOk, Within, Evs.MarkHoles, Discard;
    ghost var d := g.Abs().(aru := e.aru);
    DiscardAbove(d, e.highest);
    g.aru := e.aru;
    g.DiscardPackets();
    g.evs := true;
    if g.exited {
      MarkHolesStuck(Discard(d.(hi := e.highest)), e.holes);
      g.lastTokenAru := 0;
      return;
    }
    g.highestSeq := e.highest;
    MarkHoles(g, e.holes);
    g.lastTokenAru := 0;
  }

  lemma MarkHolesStuck(d: State, holes: seq<nat>)
    requires d.exited
    ensures Evs.MarkHoles(d, holes) == d
  {
  }

  lemma BeforeStep(d: State, i: nat)
    requires !d.exited && i <= d.hi
    ensures if i !in d.store then Evs.HandUpBefore(d, i) == d.(exited := true)
            else if d.store[i].Hole? || d.store[i].p.service.Safe? then Evs.HandUpBefore(d, i) == d
            else
              var e := if d.store[i].Fresh? then Deliver(d, i) else d;
              var f := e.(store := e.store - {i}, discarded := i);
              Evs.HandUpBefore(d, i) == Evs.HandUpBefore(f, i + 1) && (f.exited ==> Evs.HandUpBefore(d, i) == f)
  {
  }

  lemma AfterStep(d: State, i: nat, hole: bool, commit: seq<nat>)
    requires !d.exited && i <= d.hi
    ensures var r := Evs.HandUpAfter(d, i, hole, commit);
            if i !in d.store then r == d.(exited := true)
            else if d.store[i].Hole? then r == Evs.HandUpAfter(d.(store := d.store - {i}), i + 1, true, commit)
            else
              var e := if (!hole || d.store[i].p.sender in commit) && d.store[i].Fresh? then Deliver(d, i) else d;
              var f := e.(store := e.store - {i});
              r == Evs.HandUpAfter(f, i + 1, hole, commit) && (f.exited ==> r == f)
  {
  }

  lemma LoopsEnd(d: State, i: nat, hole: bool, commit: seq<nat>)
    requires d.exited || i > d.hi
    ensures Evs.HandUpBefore(d, i) == d && Evs.HandUpAfter(d, i, hole, commit) == d
  {
  }

  /** The number in the window above lo whose entry is that of number s. */
  function Seat(s: nat, lo: nat): (r: nat)
    ensures Within(r, lo) && r % MAX_PACKETS_IN_STRUCT == s % MAX_PACKETS_IN_STRUCT
    ensures Within(s, lo) ==> r == s
  {
    lo + 1 + (s - (lo + 1)) % MAX_PACKETS_IN_STRUCT
  }

  /** Prot_handle_bcast in EVS on the array: the packet goes to its entry, whatever number that entry stands for. */
  function Put(d: State, p: Packet): State {
    var s := Seat(p.seqNo, d.discarded);
    if d.exited || p.seqNo <= d.aru || s in d.store then d else
      var store := d.store[s := Fresh(p)];
      var hi := if d.hi < p.seqNo then p.seqNo else d.hi;
      d.(store := store, hi := hi, my := if p.seqNo == d.my + 1 then Advance(store, d.my, hi) else d.my)
  }

  /** A packet of the window goes where it belongs. */
  lemma PutInserts(d: State, p: Packet)
    requires Within(p.seqNo, d.discarded)
    ensures Put(d, p) == Evs.Insert(d, p)
  {
  }

  /** Prot_handle_bcast on a packet of the old ring in EVS. */
  method HandlePacket(g: Engine, p: Packet)
    requires g.Valid() && g.evs && (!g.exited ==> g.lastDiscarded <= g.myAru)
    requires !g.exited ==> p.seqNo <= g.lastDiscarded + MAX_PACKETS_IN_STRUCT
    modifies g`highestSeq, g`myAru, g.packets
    ensures if p.sender < g.procs then g.Is(Put(old(g.Abs()), p)) else g.Is(old(g.Abs()))
  {
    hide Chained, DownOk, StoreOf, Advance;
    if g.exited || p.seqNo <= g.aru {
      return;
    }
    var s := Seat(p.seqNo, g.lastDiscarded);
    var c := g.GetCell(s);
    if c.exist != 0 || p.sender >= g.procs {
      return;
    }
    g.SetCell(s, Cell(1, p));
    if g.highestSeq < p.seqNo {
      g.highestSeq := p.seqNo;
    }
    if p.seqNo == g.myAru + 1 {
      g.AdvanceMyAru();
    }
  }

  /** Prot_handle_token in EVS: commit when nothing is missing, and the aru rule. */
  method CommitToken(g: Engine, t: Token, lastSeq: nat) returns (t': Token)
    requires g.Valid() && g.evs && !g.exited && g.lastDiscarded <= g.myAru
    modifies g`myAru, g`setAru, g`aru, g`lastTokenAru
    ensures g.Is(Evs.Commit(old(g.Abs()), t, lastSeq)) && g.aru <= g.myAru
    ensures t' == Evs.TokenAfter(old(g.Abs()), t, lastSeq)
  {
    hide Chained, DownOk, StoreOf, Advance;
    g.AdvanceMyAru();
    if g.myAru == g.highestSeq {
      g.myAru := lastSeq;
    }
    t' := g.UpdateAru(t, t.fc, t.rtr);
    t' := t'.(seqNo := t.seqNo);
  }

  /** Last_discarded moves on over one freed entry. */
  method DiscardedOne(g: Engine, i: nat)
    requires g.Valid() && g.evs && !g.exited && g.lastDiscarded + 1 == i <= g.highestSeq
    requires i !in g.Abs().store
    modifies g`lastDiscarded
    ensures g.Valid() && g.Abs() == old(g.Abs()).(discarded := i)
  {
    hide Chained, DownOk;
    StoreAbove(g.packets[..], g.lastDiscarded);
    StoreShift(g.packets[..], g.lastDiscarded, i);
    g.lastDiscarded := i;
  }

  /** The loop before the transitional signal. */
  method RecoverBefore(g: Engine)
    requires g.Valid() && g.evs && !g.exited
    modifies g`exited, g`pushed, g`log, g`lastDiscarded, g.packets, g.upQueue
    ensures g.Is(Evs.HandUpBefore(old(g.Abs()), old(g.lastDiscarded) + 1))
  {
    hide Chained, DownOk, StoreOf, Deliver, Evs.HandUpBefore;
    ghost var d := g.Abs();
    var i := g.lastDiscarded + 1;
    while i <= g.highestSeq
      invariant g.Valid() && !g.exited && g.lastDiscarded == i - 1
      invariant Evs.HandUpBefore(g.Abs(), i) == Evs.HandUpBefore(d, d.discarded + 1)
    {
      BeforeStep(g.Abs(), i);
      var c := g.GetCell(i);
      if c.exist == 0 {
        g.exited := true;
        return;
      }
      if c.exist != 1 && c.exist != 2 {
        return;
      }
      if c.p.service.Safe? {
        return;
      }
      g.DropPacket(i);
      if g.exited {
        return;
      }
      DiscardedOne(g, i);
      i := i + 1;
    }
    LoopsEnd(g.Abs(), i, false, []);
  }

  /** The loop after the transitional signal. */
  method RecoverAfter(g: Engine, commit: seq<nat>)
    requires g.Valid() && g.evs && !g.exited
    modifies g`exited, g`pushed, g`log, g.packets, g.upQueue
    ensures g.Is(Evs.HandUpAfter(old(g.Abs()), g.lastDiscarded + 1, false, commit))
  {
    hide Chained, DownOk, StoreOf, Deliver, Evs.HandUpAfter;
    ghost var d := g.Abs();
    var i := g.lastDiscarded + 1;
    var foundHole := false;
    while i <= g.highestSeq
      invariant g.Valid() && !g.exited && g.lastDiscarded < i
      invariant Evs.HandUpAfter(g.Abs(), i, foundHole, commit) == Evs.HandUpAfter(d, d.discarded + 1, false, commit)
    {
      AfterStep(g.Abs(), i, foundHole, commit);
      var c := g.GetCell(i);
      if c.exist == 0 {
        g.exited := true;
        return;
      }
      if c.exist != 1 && c.exist != 2 {
        foundHole := true;
        g.SetCell(i, Cell(0, c.p));
      } else if !foundHole || c.p.sender in commit {
        g.DropPacket(i);
        if g.exited {
          return;
        }
      } else {
        g.SetCell(i, Cell(0, c.p));
      }
      i := i + 1;
    }
    LoopsEnd(g.Abs(), i, foundHole, commit);
  }

  /** The store of the same array seen from another window: entries keep their places, not their numbers. */
  function Reseated(store: Store, lo: nat, lo': nat): Store {
    map s: nat | lo' < s <= lo' + MAX_PACKETS_IN_STRUCT && Seat(s, lo) in store :: store[Seat(s, lo)]
  }

  lemma SameSeats(cells: seq<Cell>, lo: nat, lo': nat)
    requires |cells| == MAX_PACKETS_IN_STRUCT
    ensures StoreOf(cells, lo') == Reseated(StoreOf(cells, lo), lo, lo')
  {
    forall s: nat | Within(s, lo')
      ensures s in StoreOf(cells, lo') <==> Seat(s, lo) in StoreOf(cells, lo)
      ensures s in StoreOf(cells, lo') ==> StoreOf(cells, lo')[s] == StoreOf(cells, lo)[Seat(s, lo)]
    {
      StoreGet(cells, lo', s);
      StoreGet(cells, lo, Seat(s, lo));
    }
  }

  lemma EmptySeats(lo: nat, lo': nat)
    ensures Reseated(map[], lo, lo') == map[]
  {
  }

  lemma NothingChained(n: nat)
    ensures Chained(seq(n + 1, _ => []), [], [])
  {
    EmptyBodies();
  }

  /** What is chained in the up queues is dropped. */
  method ClearUpQueue(g: Engine)
    requires g.Valid()
    modifies g`pushed, g`log, g.upQueue
    ensures g.Valid() && g.Abs() == old(g.Abs()).(log := [])
  {
    hide Chained, StoreOf, DownOk;
    for x := 0 to g.upQueue.Length
      invariant forall k | 0 <= k < x :: g.upQueue[k] == []
    {
      g.upQueue[x] := [];
    }
    NothingChained(g.procs);
    assert g.upQueue[..] == seq(g.procs + 1, _ => []);
    g.pushed, g.log := [], [];
  }

  /** The state with which the next ring starts: what is left in the array has the numbers of the new window. */
  function Restarted(d: State): State {
    var e := Evs.Reset(d);
    e.(store := Reseated(d.store, d.discarded, 0))
  }

  /** The up queues and all variables are made ready for the next ring. */
  method ResetAll(g: Engine)
    requires g.Valid() && g.evs && !g.exited
    modifies g, g.upQueue
    ensures g.Is(Restarted(old(g.Abs()))) && !g.evs
  {
    hide Chained, StoreOf, Reseated;
    SameSeats(g.packets[..], g.lastDiscarded, 0);
    ClearUpQueue(g);
    g.curElement := 0;
    g.highestSeq, g.myAru, g.aru, g.setAru, g.lastTokenAru, g.lastDiscarded, g.lastDelivered := 0, 0, 0, -1, 0, 0, 0;
    g.evs := false;
  }

  /** The daemon after both loops. */
  function Looped(d: State, commit: seq<nat>): State {
    var b := Evs.HandUpBefore(d, d.discarded + 1);
    Evs.HandUpAfter(b, b.discarded + 1, false, commit)
  }

  /** Discard_packets in EVS once Aru is the sequence number of the form token. */
  method Recover(g: Engine, commit: seq<nat>) returns (ghost before: seq<Packet>, ghost all: seq<Packet>)
    requires g.Valid() && g.evs && !g.exited
    modifies g, g.packets, g.upQueue
    ensures g.Is(Restarted(Looped(old(g.Abs()), commit))) && g.exited == Evs.Recover(old(g.Abs()), commit).d.exited
    ensures !g.exited && Evs.Recover(old(g.Abs()), commit).d.store == map[] ==>
            g.Abs() == Evs.Recover(old(g.Abs()), commit).d
    ensures !g.exited ==>
              && before == Evs.Recover(old(g.Abs()), commit).before
              && all == Evs.Recover(old(g.Abs()), commit).log && !g.evs
  {
    hide Chained, DownOk, StoreOf, Evs.HandUpBefore, Evs.HandUpAfter, Reseated;
    before, all := [], [];
    ghost var b := Evs.HandUpBefore(g.Abs(), g.lastDiscarded + 1);
    RecoverBefore(g);
    if g.exited {
      LoopsEnd(b, b.discarded + 1, false, commit);
      return;
    }
    before := g.log;
    RecoverAfter(g, commit);
    if g.exited {
      return;
    }
    all := g.log;
    EmptySeats(g.lastDiscarded, 0);
    ResetAll(g);
  }
}
