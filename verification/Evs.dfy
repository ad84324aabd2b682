/** Recovery: what a daemon does from the FORM2 token to the regular membership, and the packets it hands up
    before and after the transitional signal. */
module Evs {
  import opened Packets
  import opened Daemon
  import opened DaemonInv
  import opened Form1
  import AruRule
  import RingInv
  import RingSafety

  /** The dummy packets of Read_form2; a hole that is no longer one is a fatal exit. */
  function MarkHoles(d: State, holes: seq<nat>): State {
    if d.exited || holes == [] then d else
      var e := MarkHoles(d, holes[..|holes| - 1]);
      var h := holes[|holes| - 1];
      if e.exited then e
      else if h in e.store then e.(exited := true)
      else e.(store := e.store[h := Hole])
  }

  /** Read_form2 on the entry of the daemon's old ring. */
  function ReadForm2(d: State, e: Entry): State {
    var f := Discard(d.(hi := e.highest, aru := e.aru));
    MarkHoles(f, e.holes).(last := 0)
  }

  /** Prot_handle_bcast on a packet of the old ring in EVS: nothing is handed up. */
  function Insert(d: State, p: Packet): State {
    if d.exited || p.seqNo <= d.aru || p.seqNo in d.store then d else
      var store := d.store[p.seqNo := Fresh(p)];
      var hi := if d.hi < p.seqNo then p.seqNo else d.hi;
      d.(store := store, hi := hi, my := if p.seqNo == d.my + 1 then Advance(store, d.my, hi) else d.my)
  }

  /** Prot_handle_token in EVS up to the computation of Aru: a daemon that has everything commits, and
      says so by the sequence number of the form token. */
  function Commit(d: State, t: Token, lastSeq: nat): State {
    var my := Advance(d.store, d.my, d.hi);
    var my' := if my == d.hi then lastSeq else my;
    var (w, _) := AruRule.VisitView(ViewOf(d), MarkOf(t), d.me, my', d.hi);
    d.(my := my', setAru := w.setAru, last := w.last, aru := w.aru)
  }

  /** The token as that visit lets it go; its seq stays. */
  function TokenAfter(d: State, t: Token, lastSeq: nat): Token {
    var my := Advance(d.store, d.my, d.hi);
    var (_, m) := AruRule.VisitView(ViewOf(d), MarkOf(t), d.me, if my == d.hi then lastSeq else my, d.hi);
    t.(aru := m.aru, lastId := m.lastId)
  }

  /** The first loop of Discard_packets in EVS: up to the first hole or SAFE packet. */
  function HandUpBefore(d: State, i: nat): (e: State)
    ensures d.log <= e.log && e.hi == d.hi
    decreases d.hi + 1 - i
  {
    if d.exited || i > d.hi then d
    else if i !in d.store then d.(exited := true)
    else if d.store[i].Hole? || d.store[i].p.service.Safe? then d
    else
      var e := if d.store[i].Fresh? then Deliver(d, i) else d;
      HandUpBefore(e.(store := e.store - {i}, discarded := i), i + 1)
  }

  /** The second loop: the rest; after a hole only what members of the commit set sent. */
  function HandUpAfter(d: State, i: nat, hole: bool, commit: seq<nat>): (e: State)
    ensures d.log <= e.log && e.hi == d.hi
    decreases d.hi + 1 - i
  {
    if d.exited || i > d.hi then d
    else if i !in d.store then d.(exited := true)
    else if d.store[i].Hole? then HandUpAfter(d.(store := d.store - {i}), i + 1, true, commit)
    else
      var e := if (!hole || d.store[i].p.sender in commit) && d.store[i].Fresh? then Deliver(d, i) else d;
      HandUpAfter(e.(store := e.store - {i}), i + 1, hole, commit)
  }

  /** All variables are set for the next membership; a message sent in part will be sent again as a whole. */
  function Reset(d: State): State {
    State(d.me, 0, 0, 0, -1, 0, 0, 0, d.store, [], Down(d.down.msgs, 0), d.nRetrans, d.nSent, d.exited)
  }

  /** What was handed up before the transitional signal, all that was handed up on the old ring, and the
      daemon as it enters OP. */
  datatype Outcome = Outcome(before: seq<Packet>, log: seq<Packet>, d: State)

  /** Discard_packets in EVS once Aru is the sequence number of the form token. */
  function Recover(d: State, commit: seq<nat>): Outcome {
    var b := HandUpBefore(d, d.discarded + 1);
    var a := HandUpAfter(b, b.discarded + 1, false, commit);
    Outcome(b.log, a.log, Reset(a))
  }

  datatype Event = Got(s: nat) | TokenAt(t: Token)

  /** Still in EVS; or the daemon as it was when it went over to the next ring, and the outcome. */
  datatype Phase = Recovering(d: State) | Done(d: State, o: Outcome)

  /** One event in EVS. */
  function Step(d: State, e: Entry, lastSeq: nat, sent: seq<Packet>, ev: Event): Phase {
    match ev
    case Got(s) => Recovering(if 1 <= s <= |sent| then Insert(d, sent[s - 1]) else d)
    case TokenAt(t) =>
      var f := Commit(d, t, lastSeq);
      if f.aru > f.discarded && f.aru == lastSeq then Done(f, Recover(f, e.commit)) else Recovering(f)
  }

  function Run(d: State, e: Entry, lastSeq: nat, sent: seq<Packet>, evs: seq<Event>): Phase
    decreases |evs|
  {
    if evs == [] then Recovering(d) else
      match Step(d, e, lastSeq, sent, evs[0])
      case Done(f, o) => Done(f, o)
      case Recovering(f) => Run(f, e, lastSeq, sent, evs[1..])
  }

  /** The number before the first hole or SAFE packet from i on. */
  function Cut(sent: seq<Packet>, holes: seq<nat>, i: nat, hi: nat): (r: nat)
    requires 1 <= i <= hi + 1 && hi <= |sent|
    ensures i - 1 <= r <= hi
    decreases hi + 1 - i
  {
    if i > hi || i in holes || sent[i - 1].service.Safe? then i - 1 else Cut(sent, holes, i + 1, hi)
  }

  /** The packets from i on that survive: after a hole only those of the commit set. */
  function Picked(sent: seq<Packet>, e: Entry, i: nat, hole: bool): seq<Packet>
    requires 1 <= i && e.highest <= |sent|
    decreases e.highest + 1 - i
  {
    if i > e.highest then []
    else if i in e.holes then Picked(sent, e, i + 1, true)
    else (if !hole || sent[i - 1].sender in e.commit then [sent[i - 1]] else []) + Picked(sent, e, i + 1, hole)
  }

  /** The store from number i on: packets of the ring, and the holes of the entry. */
  ghost predicate Contents(store: Store, sent: seq<Packet>, e: Entry, i: nat) {
    && 1 <= i && e.highest <= |sent|
    && forall s | i <= s <= e.highest && s in store ::
         if s in e.holes then store[s].Hole? else !store[s].Hole? && store[s].p == sent[s - 1]
  }

  ghost predicate Complete(store: Store, i: nat, hi: nat) {
    forall s | i <= s <= hi :: s in store
  }

  /** The log is everything ordered up to del. */
  ghost predicate Up(log: seq<Packet>, sent: seq<Packet>, del: nat) {
    del <= |sent| && Once(log) && Ord(log) == Ord(sent[..del])
  }

  /** Number s was handed up if it is at most del, where no hole or SAFE packet is, or overtook. */
  ghost predicate MarkAt(store: Store, seqs: set<nat>, sent: seq<Packet>, e: Entry, del: nat, s: nat)
    requires 1 <= s <= |sent|
  {
    && (s in seqs <==> s <= del || Early(store, s))
    && (s in store && s !in e.holes ==> if s <= del then store[s].Handed? else store[s].Handed? ==> Single(sent[s - 1]))
    && (s <= del ==> s in store && s !in e.holes && !sent[s - 1].service.Safe?)
  }

  ghost predicate Marks(store: Store, seqs: set<nat>, sent: seq<Packet>, e: Entry, i: nat, del: nat) {
    && 1 <= i && i - 1 <= del <= e.highest <= |sent|
    && forall s: nat | i <= s <= e.highest :: MarkAt(store, seqs, sent, e, del, s)
  }

  ghost predicate Before(d: State, sent: seq<Packet>, e: Entry, i: nat, del: nat) {
    && !d.exited && 1 <= i && d.discarded == i - 1 && i <= e.highest + 1 && d.hi == e.highest
    && Numbered(sent) && InSequence(sent)
    && Contents(d.store, sent, e, i) && Complete(d.store, i, d.hi)
    && Up(d.log, sent, del) && Marks(d.store, Seqs(d.log), sent, e, i, del)
  }

  lemma UpFresh(log: seq<Packet>, sent: seq<Packet>, i: nat)
    requires 1 <= i <= |sent| && Numbered(sent) && InSequence(sent)
    requires Up(log, sent, i - 1) && i !in Seqs(log)
    ensures Accepts(log, sent[i - 1]) && Up(log + [sent[i - 1]], sent, i)
    ensures Seqs(log + [sent[i - 1]]) == Seqs(log) + {i}
  {
    var p := sent[i - 1];
    LogAppend(log, p);
    AcceptsOfOrd(log, sent[..i - 1], p);
    assert AcceptedAt(sent, i - 1);
    assert sent[..i] == sent[..i - 1] + [p];
    OrdAppend(log, p);
    OrdAppend(sent[..i - 1], p);
  }

  lemma UpPass(log: seq<Packet>, sent: seq<Packet>, i: nat)
    requires 1 <= i <= |sent| && Up(log, sent, i - 1) && Single(sent[i - 1])
    ensures Up(log, sent, i)
  {
    assert sent[..i] == sent[..i - 1] + [sent[i - 1]];
    OrdAppend(sent[..i - 1], sent[i - 1]);
  }

  /** The store after entry i was handed up and freed. */
  lemma MarksNext(store: Store, store': Store, seqs: set<nat>, seqs': set<nat>, sent: seq<Packet>, e: Entry, i: nat,
      del: nat)
    requires Contents(store, sent, e, i) && Complete(store, i, e.highest) && Marks(store, seqs, sent, e, i, del)
    requires i <= e.highest && i !in e.holes && !sent[i - 1].service.Safe?
    requires store'.Keys == store.Keys - {i} && forall s | s in store' :: store'[s] == store[s]
    requires seqs' == seqs + {i} || (seqs' == seqs && i in seqs)
    ensures Contents(store', sent, e, i + 1) && Complete(store', i + 1, e.highest) &&
            Marks(store', seqs', sent, e, i + 1, Max(del, i))
  {
    hide Single;
    forall s: nat | i < s <= e.highest
      ensures s in store' && MarkAt(store', seqs', sent, e, Max(del, i), s)
    {
      assert s in store'.Keys <==> s in store.Keys;
      assert MarkAt(store, seqs, sent, e, del, s);
    }
  }

  /** Handing up entry i, unless it was, and freeing it. */
  function Taken(d: State, i: nat): State
    requires i in d.store
  {
    var f := if d.store[i].Fresh? then Deliver(d, i) else d;
    f.(store := f.store - {i}, discarded := i)
  }

  lemma TakenStore(d: State, i: nat)
    requires i in d.store
    ensures var f := Taken(d, i);
            f.store.Keys == d.store.Keys - {i} && forall s | s in f.store :: f.store[s] == d.store[s]
  {
  }

  lemma TakenRest(d: State, i: nat)
    requires i in d.store
    ensures var f := Taken(d, i);
            && SameRest(d, f.(discarded := d.discarded)) && (forall s :: s in f.store <==> s in d.store && s != i)
  {
    TakenStore(d, i);
    assert forall s :: s in Taken(d, i).store.Keys <==> s in d.store.Keys - {i};
  }

  lemma BeforeStep(d: State, sent: seq<Packet>, e: Entry, i: nat, del: nat)
    requires Before(d, sent, e, i, del) && i <= e.highest
    requires i !in e.holes && !sent[i - 1].service.Safe?
    ensures i in d.store && !d.store[i].Hole? && d.store[i].p == sent[i - 1]
    ensures Before(Taken(d, i), sent, e, i + 1, Max(del, i))
  {
    hide Ord, Seqs, Once, InSequence, Numbered, Single, Accepts, Up;
    assert i in d.store && MarkAt(d.store, Seqs(d.log), sent, e, del, i);
    TakenStore(d, i);
    if d.store[i].Fresh? {
      assert del == i - 1 && i !in Seqs(d.log);
      UpFresh(d.log, sent, i);
    } else if del == i - 1 {
      UpPass(d.log, sent, i);
    }
    MarksNext(d.store, Taken(d, i).store, Seqs(d.log), Seqs(Taken(d, i).log), sent, e, i, del);
    hide Contents, Complete, Marks;
  }

  lemma BeforeUnfold(d: State, sent: seq<Packet>, e: Entry, i: nat, del: nat)
    requires Before(d, sent, e, i, del) && i <= e.highest
    requires i !in e.holes && !sent[i - 1].service.Safe?
    ensures i in d.store && HandUpBefore(d, i) == HandUpBefore(Taken(d, i), i + 1)
    ensures Cut(sent, e.holes, i, e.highest) == Cut(sent, e.holes, i + 1, e.highest)
  {
  }

  lemma BeforeStop(d: State, sent: seq<Packet>, e: Entry, i: nat, del: nat)
    requires Before(d, sent, e, i, del)
    requires i > e.highest || i in e.holes || sent[i - 1].service.Safe?
    ensures HandUpBefore(d, i) == d && del == i - 1 && Cut(sent, e.holes, i, e.highest) == i - 1
  {
    hide Single, Ord, Once, Seqs, InSequence;
    if i <= e.highest {
      assert i in d.store && MarkAt(d.store, Seqs(d.log), sent, e, del, i);
    }
  }

  lemma BeforeShape(d: State, sent: seq<Packet>, e: Entry, i: nat, del: nat)
    requires Before(d, sent, e, i, del)
    ensures 1 <= i <= e.highest + 1 && e.highest <= |sent| && d.discarded == i - 1
  {
  }

  /** The first loop ends just before the first hole or SAFE packet, and everything ordered before it is up. */
  lemma {:induction false} HandUpBeforeKeeps(d: State, sent: seq<Packet>, e: Entry, i: nat, del: nat)
    requires Before(d, sent, e, i, del)
    ensures 1 <= i <= e.highest + 1 && e.highest <= |sent|
    ensures var cut := Cut(sent, e.holes, i, e.highest);
            && Before(HandUpBefore(d, i), sent, e, cut + 1, cut) && SameRest(d, HandUpBefore(d, i))
            && forall s :: s in HandUpBefore(d, i).store <==> s in d.store && !(i <= s <= cut)
    decreases e.highest + 1 - i
  {
    hide Before, HandUpBefore, Cut, Taken;
    BeforeShape(d, sent, e, i, del);
    if i > e.highest || i in e.holes || sent[i - 1].service.Safe? {
      BeforeStop(d, sent, e, i, del);
    } else {
      BeforeStep(d, sent, e, i, del);
      BeforeUnfold(d, sent, e, i, del);
      TakenRest(d, i);
      HandUpBeforeKeeps(Taken(d, i), sent, e, i + 1, Max(del, i));
    }
  }

  /** From number i on, only overtaking packets were handed up. */
  ghost predicate RestAt(store: Store, seqs: set<nat>, sent: seq<Packet>, s: nat)
    requires 1 <= s <= |sent|
  {
    (s in seqs <==> Early(store, s)) && (Early(store, s) ==> Single(sent[s - 1]))
  }

  ghost predicate Rest(store: Store, seqs: set<nat>, sent: seq<Packet>, e: Entry, i: nat) {
    && 1 <= i && e.highest <= |sent|
    && forall s: nat | i <= s <= e.highest :: RestAt(store, seqs, sent, s)
  }

  /** q is what the ring's packets below number i leave to be handed up. */
  ghost predicate After(d: State, sent: seq<Packet>, e: Entry, i: nat, q: seq<Packet>) {
    && !d.exited && 1 <= i <= e.highest + 1 && d.hi == e.highest <= |sent|
    && Numbered(sent) && InSequence(q)
    && Contents(d.store, sent, e, i) && Complete(d.store, i, d.hi) && Rest(d.store, Seqs(d.log), sent, e, i)
    && Once(d.log) && Ord(d.log) == Ord(q)
  }

  lemma RestNext(store: Store, store': Store, seqs: set<nat>, seqs': set<nat>, sent: seq<Packet>, e: Entry, i: nat)
    requires Contents(store, sent, e, i) && Complete(store, i, e.highest) && Rest(store, seqs, sent, e, i)
    requires store'.Keys == store.Keys - {i} && forall s | s in store' :: store'[s] == store[s]
    requires seqs' == seqs + {i} || seqs' == seqs
    ensures Contents(store', sent, e, i + 1) && Complete(store', i + 1, e.highest) &&
            Rest(store', seqs', sent, e, i + 1)
  {
    hide Single;
    forall s: nat | i < s <= e.highest
      ensures s in store' && RestAt(store', seqs', sent, s)
    {
      assert s in store'.Keys <==> s in store.Keys;
      assert RestAt(store, seqs, sent, s);
    }
  }

  function Dropped(d: State, i: nat): State {
    d.(store := d.store - {i})
  }

  lemma AfterLeaveOut(d: State, sent: seq<Packet>, e: Entry, i: nat, q: seq<Packet>)
    requires After(d, sent, e, i, q) && i <= e.highest
    ensures After(Dropped(d, i), sent, e, i + 1, q)
  {
    hide InSequence, Numbered, Once, Ord, Seqs;
    RestNext(d.store, d.store - {i}, Seqs(d.log), Seqs(d.log), sent, e, i);
    hide Contents, Complete, Rest;
  }

  /** A packet that passes the check of the up queue. */
  lemma AfterPick(d: State, sent: seq<Packet>, e: Entry, i: nat, q: seq<Packet>)
    requires After(d, sent, e, i, q) && i <= e.highest
    requires i !in e.holes && Accepts(q, sent[i - 1])
    ensures i in d.store && !d.store[i].Hole? && d.store[i].p == sent[i - 1]
    ensures After(Taken(d, i).(discarded := d.discarded), sent, e, i + 1, q + [sent[i - 1]])
  {
    hide InSequence, Once, Ord, Seqs, Accepts, Single;
    assert i in d.store && RestAt(d.store, Seqs(d.log), sent, i);
    TakenStore(d, i);
    var p := sent[i - 1];
    OrdAppend(q, p);
    OrdAppend(d.log, p);
    LogAppend(d.log, p);
    AcceptsOfOrd(d.log, q, p);
    InSequenceAppend(q, p);
    var f := Taken(d, i);
    RestNext(d.store, f.store, Seqs(d.log), Seqs(f.log), sent, e, i);
    hide Contents, Complete, Rest, Numbered;
  }

  /** A packet that does not pass it: it was not handed up yet, and now the exit is taken. */
  lemma AfterRefuse(d: State, sent: seq<Packet>, e: Entry, i: nat, q: seq<Packet>)
    requires After(d, sent, e, i, q) && i <= e.highest
    requires i !in e.holes && !Accepts(q, sent[i - 1])
    ensures i in d.store && Taken(d, i).exited
  {
    hide InSequence, Once, Ord, Seqs;
    assert i in d.store && RestAt(d.store, Seqs(d.log), sent, i);
    AcceptsOfOrd(d.log, q, sent[i - 1]);
  }

  lemma AfterEntry(d: State, sent: seq<Packet>, e: Entry, i: nat, q: seq<Packet>)
    requires After(d, sent, e, i, q) && i <= e.highest
    ensures !d.exited && d.hi == e.highest && 1 <= i <= e.highest <= |sent|
    ensures i in d.store && if i in e.holes then d.store[i].Hole? else !d.store[i].Hole? && d.store[i].p == sent[i - 1]
  {
    hide Contents, Complete;
    AfterStored(d.store, sent, e, i);
  }

  lemma AfterStored(store: Store, sent: seq<Packet>, e: Entry, i: nat)
    requires Contents(store, sent, e, i) && Complete(store, i, e.highest) && i <= e.highest
    ensures i in store && if i in e.holes then store[i].Hole? else !store[i].Hole? && store[i].p == sent[i - 1]
  {
  }

  lemma AfterUnfolded(d: State, sent: seq<Packet>, e: Entry, i: nat, hole: bool)
    requires !d.exited && d.hi == e.highest && 1 <= i <= e.highest <= |sent|
    requires i in d.store && if i in e.holes then d.store[i].Hole? else !d.store[i].Hole? && d.store[i].p == sent[i - 1]
    ensures HandUpAfter(d, i, hole, e.commit) ==
            if i in e.holes || (hole && sent[i - 1].sender !in e.commit) then
                HandUpAfter(Dropped(d, i), i + 1, true, e.commit)
            else HandUpAfter(Taken(d, i).(discarded := d.discarded), i + 1, hole, e.commit)
    ensures Picked(sent, e, i, hole) ==
            if i in e.holes || (hole && sent[i - 1].sender !in e.commit) then Picked(sent, e, i + 1, true)
            else [sent[i - 1]] + Picked(sent, e, i + 1, hole)
  {
  }

  lemma AfterDone(d: State, sent: seq<Packet>, e: Entry, i: nat, hole: bool, q: seq<Packet>)
    requires After(d, sent, e, i, q)
    ensures 1 <= i <= e.highest + 1 && e.highest <= |sent|
    ensures i == e.highest + 1 ==> HandUpAfter(d, i, hole, e.commit) == d && Picked(sent, e, i, hole) == []
    ensures !d.exited && Once(d.log) && Ord(d.log) == Ord(q) && InSequence(q)
  {
  }

  lemma ExitedAfter(d: State, i: nat, hole: bool, commit: seq<nat>)
    requires d.exited
    ensures HandUpAfter(d, i, hole, commit) == d
  {
  }

  /** The second loop hands up what survives, and leaves none of its range; it takes a fatal exit exactly
      when the up queues do not accept what survives. */
  lemma {:induction false} HandUpAfterKeeps(d: State, sent: seq<Packet>, e: Entry, i: nat, hole: bool, q: seq<Packet>)
    requires After(d, sent, e, i, q)
    ensures 1 <= i && e.highest <= |sent|
    ensures var f, all := HandUpAfter(d, i, hole, e.commit), q + Picked(sent, e, i, hole);
            && (f.exited <==> !InSequence(all))
            && (!f.exited ==> Once(f.log) && Ord(f.log) == Ord(all))
            && SameRest(d, f)
            && (!f.exited ==> forall s :: s in f.store <==> s in d.store && !(i <= s <= e.highest))
    decreases e.highest + 1 - i
  {
    hide After, HandUpAfter, Picked, Once, Ord, Taken, InSequence, Accepts;
    AfterDone(d, sent, e, i, hole, q);
    if i == e.highest + 1 {
      assert q + [] == q;
    } else {
      AfterEntry(d, sent, e, i, q);
      AfterUnfolded(d, sent, e, i, hole);
      var p := sent[i - 1];
      if i in e.holes || (hole && p.sender !in e.commit) {
        AfterLeaveOut(d, sent, e, i, q);
        HandUpAfterKeeps(Dropped(d, i), sent, e, i + 1, true, q);
      } else {
        var f := Taken(d, i).(discarded := d.discarded);
        TakenRest(d, i);
        assert (q + [p]) + Picked(sent, e, i + 1, hole) == q + Picked(sent, e, i, hole);
        if Accepts(q, p) {
          AfterPick(d, sent, e, i, q);
          HandUpAfterKeeps(f, sent, e, i + 1, hole, q + [p]);
        } else {
          AfterRefuse(d, sent, e, i, q);
          ExitedAfter(f, i + 1, hole, e.commit);
          RefusedStays(q, p, Picked(sent, e, i + 1, hole));
        }
      }
    }
  }

  lemma ContentsShape(store: Store, sent: seq<Packet>, e: Entry, i: nat)
    requires Contents(store, sent, e, i)
    ensures e.highest <= |sent|
  {
  }

  lemma MarksRest(store: Store, seqs: set<nat>, sent: seq<Packet>, e: Entry, cut: nat)
    requires Contents(store, sent, e, cut + 1) && Marks(store, seqs, sent, e, cut + 1, cut)
    ensures Rest(store, seqs, sent, e, cut + 1)
  {
    hide Single;
    forall s: nat | cut + 1 <= s <= e.highest
      ensures RestAt(store, seqs, sent, s)
    {
      assert MarkAt(store, seqs, sent, e, cut, s);
    }
  }

  lemma CutToAfter(d: State, sent: seq<Packet>, e: Entry, cut: nat)
    requires Before(d, sent, e, cut + 1, cut)
    ensures After(d, sent, e, cut + 1, sent[..cut])
  {
    hide Contents, Complete, Numbered, InSequence, Ord, Once, Seqs, Rest, Marks;
    MarksRest(d.store, Seqs(d.log), sent, e, cut);
    ContentsShape(d.store, sent, e, cut + 1);
    InSequencePrefix(sent, cut);
  }

  /** What of the ring's packets survives. */
  function Surviving(sent: seq<Packet>, e: Entry): seq<Packet>
    requires e.aru <= e.highest <= |sent|
  {
    sent[..e.aru] + Picked(sent, e, e.aru + 1, false)
  }

  /** The up queues accept what survives, packet by packet. */
  ghost predicate Sound(sent: seq<Packet>, e: Entry) {
    e.aru <= e.highest <= |sent| && InSequence(Surviving(sent, e))
  }

  lemma {:induction false} PickedToCut(sent: seq<Packet>, e: Entry, i: nat)
    requires 1 <= i <= e.highest + 1 && e.highest <= |sent|
    ensures var cut := Cut(sent, e.holes, i, e.highest);
            sent[..i - 1] + Picked(sent, e, i, false) == sent[..cut] + Picked(sent, e, cut + 1, false)
    decreases e.highest + 1 - i
  {
    if !(i > e.highest || i in e.holes || sent[i - 1].service.Safe?) {
      PickedToCut(sent, e, i + 1);
      assert sent[..i] == sent[..i - 1] + [sent[i - 1]];
      assert sent[..i - 1] + Picked(sent, e, i, false) == sent[..i] + Picked(sent, e, i + 1, false);
    }
  }

  /** The ordered packets handed up before the signal, and all of them, as the ring and the entry say. */
  function OrdBefore(sent: seq<Packet>, e: Entry): seq<Packet>
    requires e.aru <= e.highest <= |sent|
  {
    Ord(sent[..Cut(sent, e.holes, e.aru + 1, e.highest)])
  }

  function OrdAll(sent: seq<Packet>, e: Entry): seq<Packet>
    requires e.aru <= e.highest <= |sent|
  {
    Ord(Surviving(sent, e))
  }

  /** The right outcome. */
  ghost predicate Recovered(o: Outcome, sent: seq<Packet>, e: Entry) {
    && e.aru <= e.highest <= |sent|
    && Ord(o.before) == OrdBefore(sent, e)
    && Ord(o.log) == OrdAll(sent, e)
    && o.before <= o.log && Once(o.log) && !o.d.exited
  }

  lemma CutDiscarded(d: State, sent: seq<Packet>, e: Entry, cut: nat)
    requires Before(d, sent, e, cut + 1, cut)
    ensures d.discarded == cut <= |sent| && Ord(d.log) == Ord(sent[..cut])
  {
  }

  /** The two loops one after the other. */
  lemma LoopsKeep(d: State, sent: seq<Packet>, e: Entry, del: nat)
    requires Before(d, sent, e, e.aru + 1, del)
    ensures e.aru <= e.highest <= |sent| && d.discarded == e.aru
    ensures var b := HandUpBefore(d, e.aru + 1);
            var a := HandUpAfter(b, b.discarded + 1, false, e.commit);
            && Ord(b.log) == OrdBefore(sent, e)
            && (a.exited <==> !Sound(sent, e))
            && (!a.exited ==> Ord(a.log) == OrdAll(sent, e) && Once(a.log))
            && SameRest(d, b) && SameRest(b, a)
            && (!a.exited ==> forall s :: s in a.store <==> s in d.store && !(e.aru < s <= e.highest))
  {
    hide Before, After, HandUpBefore, HandUpAfter, Cut, Picked, Ord, Once, SameRest, InSequence;
    BeforeShape(d, sent, e, e.aru + 1, del);
    HandUpBeforeKeeps(d, sent, e, e.aru + 1, del);
    var cut := Cut(sent, e.holes, e.aru + 1, e.highest);
    var b := HandUpBefore(d, e.aru + 1);
    CutDiscarded(b, sent, e, cut);
    CutToAfter(b, sent, e, cut);
    HandUpAfterKeeps(b, sent, e, cut + 1, false, sent[..cut]);
    PickedToCut(sent, e, e.aru + 1);
  }

  /** Recovery takes a fatal exit exactly when the up queues do not accept what survives.  Otherwise it hands
      up what the ring and the entry say; only entries of the array outside its range stay. */
  lemma RecoverKeeps(d: State, sent: seq<Packet>, e: Entry, del: nat)
    requires Before(d, sent, e, e.aru + 1, del)
    ensures e.aru <= e.highest <= |sent|
    ensures var o := Recover(d, e.commit);
            && Ord(o.before) == OrdBefore(sent, e)
            && (o.d.exited <==> !Sound(sent, e))
            && (Sound(sent, e) ==> Recovered(o, sent, e))
            && o.d == Reset(o.d) && o.d.me == d.me && o.d.down.msgs == d.down.msgs
            && o.d.nRetrans == d.nRetrans && o.d.nSent == d.nSent
            && (!o.d.exited ==> forall s :: s in o.d.store <==> s in d.store && !(e.aru < s <= e.highest))
  {
    hide Before, After, HandUpBefore, HandUpAfter, OrdBefore, OrdAll, Ord, Once, Sound;
    LoopsKeep(d, sent, e, del);
  }

  /** For every sender nothing of whom is left out, the packets q chain as those of the ring do. */
  ghost predicate Chains(q: seq<Packet>, sent: seq<Packet>, n: nat, e: Entry, hole: bool)
    requires n <= |sent|
  {
    forall x | !hole || x in e.commit :: Chain(q, x) == Chain(sent[..n], x)
  }

  /** No packet of a member of the commit set is missing. */
  ghost predicate HolesForeign(sent: seq<Packet>, e: Entry) {
    forall h | h in e.holes :: 1 <= h <= e.highest <= |sent| && sent[h - 1].sender !in e.commit
  }

  /** A packet left out belongs to none of those whose packets count. */
  lemma ChainsSkip(q: seq<Packet>, sent: seq<Packet>, i: nat, e: Entry, hole: bool)
    requires 1 <= i <= |sent| && Chains(q, sent, i - 1, e, hole) && sent[i - 1].sender !in e.commit
    ensures Chains(q, sent, i, e, true)
  {
    assert sent[..i] == sent[..i - 1] + [sent[i - 1]];
    forall x | x in e.commit
      ensures Chain(q, x) == Chain(sent[..i], x)
    {
      ChainAppend(sent[..i - 1], sent[i - 1], x);
    }
  }

  lemma ChainsPick(q: seq<Packet>, sent: seq<Packet>, i: nat, e: Entry, hole: bool)
    requires 1 <= i <= |sent| && Chains(q, sent, i - 1, e, hole)
    ensures Chains(q + [sent[i - 1]], sent, i, e, hole)
  {
    assert sent[..i] == sent[..i - 1] + [sent[i - 1]];
    forall x | !hole || x in e.commit
      ensures Chain(q + [sent[i - 1]], x) == Chain(sent[..i], x)
    {
      ChainAppend(sent[..i - 1], sent[i - 1], x);
      ChainAppend(q, sent[i - 1], x);
    }
  }

  /** The next packet that survives passes the check of the up queue. */
  lemma PickedAccepted(log: seq<Packet>, q: seq<Packet>, sent: seq<Packet>, i: nat, e: Entry, hole: bool)
    requires 1 <= i <= |sent| && InSequence(sent) && Chains(q, sent, i - 1, e, hole)
    requires Ord(log) == Ord(q) && (!hole || sent[i - 1].sender in e.commit)
    ensures Accepts(log, sent[i - 1])
  {
    var p := sent[i - 1];
    AcceptsOfOrd(log, q, p);
    assert AcceptedAt(sent, i - 1);
    assert Chain(q, p.sender) == Chain(sent[..i - 1], p.sender);
  }

  lemma {:induction false} PickedSound(q: seq<Packet>, sent: seq<Packet>, e: Entry, i: nat, hole: bool)
    requires 1 <= i <= e.highest + 1 && e.highest <= |sent| && InSequence(sent) && HolesForeign(sent, e)
    requires InSequence(q) && Chains(q, sent, i - 1, e, hole)
    ensures InSequence(q + Picked(sent, e, i, hole))
    decreases e.highest + 1 - i
  {
    hide InSequence, Chains, Accepts;
    if i > e.highest {
      assert q + Picked(sent, e, i, hole) == q;
    } else if i in e.holes || (hole && sent[i - 1].sender !in e.commit) {
      ChainsSkip(q, sent, i, e, hole);
      PickedSound(q, sent, e, i + 1, true);
      assert Picked(sent, e, i, hole) == Picked(sent, e, i + 1, true);
    } else {
      var p := sent[i - 1];
      PickedAccepted(q, q, sent, i, e, hole);
      InSequenceAppend(q, p);
      ChainsPick(q, sent, i, e, hole);
      PickedSound(q + [p], sent, e, i + 1, hole);
      assert (q + [p]) + Picked(sent, e, i + 1, hole) == q + Picked(sent, e, i, hole);
    }
  }

  lemma AllChains(sent: seq<Packet>, n: nat, e: Entry)
    requires n <= |sent|
    ensures Chains(sent[..n], sent, n, e, false)
  {
  }

  /** As long as no packet of a member of the commit set is missing, what survives is accepted. */
  lemma ForeignSound(sent: seq<Packet>, e: Entry)
    requires InSequence(sent) && HolesForeign(sent, e) && e.aru <= e.highest <= |sent|
    ensures Sound(sent, e)
  {
    hide InSequence, Chains, HolesForeign;
    InSequencePrefix(sent, e.aru);
    AllChains(sent, e.aru, e);
    PickedSound(sent[..e.aru], sent, e, e.aru + 1, false);
  }

  /** No ordered packet of x from number k on and below i. */
  ghost predicate NoneOf(sent: seq<Packet>, x: nat, k: nat, i: nat) {
    forall j | 0 <= j < |sent| && k <= j + 1 < i :: sent[j].sender != x || Single(sent[j])
  }

  lemma {:induction false} RefusedLater(q: seq<Packet>, sent: seq<Packet>, e: Entry, k: nat, i: nat)
    requires 1 <= k <= i <= e.highest <= |sent| && i !in e.holes && sent[i - 1].sender in e.commit
    requires !Accepts(q, sent[i - 1]) && NoneOf(sent, sent[i - 1].sender, k, i)
    ensures !InSequence(q + Picked(sent, e, k, true))
    decreases i - k
  {
    var p := sent[k - 1];
    hide InSequence, Chain, Ord;
    if k == i {
      RefusedStays(q, p, Picked(sent, e, k + 1, true));
      assert (q + [p]) + Picked(sent, e, k + 1, true) == q + Picked(sent, e, k, true);
    } else if k in e.holes || p.sender !in e.commit {
      RefusedLater(q, sent, e, k + 1, i);
      assert Picked(sent, e, k, true) == Picked(sent, e, k + 1, true);
    } else {
      ChainAppend(q, p, sent[i - 1].sender);
      RefusedLater(q + [p], sent, e, k + 1, i);
      assert (q + [p]) + Picked(sent, e, k + 1, true) == q + Picked(sent, e, k, true);
    }
  }

  /** h is the only packet of its sender missing below i, and is part of a message of several packets; i is
      the sender's next ordered packet. */
  ghost predicate PartMissing(sent: seq<Packet>, e: Entry, h: nat, i: nat) {
    && e.aru < h < i <= e.highest <= |sent| && h in e.holes && i !in e.holes
    && sent[h - 1].sender == sent[i - 1].sender && sent[h - 1].sender in e.commit
    && sent[h - 1].index != -1 && !Single(sent[i - 1]) && NoneOf(sent, sent[h - 1].sender, h + 1, i)
    && forall g | g in e.holes && 1 <= g < i && g != h :: sent[g - 1].sender != sent[h - 1].sender
  }

  lemma NextRefused(q: seq<Packet>, sent: seq<Packet>, e: Entry, h: nat, i: nat)
    requires InSequence(sent) && PartMissing(sent, e, h, i)
    requires Chain(q, sent[h - 1].sender) == Chain(sent[..h - 1], sent[h - 1].sender)
    ensures !Accepts(q, sent[i - 1])
  {
    var x := sent[h - 1].sender;
    assert AcceptedAt(sent, h - 1) && AcceptedAt(sent, i - 1);
    assert sent[..h] == sent[..h - 1] + [sent[h - 1]];
    ChainAppend(sent[..h - 1], sent[h - 1], x);
    ChainSame(sent, x, h, i);
  }

  lemma {:induction false} ChainSame(sent: seq<Packet>, x: nat, h: nat, i: nat)
    requires 1 <= h < i <= |sent| && NoneOf(sent, x, h + 1, i)
    ensures Chain(sent[..i - 1], x) == Chain(sent[..h], x)
    decreases i
  {
    if i > h + 1 {
      ChainSame(sent, x, h, i - 1);
      assert sent[..i - 1] == sent[..i - 2] + [sent[i - 2]];
      ChainAppend(sent[..i - 2], sent[i - 2], x);
    }
  }

  lemma {:induction false} PartMissed(q: seq<Packet>, sent: seq<Packet>, e: Entry, k: nat, hole: bool, h: nat, i: nat)
    requires InSequence(sent) && PartMissing(sent, e, h, i) && 1 <= k <= h
    requires Chain(q, sent[h - 1].sender) == Chain(sent[..k - 1], sent[h - 1].sender)
    ensures !InSequence(q + Picked(sent, e, k, hole))
    decreases h - k
  {
    hide InSequence, Chain;
    var x, p := sent[h - 1].sender, sent[k - 1];
    if k == h {
      NextRefused(q, sent, e, h, i);
      RefusedLater(q, sent, e, h + 1, i);
    } else {
      assert sent[..k] == sent[..k - 1] + [p];
      ChainAppend(sent[..k - 1], p, x);
      if k in e.holes || (hole && p.sender !in e.commit) {
        PartMissed(q, sent, e, k + 1, true, h, i);
        assert Picked(sent, e, k, hole) == Picked(sent, e, k + 1, true);
      } else {
        ChainAppend(q, p, x);
        PartMissed(q + [p], sent, e, k + 1, hole, h, i);
        assert (q + [p]) + Picked(sent, e, k + 1, hole) == q + Picked(sent, e, k, hole);
      }
    }
  }

  /** A member of the commit set with a hole inside a message: what survives is not accepted, and recovery
      takes the fatal exit everywhere. */
  lemma MissingPartExits(d: State, sent: seq<Packet>, e: Entry, del: nat, h: nat, i: nat)
    requires Before(d, sent, e, e.aru + 1, del) && PartMissing(sent, e, h, i)
    ensures !Sound(sent, e) && Recover(d, e.commit).d.exited
  {
    hide PartMissing, InSequence, Recover;
    assert InSequence(sent);
    BeforeShape(d, sent, e, e.aru + 1, del);
    assert e.aru < h by { PartShape(sent, e, h, i); }
    PartMissed(sent[..e.aru], sent, e, e.aru + 1, false, h, i);
    RecoverKeeps(d, sent, e, del);
  }

  lemma PartShape(sent: seq<Packet>, e: Entry, h: nat, i: nat)
    requires PartMissing(sent, e, h, i)
    ensures e.aru < h < i <= e.highest <= |sent|
  {
  }
}
