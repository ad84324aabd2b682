/** What every handler keeps of one daemon, relative to the packets sent on its ring so far. */
module DaemonInv {
  import opened Packets
  import opened Daemon
  import opened AruRule
  import Burst

  /** The packets of a ring are numbered from 1 in the order in which they were made. */
  ghost predicate Numbered(sent: seq<Packet>) {
    forall i | 0 <= i < |sent| :: sent[i].seqNo == i + 1
  }

  /** The sequence numbers handed up. */
  function Seqs(log: seq<Packet>): set<nat> {
    if log == [] then {} else Seqs(log[..|log| - 1]) + {log[|log| - 1].seqNo}
  }

  /** No number was handed up twice. */
  ghost predicate Once(log: seq<Packet>) {
    log == [] || (log[|log| - 1].seqNo !in Seqs(log[..|log| - 1]) && Once(log[..|log| - 1]))
  }

  /** Only packets of the ring were handed up, SAFE ones up to aru. */
  ghost predicate From(log: seq<Packet>, sent: seq<Packet>, aru: nat) {
    forall i | 0 <= i < |log| ::
      var p := log[i];
      1 <= p.seqNo <= |sent| && sent[p.seqNo - 1] == p && (p.service.Safe? ==> p.seqNo <= aru)
  }

  lemma LogAppend(log: seq<Packet>, p: Packet)
    ensures Seqs(log + [p]) == Seqs(log) + {p.seqNo}
    ensures Once(log + [p]) <==> Once(log) && p.seqNo !in Seqs(log)
  {
    assert (log + [p])[..|log|] == log;
  }

  /** The store holds exactly packets of the ring above lo, all of them up to My_aru. */
  ghost predicate StoreOk(d: State, sent: seq<Packet>, lo: nat) {
    && d.my <= d.hi <= |sent|
    && (forall s | s in d.store :: lo < s <= d.hi && !d.store[s].Hole? && d.store[s].p == sent[s - 1])
    && (forall s | lo < s <= d.my :: s in d.store)
  }

  lemma FromAppend(log: seq<Packet>, sent: seq<Packet>, aru: nat, p: Packet)
    requires From(log, sent, aru)
    requires 1 <= p.seqNo <= |sent| && sent[p.seqNo - 1] == p && (p.service.Safe? ==> p.seqNo <= aru)
    ensures From(log + [p], sent, aru)
  {
  }

  predicate Early(store: Store, s: nat) {
    s in store && store[s].Handed?
  }

  /** Everything up to del was handed up, and above del only overtaking packets, each once; ordered
      packets went up in the order of their numbers; SAFE packets only up to Aru. */
  ghost predicate LogOk(d: State, sent: seq<Packet>, del: nat)
    requires del <= |sent|
  {
    && Once(d.log)
    && InSequence(d.log)
    && From(d.log, sent, d.aru)
    && (forall s: nat :: s in Seqs(d.log) <==> 1 <= s <= del || (s > del && Early(d.store, s)))
    && (forall s | s in d.store :: if s <= del then d.store[s].Handed? else d.store[s].Handed? ==> Single(d.store[s].p))
    && Ord(d.log) == Ord(sent[..del])
  }

  ghost predicate Core(d: State, sent: seq<Packet>, lo: nat, del: nat) {
    && !d.exited
    && Numbered(sent)
    && InSequence(sent)
    && lo <= del <= d.my <= d.hi <= |sent|
    && StoreOk(d, sent, lo)
    && LogOk(d, sent, del)
  }

  /** Between handlers everything up to Aru is discarded, and My_aru stops at the first packet missing. */
  ghost predicate Local(d: State, sent: seq<Packet>) {
    && Core(d, sent, d.discarded, d.delivered)
    && d.aru == d.discarded
    && d.my + 1 !in d.store
  }

  /** Only the log, the delivery counters and the contents of the store differ. */
  predicate SameRest(d: State, e: State) {
    && e == d.(store := e.store, log := e.log, delivered := e.delivered, discarded := e.discarded, exited := e.exited)
    && e.store.Keys <= d.store.Keys
  }

  /** Fields the invariant does not read may change, Aru may rise, Highest_seq may rise up to what was
      sent and My_aru over packets that are there. */
  lemma Framed(d: State, e: State, sent: seq<Packet>, lo: nat, del: nat)
    requires Core(d, sent, lo, del)
    requires e.exited == d.exited && e.store == d.store && e.log == d.log
    requires d.aru <= e.aru && d.hi <= e.hi <= |sent| && d.my <= e.my <= e.hi
    requires forall t | d.my < t <= e.my :: t in d.store
    ensures Core(e, sent, lo, del)
  {
    hide Ord, Seqs, Once, InSequence;
  }

  /** The packet whose turn it is passes the check of the up queue, and so does an overtaking one. */
  lemma DeliverAccepted(d: State, sent: seq<Packet>, lo: nat, del: nat, s: nat)
    requires Core(d, sent, lo, del)
    requires s in d.store && d.store[s].Fresh?
    requires s == del + 1 || Single(d.store[s].p)
    ensures Accepts(d.log, d.store[s].p)
  {
    if s == del + 1 {
      AcceptsOfOrd(d.log, sent[..del], sent[del]);
      assert AcceptedAt(sent, del);
    }
  }

  lemma DeliverOrdered(d: State, sent: seq<Packet>, lo: nat, del: nat, s: nat, del': nat)
    requires Core(d, sent, lo, del)
    requires s in d.store && d.store[s].Fresh?
    requires (s == del' == del + 1) || (del' == del && Single(d.store[s].p))
    ensures del' <= |sent| && Ord(d.log + [sent[s - 1]]) == Ord(sent[..del'])
  {
    OrdAppend(d.log, sent[s - 1]);
    if del' == del + 1 {
      assert sent[..del'] == sent[..del] + [sent[del]];
      OrdAppend(sent[..del], sent[del]);
    }
  }

  /** The numbers handed up, before and after s was. */
  lemma NumbersAfter(before: Store, after: Store, seqs: set<nat>, del: nat, s: nat, del': nat)
    requires forall t: nat :: t in seqs <==> 1 <= t <= del || (t > del && Early(before, t))
    requires forall t: nat :: Early(after, t) <==> t == s || Early(before, t)
    requires 1 <= s && ((s == del' == del + 1) || (del' == del < s))
    ensures forall t: nat :: t in seqs + {s} <==> 1 <= t <= del' || (t > del' && Early(after, t))
  {
    hide Early;
  }

  lemma EarlyAfter(d: State, s: nat)
    requires s in d.store && d.store[s].Fresh?
    ensures forall t: nat :: Early(Deliver(d, s).store, t) <==> t == s || Early(d.store, t)
  {
  }

  lemma DeliverLogged(d: State, sent: seq<Packet>, lo: nat, del: nat, s: nat, del': nat)
    requires Core(d, sent, lo, del)
    requires s in d.store && d.store[s].Fresh?
    requires (s == del' == del + 1) || (del' == del && Single(d.store[s].p))
    ensures var e := Deliver(d, s);
            && Once(e.log)
            && forall t: nat :: t in Seqs(e.log) <==> 1 <= t <= del' || (t > del' && Early(e.store, t))
  {
    hide Ord, InSequence, From, Accepts;
    assert s > del && s !in Seqs(d.log);
    LogAppend(d.log, sent[s - 1]);
    EarlyAfter(d, s);
    hide Once, Seqs, Early, Single;
    NumbersAfter(d.store, Deliver(d, s).store, Seqs(d.log), del, s, del');
  }

  lemma DeliverStored(d: State, sent: seq<Packet>, lo: nat, s: nat)
    requires StoreOk(d, sent, lo)
    requires s in d.store && d.store[s].Fresh?
    ensures StoreOk(Deliver(d, s), sent, lo)
  {
  }

  lemma DeliverLog(d: State, sent: seq<Packet>, lo: nat, del: nat, s: nat, del': nat)
    requires Core(d, sent, lo, del)
    requires s in d.store && d.store[s].Fresh?
    requires (s == del' == del + 1) || (del' == del && Single(d.store[s].p))
    requires d.store[s].p.service.Safe? ==> s <= d.aru
    ensures del' <= |sent| && LogOk(Deliver(d, s), sent, del')
  {
    hide Ord, Accepts, Seqs, Once, InSequence, From;
    DeliverOrdered(d, sent, lo, del, s, del');
    DeliverLogged(d, sent, lo, del, s, del');
    FromAppend(d.log, sent, d.aru, sent[s - 1]);
    DeliverAccepted(d, sent, lo, del, s);
    InSequenceAppend(d.log, sent[s - 1]);
  }

  /** Handing up the next packet in order, or an overtaking one. */
  lemma DeliverKeeps(d: State, sent: seq<Packet>, lo: nat, del: nat, s: nat, del': nat)
    requires Core(d, sent, lo, del)
    requires s in d.store && d.store[s].Fresh?
    requires (s == del' == del + 1 && s <= d.my) || (del' == del && Single(d.store[s].p))
    requires d.store[s].p.service.Safe? ==> s <= d.aru
    ensures Core(Deliver(d, s), sent, lo, del') && SameRest(d, Deliver(d, s))
  {
    hide StoreOk, LogOk, Accepts;
    DeliverAccepted(d, sent, lo, del, s);
    DeliverStored(d, sent, lo, s);
    DeliverLog(d, sent, lo, del, s, del');
  }

  /** A packet handed up early is passed when its turn comes. */
  lemma PassHanded(d: State, sent: seq<Packet>, lo: nat, del: nat)
    requires Core(d, sent, lo, del)
    requires del < d.my && del + 1 in d.store && d.store[del + 1].Handed?
    ensures Core(d, sent, lo, del + 1)
  {
    var p := d.store[del + 1].p;
    assert sent[..del + 1] == sent[..del] + [p];
    OrdAppend(sent[..del], p);
  }

  lemma {:induction false} DeliverAgreedKeeps(d: State, sent: seq<Packet>, lo: nat)
    requires Core(d, sent, lo, d.delivered)
    ensures var e := DeliverAgreed(d);
            Core(e, sent, lo, e.delivered) && SameRest(d, e) && e.discarded == d.discarded
    decreases d.my - d.delivered
  {
    if d.my > d.delivered {
      var i := d.delivered + 1;
      assert i in d.store;
      if d.store[i].Handed? {
        PassHanded(d, sent, lo, d.delivered);
        DeliverAgreedKeeps(d.(delivered := i), sent, lo);
      } else if !d.store[i].p.service.Safe? {
        DeliverKeeps(d, sent, lo, d.delivered, i, i);
        DeliverAgreedKeeps(Deliver(d, i).(delivered := i), sent, lo);
      }
    }
  }

  lemma {:induction false} DeliverSinglesKeeps(d: State, sent: seq<Packet>, lo: nat, i: nat, end: int)
    requires Core(d, sent, lo, d.delivered)
    ensures var e := DeliverSingles(d, i, end);
            Core(e, sent, lo, e.delivered) && SameRest(d, e) && e.discarded == d.discarded
    decreases end - i
  {
    hide StoreOk, LogOk;
    if i <= end {
      if i in d.store && d.store[i].Fresh? && Single(d.store[i].p) {
        DeliverKeeps(d, sent, lo, d.delivered, i, d.delivered);
        DeliverSinglesKeeps(Deliver(d, i), sent, lo, i + 1, end);
      } else {
        DeliverSinglesKeeps(d, sent, lo, i + 1, end);
      }
    }
  }

  function Max(a: int, b: int): int {
    if a < b then b else a
  }

  /** Dropping the lowest packet of the store once it was handed up. */
  lemma DropKeeps(d: State, sent: seq<Packet>, i: nat, del: nat)
    requires 1 <= i <= del && Core(d, sent, i - 1, del)
    ensures Core(d.(store := d.store - {i}), sent, i, del)
  {
    var e := d.(store := d.store - {i});
    forall t: nat
      ensures t in Seqs(e.log) <==> 1 <= t <= del || (t > del && Early(e.store, t))
    {
      assert t in Seqs(d.log) <==> 1 <= t <= del || (t > del && Early(d.store, t));
    }
  }

  /** One round of the loop: packet i is there, goes up if it did not yet, and is dropped. */
  lemma DiscardStep(d: State, sent: seq<Packet>, i: nat, del: nat)
    requires i >= 1 && Core(d, sent, i - 1, del)
    requires i <= d.aru && i <= d.my
    ensures i in d.store
    ensures var e := if d.store[i].Fresh? then Deliver(d, i) else d;
            Core(e.(store := e.store - {i}), sent, i, Max(del, i)) && SameRest(d, e)
  {
    if d.store[i].Fresh? {
      DeliverKeeps(d, sent, i - 1, del, i, i);
      DropKeeps(Deliver(d, i), sent, i, i);
    } else {
      if del == i - 1 {
        PassHanded(d, sent, i - 1, del);
      }
      DropKeeps(d, sent, i, Max(del, i));
    }
  }

  lemma {:induction false} DiscardLoopKeeps(d: State, sent: seq<Packet>, i: nat)
    requires i >= 1 && Core(d, sent, i - 1, Max(d.delivered, i - 1))
    requires i - 1 <= d.aru <= d.my
    ensures var e := DiscardLoop(d, i);
            Core(e, sent, d.aru, Max(d.delivered, d.aru)) && SameRest(d, e) && e.delivered == d.delivered &&
            e.discarded == d.discarded
    decreases d.aru - i
  {
    hide LogOk, StoreOk;
    if i <= d.aru {
      DiscardStep(d, sent, i, Max(d.delivered, i - 1));
      var e := if d.store[i].Fresh? then Deliver(d, i) else d;
      DiscardLoopKeeps(e.(store := e.store - {i}), sent, i + 1);
    }
  }

  /** Nothing above Aru is touched, and Highest_seq plays no part. */
  lemma {:induction false} DiscardLoopAbove(d: State, i: nat, hi: nat)
    ensures var e := DiscardLoop(d, i);
            && e.aru == d.aru && forall s | s > d.aru :: s in e.store <==> s in d.store
    ensures DiscardLoop(d.(hi := hi), i) == DiscardLoop(d, i).(hi := hi)
    decreases d.aru - i
  {
    if !d.exited && i <= d.aru && i in d.store {
      var e := if d.store[i].Fresh? then Deliver(d, i) else d;
      DiscardLoopAbove(e.(store := e.store - {i}), i + 1, hi);
    }
  }

  lemma DiscardAbove(d: State, hi: nat)
    ensures var e := Discard(d);
            && e.aru == d.aru && (forall s | s > d.aru :: s in e.store <==> s in d.store)
            && (!e.exited ==> e.discarded == Max(d.discarded, d.aru))
    ensures Discard(d.(hi := hi)) == Discard(d).(hi := hi)
  {
    DiscardLoopAbove(d, d.discarded + 1, hi);
  }

  /** Discarding up to an Aru that does not exceed My_aru finds every packet. */
  lemma DiscardKeeps(d: State, sent: seq<Packet>)
    requires Core(d, sent, d.discarded, d.delivered)
    requires d.discarded <= d.aru <= d.my
    ensures var e := Discard(d);
            Core(e, sent, e.discarded, e.delivered) && SameRest(d, e) && e.discarded == d.aru &&
            d.delivered <= e.delivered
  {
    hide LogOk, StoreOk;
    if d.aru > d.discarded {
      DiscardLoopKeeps(d, sent, d.discarded + 1);
      Framed(DiscardLoop(d, d.discarded + 1), Discard(d), sent, d.aru, Max(d.delivered, d.aru));
    }
  }

  lemma {:induction false} AdvanceCovers(store: Store, my: nat, hi: nat)
    requires my <= hi
    ensures forall t | my < t <= Advance(store, my, hi) :: t in store
    ensures var r := Advance(store, my, hi); r == hi || r + 1 !in store
    decreases hi - my
  {
    if my < hi && my + 1 in store {
      AdvanceCovers(store, my + 1, hi);
    }
  }

  /** A packet of the ring that was not there is put into the store. */
  lemma InsertKeeps(d: State, sent: seq<Packet>, s: nat, hi: nat, my: nat)
    requires Core(d, sent, d.discarded, d.delivered)
    requires 1 <= s <= |sent| && s !in d.store && s > d.discarded
    requires hi == Max(d.hi, s)
    requires my == d.my || (s == d.my + 1 && my == Advance(d.store[s := Fresh(sent[s - 1])], d.my, hi))
    ensures Core(d.(store := d.store[s := Fresh(sent[s - 1])], hi := hi, my := my), sent, d.discarded, d.delivered)
  {
    hide Ord, Seqs, Once, From, InSequence;
    var store := d.store[s := Fresh(sent[s - 1])];
    AdvanceCovers(store, d.my, hi);
    assert forall t: nat :: Early(store, t) == Early(d.store, t);
  }

  lemma KeysBelow(d: State, sent: seq<Packet>)
    requires Core(d, sent, d.discarded, d.delivered)
    ensures forall t | t in d.store :: d.discarded < t <= d.hi
  {
  }

  /** The packet that was missing: My_aru moves on to the next one missing. */
  lemma ReceiveNext(d: State, sent: seq<Packet>, s: nat)
    requires Local(d, sent)
    requires s == d.my + 1 && s <= |sent| && s !in d.store
    ensures var store := d.store[s := Fresh(sent[s - 1])];
            var hi := Max(d.hi, s);
            var d' := d.(store := store, hi := hi, my := Advance(store, d.my, hi));
            var e := DeliverAgreed(d');
            Core(e, sent, e.discarded, e.delivered) && SameRest(d', e) && e.discarded == d.discarded &&
            e.my + 1 !in e.store && e.my >= s
  {
    hide LogOk, StoreOk, DeliverAgreed, InSequence, Numbered;
    KeysBelow(d, sent);
    var store := d.store[s := Fresh(sent[s - 1])];
    var hi := Max(d.hi, s);
    AdvanceCovers(store, d.my, hi);
    InsertKeeps(d, sent, s, hi, Advance(store, d.my, hi));
    DeliverAgreedKeeps(d.(store := store, hi := hi, my := Advance(store, d.my, hi)), sent, d.discarded);
  }

  /** Receiving a packet of the ring, any number of times and in any order. */
  lemma ReceiveKeeps(d: State, sent: seq<Packet>, p: Packet)
    requires Local(d, sent)
    requires 1 <= p.seqNo <= |sent| && p == sent[p.seqNo - 1]
    ensures var e := Receive(d, p);
            && Local(e, sent)
            && d.my <= e.my && d.hi <= e.hi
            && e == d.(hi := e.hi, my := e.my, store := e.store, log := e.log, delivered := e.delivered)
            && (p.seqNo == d.my + 1 ==> e.my >= p.seqNo) && e.hi <= Max(d.hi, p.seqNo)
  {
    hide LogOk, StoreOk, DeliverAgreed, DeliverSingles, Advance;
    if p.seqNo > d.aru && p.seqNo !in d.store {
      if p.seqNo == d.my + 1 {
        ReceiveNext(d, sent, p.seqNo);
      } else {
        InsertKeeps(d, sent, p.seqNo, Max(d.hi, p.seqNo), d.my);
        var e := d.(store := d.store[p.seqNo := Fresh(p)], hi := Max(d.hi, p.seqNo));
        DeliverSinglesKeeps(e, sent, d.discarded, if p.seqNo <= e.delivered then e.delivered + 1 else p.seqNo, p.seqNo);
      }
    }
  }

  /** A daemon does not notice packets that others made. */
  lemma GrowKeeps(d: State, sent: seq<Packet>, more: seq<Packet>, lo: nat, del: nat)
    requires Core(d, sent, lo, del)
    requires Numbered(sent + more) && InSequence(sent + more)
    ensures Core(d, sent + more, lo, del)
  {
    hide Ord, Seqs, Once, InSequence;
    assert (sent + more)[..del] == sent[..del];
  }

  /** The messages given to a daemon are those its packets rebuild and those that still wait; what is
      chained of an unfinished message is what was taken of the first waiting one. */
  ghost predicate Fed(d: State, sent: seq<Packet>, posted: seq<Message>) {
    && posted == Rebuilt(sent, d.me) + d.down.msgs
    && Bodies(Chain(sent, d.me)) == if d.down.msgs == [] then [] else d.down.msgs[0].parts[..d.down.cur]
  }

  /** Numbering part k of message m, its parts before k being chained. */
  lemma TakePart(sent: seq<Packet>, m: Message, k: nat, p: Packet)
    requires k < |m.parts| && Bodies(Chain(sent, p.sender)) == m.parts[..k]
    requires p.service == m.service && p.body == m.parts[k]
    requires p.index == if k + 1 < |m.parts| then k + 1 else -|m.parts|
    ensures Accepts(sent, p)
    ensures var s := sent + [p];
            if k + 1 < |m.parts| then
              Rebuilt(s, p.sender) == Rebuilt(sent, p.sender) && Bodies(Chain(s, p.sender)) == m.parts[..k + 1]
            else
              Rebuilt(s, p.sender) == Rebuilt(sent, p.sender) + [m] && Chain(s, p.sender) == []
  {
    var chain := Chain(sent, p.sender);
    ChainAppend(sent, p, p.sender);
    BodiesAppend(chain, p);
    assert |chain| == |Bodies(chain)| == k;
    hide Chain, Rebuilt, Bodies;
    assert m.parts[..k + 1] == m.parts[..k] + [m.parts[k]];
    assert k + 1 == |m.parts| ==> m.parts == m.parts[..k + 1];
  }

  /** Taking the next part off the down queue and numbering it. */
  lemma FeedOne(d: State, sent: seq<Packet>, posted: seq<Message>)
    requires d.down.msgs != [] && d.hi == |sent|
    requires Fed(d, sent, posted)
    ensures var p := NextPacket(d);
            && Accepts(sent, p)
            && Fed(SendOne(d), sent + [p], posted)
  {
    hide Rebuilt, Chain, Bodies, Accepts;
    var p := NextPacket(d);
    var q := d.down;
    var m := q.msgs[0];
    TakePart(sent, m, q.cur, p);
    if q.cur + 1 == |m.parts| {
      assert Rebuilt(sent, d.me) + q.msgs == (Rebuilt(sent, d.me) + [m]) + q.msgs[1..];
      assert Bodies([]) == [] by { EmptyBodies(); }
    }
  }

  lemma SendOneCore(d: State, sent: seq<Packet>)
    requires Core(d, sent, d.discarded, d.delivered)
    requires d.down.msgs != [] && d.hi == |sent|
    requires Accepts(sent, NextPacket(d))
    ensures Core(SendOne(d), sent + [NextPacket(d)], d.discarded, d.delivered)
  {
    assert d.hi + 1 !in d.store && d.my <= d.hi;
    hide LogOk, StoreOk, InSequence, Accepts, Advance;
    var p := NextPacket(d);
    InSequenceAppend(sent, p);
    GrowKeeps(d, sent, [p], d.discarded, d.delivered);
    var e := d.(down := PopPart(d.down));
    Framed(d, e, sent + [p], d.discarded, d.delivered);
    InsertKeeps(e, sent + [p], d.hi + 1, d.hi + 1, d.my);
  }

  lemma SendOneKeeps(d: State, sent: seq<Packet>, posted: seq<Message>)
    requires Core(d, sent, d.discarded, d.delivered)
    requires d.down.msgs != [] && d.hi == |sent|
    requires Fed(d, sent, posted)
    ensures Core(SendOne(d), sent + [NextPacket(d)], d.discarded, d.delivered)
    ensures Fed(SendOne(d), sent + [NextPacket(d)], posted)
    ensures var e := SendOne(d);
            e == d.(store := d.store[d.hi + 1 := Fresh(NextPacket(d))], hi := d.hi + 1, down := e.down)
  {
    FeedOne(d, sent, posted);
    SendOneCore(d, sent);
    hide LogOk, InSequence, Fed, Accepts;
  }

  lemma {:induction false} SendManyKeeps(d: State, sent: seq<Packet>, posted: seq<Message>, n: nat)
    requires Core(d, sent, d.discarded, d.delivered)
    requires n <= |Lengths(d.down)| && d.hi == |sent|
    requires Fed(d, sent, posted)
    ensures var e := SendMany(d, n);
            var made := Made(d, n);
            && Core(e, sent + made, d.discarded, d.delivered)
            && Fed(e, sent + made, posted)
            && |made| == n && e.hi == |sent| + n
            && e == d.(store := e.store, hi := e.hi, down := e.down)
            && d.store.Keys <= e.store.Keys
            && (forall s | s in e.store :: s in d.store || s > d.hi)
            && (forall s | d.hi < s <= e.hi :: s in e.store)
    decreases n
  {
    hide LogOk, StoreOk, Numbered, InSequence, Fed;
    if n == 0 {
      assert sent + [] == sent;
    } else {
      var p := NextPacket(d);
      SendOneKeeps(d, sent, posted);
      SendManyKeeps(SendOne(d), sent + [p], posted, n - 1);
      assert sent + [p] + Made(SendOne(d), n - 1) == sent + Made(d, n);
      hide PopPart, Lengths, NextPacket, SendOne, Core, Made;
    }
  }

  /** What is requested: of the first room numbers looked at, every one that is missing, and no other. */
  lemma {:induction false} MissingIs(store: Store, from: nat, hi: nat, room: int, s: nat)
    ensures s in Missing(store, from, hi, room) <==> from <= s <= hi && s !in store && s - from < room
    decreases hi + 1 - from
  {
    if from <= hi && room > 0 {
      var rest := Missing(store, from + 1, hi, room - 1);
      var first := if from !in store then [from] else [];
      assert Missing(store, from, hi, room) == first + rest;
      MissingIs(store, from + 1, hi, room - 1, s);
      assert s in first + rest <==> s in first || s in rest;
    }
  }

  // Keys of the store.

  lemma {:induction false} AgreedKeys(d: State)
    ensures DeliverAgreed(d).store.Keys == d.store.Keys && DeliverAgreed(d).discarded == d.discarded
    decreases d.my - d.delivered
  {
    if !d.exited && d.my > d.delivered {
      var i := d.delivered + 1;
      if i in d.store {
        match d.store[i]
        case Fresh(p) => if !p.service.Safe? { AgreedKeys(Deliver(d, i).(delivered := i)); }
        case Handed(_) => AgreedKeys(d.(delivered := i));
        case Hole =>
      }
    }
  }

  lemma {:induction false} SinglesKeys(d: State, i: nat, end: int)
    ensures DeliverSingles(d, i, end).store.Keys == d.store.Keys && DeliverSingles(d, i, end).discarded == d.discarded
    decreases end - i
  {
    if !d.exited && i <= end {
      if i in d.store && d.store[i].Fresh? && Single(d.store[i].p) {
        SinglesKeys(Deliver(d, i), i + 1, end);
      } else {
        SinglesKeys(d, i + 1, end);
      }
    }
  }
}
