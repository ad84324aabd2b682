/** What recovery hands up, number by number: RELIABLE messages of one packet, which overtake others and so
    have no place in the order, are among what survives and go up with the rest. */
module EvsNumbers {
  import opened Packets
  import opened Daemon
  import opened DaemonInv
  import opened Form1
  import opened Evs
  import opened EvsRuns
  import AruRule

  function Numbers(a: nat, b: int): (r: set<nat>)
    ensures forall s: nat :: s in r <==> a <= s <= b
    decreases b - a
  {
    if b < a then {} else Numbers(a, b - 1) + {b}
  }

  /** Every packet handed up is the ring's packet of its number. */
  ghost predicate Genuine(log: seq<Packet>, sent: seq<Packet>) {
    forall i | 0 <= i < |log| :: 1 <= log[i].seqNo <= |sent| && sent[log[i].seqNo - 1] == log[i]
  }

  /** From log to log' exactly these numbers went up, if they had not. */
  ghost predicate Went(log: seq<Packet>, log': seq<Packet>, sent: seq<Packet>, seqs: set<nat>) {
    Seqs(log') == Seqs(log) + seqs && (Genuine(log, sent) ==> Genuine(log', sent))
  }

  lemma WentTwice(a: seq<Packet>, b: seq<Packet>, c: seq<Packet>, sent: seq<Packet>, s: set<nat>, t: set<nat>)
    requires Went(a, b, sent, s) && Went(b, c, sent, t)
    ensures Went(a, c, sent, s + t)
  {
    hide Genuine, Seqs;
  }

  lemma WentNothing(log: seq<Packet>, sent: seq<Packet>)
    ensures Went(log, log, sent, {})
  {
    hide Genuine, Seqs;
  }

  /** An entry of the array is taken. */
  lemma TakenGoes(d: State, sent: seq<Packet>, i: nat)
    requires i in d.store && 1 <= i <= |sent| && Numbered(sent)
    requires !d.store[i].Hole? && d.store[i].p == sent[i - 1] && (d.store[i].Handed? ==> i in Seqs(d.log))
    ensures Went(d.log, Taken(d, i).log, sent, {i})
  {
    if d.store[i].Fresh? {
      LogAppend(d.log, sent[i - 1]);
    }
  }

  lemma BeforeGoes(d: State, sent: seq<Packet>, e: Entry, i: nat, del: nat)
    requires Before(d, sent, e, i, del) && i <= e.highest
    requires i !in e.holes && !sent[i - 1].service.Safe?
    ensures i in d.store && Went(d.log, Taken(d, i).log, sent, {i})
  {
    BeforeStep(d, sent, e, i, del);
    hide Ord, Seqs, Once, InSequence, Numbered, Single, Accepts, Up, Contents, Complete, Went, Taken;
    assert MarkAt(d.store, Seqs(d.log), sent, e, del, i);
    assert d.store[i].Handed? ==> i in Seqs(d.log);
    TakenGoes(d, sent, i);
  }

  /** Before the transitional signal everything goes up that lies before the first hole or SAFE packet. */
  lemma {:induction false} HandUpBeforeNumbers(d: State, sent: seq<Packet>, e: Entry, i: nat, del: nat)
    requires Before(d, sent, e, i, del)
    ensures 1 <= i <= e.highest + 1 && e.highest <= |sent|
    ensures Went(d.log, HandUpBefore(d, i).log, sent, Numbers(i, Cut(sent, e.holes, i, e.highest)))
    decreases e.highest + 1 - i
  {
    hide Before, HandUpBefore, Cut, Taken, Went;
    BeforeShape(d, sent, e, i, del);
    if i > e.highest || i in e.holes || sent[i - 1].service.Safe? {
      BeforeStop(d, sent, e, i, del);
      WentNothing(d.log, sent);
      assert Numbers(i, i - 1) == {};
    } else {
      BeforeStep(d, sent, e, i, del);
      BeforeUnfold(d, sent, e, i, del);
      BeforeGoes(d, sent, e, i, del);
      HandUpBeforeNumbers(Taken(d, i), sent, e, i + 1, Max(del, i));
      var cut := Cut(sent, e.holes, i + 1, e.highest);
      WentTwice(d.log, Taken(d, i).log, HandUpBefore(d, i).log, sent, {i}, Numbers(i + 1, cut));
      assert {i} + Numbers(i + 1, cut) == Numbers(i, cut);
    }
  }

  lemma AfterGoes(d: State, sent: seq<Packet>, e: Entry, i: nat, q: seq<Packet>)
    requires After(d, sent, e, i, q) && i <= e.highest && i !in e.holes
    ensures i in d.store && Went(d.log, Taken(d, i).log, sent, {i}) && sent[i - 1].seqNo == i
  {
    AfterEntry(d, sent, e, i, q);
    hide Ord, Seqs, Once, InSequence, Single, Accepts, Contents, Complete, Went, Taken;
    assert RestAt(d.store, Seqs(d.log), sent, i);
    assert d.store[i].Handed? ==> i in Seqs(d.log);
    TakenGoes(d, sent, i);
  }

  lemma SeqsConcat(p: Packet, rest: seq<Packet>)
    ensures Seqs([p] + rest) == {p.seqNo} + Seqs(rest)
    decreases |rest|
  {
    if rest == [] {
      LogAppend([], p);
      assert [] + [p] == [p] + rest;
    } else {
      var r := rest[..|rest| - 1];
      assert ([p] + rest)[..|[p] + rest| - 1] == [p] + r;
      SeqsConcat(p, r);
    }
  }

  /** After it everything goes up that survives. */
  lemma {:induction false} HandUpAfterNumbers(d: State, sent: seq<Packet>, e: Entry, i: nat, hole: bool, q: seq<Packet>)
    requires After(d, sent, e, i, q)
    ensures 1 <= i && e.highest <= |sent|
    ensures var f := HandUpAfter(d, i, hole, e.commit);
            !f.exited ==> Went(d.log, f.log, sent, Seqs(Picked(sent, e, i, hole)))
    decreases e.highest + 1 - i
  {
    hide After, HandUpAfter, Picked, Once, Ord, Taken, InSequence, Accepts, Went, Seqs;
    AfterDone(d, sent, e, i, hole, q);
    if i == e.highest + 1 {
      WentNothing(d.log, sent);
      NoNumbers();
    } else {
      AfterEntry(d, sent, e, i, q);
      AfterUnfolded(d, sent, e, i, hole);
      var p := sent[i - 1];
      if i in e.holes || (hole && p.sender !in e.commit) {
        AfterLeaveOut(d, sent, e, i, q);
        HandUpAfterNumbers(Dropped(d, i), sent, e, i + 1, true, q);
      } else {
        var f := Taken(d, i).(discarded := d.discarded);
        AfterGoes(d, sent, e, i, q);
        if Accepts(q, p) {
          AfterPick(d, sent, e, i, q);
          HandUpAfterNumbers(f, sent, e, i + 1, hole, q + [p]);
          var g := HandUpAfter(d, i, hole, e.commit);
          if !g.exited {
            WentTwice(d.log, f.log, g.log, sent, {i}, Seqs(Picked(sent, e, i + 1, hole)));
            SeqsConcat(p, Picked(sent, e, i + 1, hole));
          }
        } else {
          AfterRefuse(d, sent, e, i, q);
          ExitedAfter(f, i + 1, hole, e.commit);
        }
      }
    }
  }

  lemma NoNumbers()
    ensures Seqs([]) == {}
  {
  }

  lemma BeforeNumbered(d: State, sent: seq<Packet>, e: Entry, i: nat, del: nat)
    requires Before(d, sent, e, i, del)
    ensures Numbered(sent)
  {
  }

  /** The two loops together. */
  lemma RecoverNumbers(d: State, sent: seq<Packet>, e: Entry, del: nat)
    requires Before(d, sent, e, e.aru + 1, del)
    ensures e.aru <= e.highest <= |sent|
    ensures var o := Recover(d, e.commit);
            && Went(d.log, o.before, sent, Numbers(e.aru + 1, Cut(sent, e.holes, e.aru + 1, e.highest)))
            && (!o.d.exited ==> Went(d.log, o.log, sent, Seqs(Picked(sent, e, e.aru + 1, false))))
  {
    hide Before, After, HandUpBefore, HandUpAfter, Cut, Picked, Ord, Once, SameRest, InSequence, Went, Seqs;
    BeforeShape(d, sent, e, e.aru + 1, del);
    BeforeNumbered(d, sent, e, e.aru + 1, del);
    HandUpBeforeKeeps(d, sent, e, e.aru + 1, del);
    HandUpBeforeNumbers(d, sent, e, e.aru + 1, del);
    var cut := Cut(sent, e.holes, e.aru + 1, e.highest);
    var b := HandUpBefore(d, e.aru + 1);
    CutDiscarded(b, sent, e, cut);
    CutToAfter(b, sent, e, cut);
    HandUpAfterNumbers(b, sent, e, cut + 1, false, sent[..cut]);
    var o := Recover(d, e.commit);
    if !o.d.exited {
      WentTwice(d.log, b.log, o.log, sent, Numbers(e.aru + 1, cut), Seqs(Picked(sent, e, cut + 1, false)));
      PickedNumbers(sent, e, e.aru + 1);
    }
  }

  lemma {:induction false} PickedNumbers(sent: seq<Packet>, e: Entry, i: nat)
    requires 1 <= i <= e.highest + 1 && e.highest <= |sent| && Numbered(sent)
    ensures var cut := Cut(sent, e.holes, i, e.highest);
            Numbers(i, cut) + Seqs(Picked(sent, e, cut + 1, false)) == Seqs(Picked(sent, e, i, false))
    decreases e.highest + 1 - i
  {
    hide Seqs;
    var cut := Cut(sent, e.holes, i, e.highest);
    if !(i > e.highest || i in e.holes || sent[i - 1].service.Safe?) {
      PickedNumbers(sent, e, i + 1);
      SeqsConcat(sent[i - 1], Picked(sent, e, i + 1, false));
      assert {i} + Numbers(i + 1, cut) == Numbers(i, cut);
    } else {
      assert Numbers(i, cut) == {};
    }
  }

  /** A packet of the ring is in a log exactly when its number is. */
  lemma {:induction false} InOfSeqs(log: seq<Packet>, sent: seq<Packet>, p: Packet)
    requires Genuine(log, sent)
    ensures p in log <==> 1 <= p.seqNo <= |sent| && sent[p.seqNo - 1] == p && p.seqNo in Seqs(log)
  {
    if log != [] {
      var rest, last := log[..|log| - 1], log[|log| - 1];
      assert log == rest + [last];
      assert forall i | 0 <= i < |rest| :: rest[i] == log[i];
      InOfSeqs(rest, sent, p);
    }
  }

  lemma {:induction false} PickedGenuine(sent: seq<Packet>, e: Entry, i: nat, hole: bool)
    requires 1 <= i && e.highest <= |sent| && Numbered(sent)
    ensures Genuine(Picked(sent, e, i, hole), sent)
    decreases e.highest + 1 - i
  {
    if i <= e.highest {
      PickedGenuine(sent, e, i + 1, hole || i in e.holes);
    }
  }

  lemma {:induction false} PrefixNumbers(sent: seq<Packet>, n: nat)
    requires n <= |sent| && Numbered(sent)
    ensures Genuine(sent[..n], sent) && Seqs(sent[..n]) == Numbers(1, n)
  {
    if n > 0 {
      PrefixNumbers(sent, n - 1);
      assert sent[..n][..n - 1] == sent[..n - 1];
      assert Numbers(1, n) == Numbers(1, n - 1) + {n};
    }
  }

  /** From log to log' exactly these packets of the ring went up, if they had not. */
  lemma WentIs(log: seq<Packet>, log': seq<Packet>, sent: seq<Packet>, q: seq<Packet>, p: Packet)
    requires Genuine(log, sent) && Went(log, log', sent, Seqs(q)) && Genuine(q, sent)
    ensures p in log' <==> p in log || p in q
  {
    InOfSeqs(log, sent, p);
    InOfSeqs(log', sent, p);
    InOfSeqs(q, sent, p);
    hide Genuine;
  }

  /** More went up than was known to: what already was up adds nothing. */
  lemma WentBelow(log: seq<Packet>, log': seq<Packet>, sent: seq<Packet>, seqs: set<nat>, n: nat)
    requires Went(log, log', sent, seqs) && UpTo(log, n)
    ensures Went(log, log', sent, Numbers(1, n) + seqs)
  {
    hide Genuine;
    assert Numbers(1, n) <= Seqs(log);
  }

  lemma {:induction false} SeqsPlus(a: seq<Packet>, b: seq<Packet>)
    ensures Seqs(a + b) == Seqs(a) + Seqs(b)
  {
    if b == [] {
      assert a + b == a;
    } else {
      var r, p := b[..|b| - 1], b[|b| - 1];
      assert a + b == (a + r) + [p] && b == r + [p];
      SeqsPlus(a, r);
      LogAppend(a + r, p);
      LogAppend(r, p);
    }
  }

  /** Exactly these packets are in the log after it. */
  ghost predicate Exactly(log': seq<Packet>, log: seq<Packet>, q: seq<Packet>) {
    forall p :: p in log' <==> p in log || p in q
  }

  lemma WentExactly(log: seq<Packet>, log': seq<Packet>, sent: seq<Packet>, q: seq<Packet>)
    requires Genuine(log, sent) && Went(log, log', sent, Seqs(q)) && Genuine(q, sent)
    ensures Exactly(log', log, q)
  {
    forall p
      ensures p in log' <==> p in log || p in q
    {
      WentIs(log, log', sent, q, p);
    }
  }

  lemma BeforeExactly(log: seq<Packet>, log': seq<Packet>, sent: seq<Packet>, aru: nat, cut: nat)
    requires aru <= cut <= |sent| && Numbered(sent) && Genuine(log, sent) && UpTo(log, aru)
    requires Went(log, log', sent, Numbers(aru + 1, cut))
    ensures Exactly(log', log, sent[..cut])
  {
    hide Went, Seqs, Genuine, UpTo, Numbers, Exactly;
    PrefixNumbers(sent, cut);
    WentBelow(log, log', sent, Numbers(aru + 1, cut), aru);
    NumbersJoin(aru, cut);
    WentExactly(log, log', sent, sent[..cut]);
  }

  lemma SurvivingExactly(log: seq<Packet>, log': seq<Packet>, sent: seq<Packet>, e: Entry)
    requires e.aru <= e.highest <= |sent| && Numbered(sent) && Genuine(log, sent) && UpTo(log, e.aru)
    requires Went(log, log', sent, Seqs(Picked(sent, e, e.aru + 1, false)))
    ensures Exactly(log', log, Surviving(sent, e))
  {
    hide Went, Seqs, Genuine, UpTo, Numbers, Picked, Exactly;
    var q, rest := sent[..e.aru], Picked(sent, e, e.aru + 1, false);
    PrefixNumbers(sent, e.aru);
    PickedGenuine(sent, e, e.aru + 1, false);
    WentBelow(log, log', sent, Seqs(rest), e.aru);
    SeqsPlus(q, rest);
    GenuineBoth(q, rest, sent);
    WentExactly(log, log', sent, q + rest);
  }

  /** A daemon in EVS that has everything up to its Highest_seq hands up, singles included: before the signal
      everything below the first hole or SAFE packet, and in all exactly what survives. */
  lemma EverythingUp(d: State, sent: seq<Packet>, e: Entry, lastSeq: nat)
    requires InEvs(d, sent, e, lastSeq) && d.my == lastSeq && Complete(d.store, e.aru + 1, d.hi)
    requires Genuine(d.log, sent)
    ensures e.aru <= d.hi <= |sent|
    ensures var o := Recover(d, e.commit);
            && Exactly(o.before, d.log, sent[..Cut(sent, e.holes, e.aru + 1, d.hi)])
            && (!o.d.exited ==> Exactly(o.log, d.log, Surviving(sent, WithHighest(e, d.hi))))
  {
    hide Before, Recover, Cut, Picked, Went, Seqs, Genuine, UpTo, Numbers, InEvs, Exactly, Surviving, Complete;
    var r := WithHighest(e, d.hi);
    InEvsUp(d, sent, e, lastSeq);
    CompleteBefore(d, sent, e, lastSeq);
    BeforeNumbered(d, sent, r, e.aru + 1, d.delivered);
    RecoverNumbers(d, sent, r, d.delivered);
    var o := Recover(d, e.commit);
    BeforeExactly(d.log, o.before, sent, e.aru, Cut(sent, e.holes, e.aru + 1, d.hi));
    if !o.d.exited {
      SurvivingExactly(d.log, o.log, sent, r);
    }
  }

  lemma InEvsUp(d: State, sent: seq<Packet>, e: Entry, lastSeq: nat)
    requires InEvs(d, sent, e, lastSeq)
    ensures UpTo(d.log, e.aru) && e.aru <= d.hi <= |sent| && d.discarded == e.aru
  {
  }

  lemma NumbersJoin(aru: nat, cut: nat)
    requires aru <= cut
    ensures Numbers(1, aru) + Numbers(aru + 1, cut) == Numbers(1, cut)
  {
  }

  lemma GenuineBoth(a: seq<Packet>, b: seq<Packet>, sent: seq<Packet>)
    requires Genuine(a, sent) && Genuine(b, sent)
    ensures Genuine(a + b, sent)
  {
  }

  // From the FORM2 token on.

  lemma DiscardGoes(d: State, sent: seq<Packet>, i: nat)
    requires i >= 1 && Core(d, sent, i - 1, Max(d.delivered, i - 1)) && i <= d.aru <= d.my
    ensures i in d.store && Went(d.log, Taken(d, i).log, sent, {i})
  {
    hide Ord, Seqs, Once, InSequence, Accepts, Went, Taken;
    assert d.store[i].Handed? ==> i in Seqs(d.log);
    TakenGoes(d, sent, i);
  }

  lemma {:induction false} DiscardLoopNumbers(d: State, sent: seq<Packet>, i: nat)
    requires i >= 1 && Core(d, sent, i - 1, Max(d.delivered, i - 1)) && i - 1 <= d.aru <= d.my
    ensures Went(d.log, DiscardLoop(d, i).log, sent, Numbers(i, d.aru))
    decreases d.aru - i
  {
    hide LogOk, StoreOk, Went, Seqs;
    if i <= d.aru {
      DiscardStep(d, sent, i, Max(d.delivered, i - 1));
      DiscardGoes(d, sent, i);
      var e := if d.store[i].Fresh? then Deliver(d, i) else d;
      var f := e.(store := e.store - {i});
      DiscardLoopNumbers(f, sent, i + 1);
      WentTwice(d.log, f.log, DiscardLoop(d, i).log, sent, {i}, Numbers(i + 1, d.aru));
      assert {i} + Numbers(i + 1, d.aru) == Numbers(i, d.aru);
    } else {
      WentNothing(d.log, sent);
      assert Numbers(i, d.aru) == {};
    }
  }

  lemma GenuineLog(d: State, sent: seq<Packet>)
    requires Core(d, sent, d.discarded, d.delivered)
    ensures Genuine(d.log, sent) && UpTo(d.log, d.discarded) && Numbered(sent)
  {
  }

  lemma ExactlySelf(log: seq<Packet>, sent: seq<Packet>, n: nat)
    requires n <= |sent| && Numbered(sent) && Genuine(log, sent) && UpTo(log, n)
    ensures Exactly(log, log, sent[..n])
  {
    hide Went, Seqs, Genuine, UpTo, Exactly;
    WentNothing(log, sent);
    NumbersNone(n);
    BeforeExactly(log, log, sent, n, n);
  }

  lemma NumbersNone(n: nat)
    ensures Numbers(n + 1, n) == {}
  {
  }

  /** Discard_packets outside EVS hands up everything up to Aru. */
  lemma DiscardExactly(d: State, sent: seq<Packet>)
    requires Core(d, sent, d.discarded, d.delivered) && d.discarded <= d.aru <= d.my <= |sent|
    ensures Exactly(Discard(d).log, d.log, sent[..d.aru])
  {
    GenuineLog(d, sent);
    hide LogOk, StoreOk, Went, Seqs, Genuine, UpTo, Exactly, DiscardLoop;
    if d.aru > d.discarded {
      DiscardLoopNumbers(d, sent, d.discarded + 1);
      BeforeExactly(d.log, Discard(d).log, sent, d.discarded, d.aru);
    } else {
      ExactlySelf(d.log, sent, d.aru);
    }
  }

  /** What Read_form2 hands up. */
  lemma ReadForm2Exactly(d: State, sent: seq<Packet>, e: Entry, lastSeq: nat)
    requires Form2Ok(d, sent, e) && |sent| < lastSeq
    ensures e.aru <= |sent|
    ensures Exactly(ReadForm2(d, e).log, d.log, sent[..e.aru]) && Genuine(ReadForm2(d, e).log, sent)
  {
    var d1 := d.(aru := e.aru);
    Framed(d, d1, sent, d.discarded, d.delivered);
    DiscardExactly(d1, sent);
    DiscardKeeps(d1, sent);
    DiscardAbove(d1, e.highest);
    hide Discard, LogOk, StoreOk, Exactly, Genuine, Increasing;
    var f := Discard(d1);
    GenuineLog(f, sent);
    MarkHolesIs(f.(hi := e.highest), e.holes);
  }

  /** Nothing is handed up while a daemon is in EVS. */
  lemma {:induction false} NothingInEvs(d: State, e: Entry, lastSeq: nat, sent: seq<Packet>, evs: seq<Event>)
    ensures Run(d, e, lastSeq, sent, evs).d.log == d.log
    decreases |evs|
  {
    hide Recover, AruRule.VisitView;
    if evs != [] {
      match Step(d, e, lastSeq, sent, evs[0])
      case Done(f, o) =>
      case Recovering(f) => NothingInEvs(f, e, lastSeq, sent, evs[1..]);
    }
  }

  lemma ExactlyTwice(a: seq<Packet>, b: seq<Packet>, c: seq<Packet>, p: seq<Packet>, q: seq<Packet>)
    requires Exactly(b, a, p) && Exactly(c, b, q) && forall x | x in p :: x in q
    ensures Exactly(c, a, q)
  {
  }

  /** From the FORM2 token to the next ring, whatever arrives: a daemon that ends with everything up to its
      Highest_seq has handed up before the signal, beside what had gone up at the FORM2 token, exactly the packets
      below the first hole or SAFE packet, and in all exactly what survives; singles included. */
  lemma SurvivorsUp(d: State, sent: seq<Packet>, e: Entry, lastSeq: nat, evs: seq<Event>)
    requires Form2Ok(d, sent, e) && |sent| < lastSeq
    ensures match Run(ReadForm2(d, e), e, lastSeq, sent, evs)
            case Recovering(f) => e.aru <= |sent| && Exactly(f.log, d.log, sent[..e.aru])
            case Done(f, o) =>
              e.aru <= f.hi <= |sent| &&
              (Complete(f.store, e.aru + 1, f.hi) ==>
                && Exactly(o.before, d.log, sent[..Cut(sent, e.holes, e.aru + 1, f.hi)])
                && (!o.d.exited ==> Exactly(o.log, d.log, Surviving(sent, WithHighest(e, f.hi)))))
  {
    ReadForm2Keeps(d, sent, e, lastSeq);
    ReadForm2Exactly(d, sent, e, lastSeq);
    var f := ReadForm2(d, e);
    RunKeeps(f, sent, e, lastSeq, evs);
    NothingInEvs(f, e, lastSeq, sent, evs);
    var r := Run(f, e, lastSeq, sent, evs);
    InEvsShape(r.d, sent, e, lastSeq);
    hide Form2Ok, InEvs, Run, ReadForm2, Recover, Complete, Cut, Exactly, Genuine, Picked, Traced;
    if r.Done? && Complete(r.d.store, e.aru + 1, r.d.hi) {
      EverythingUp(r.d, sent, e, lastSeq);
      ExactlyTwice(d.log, f.log, r.o.before, sent[..e.aru], sent[..Cut(sent, e.holes, e.aru + 1, r.d.hi)]);
      if !r.o.d.exited {
        ExactlyTwice(d.log, f.log, r.o.log, sent[..e.aru], Surviving(sent, WithHighest(e, r.d.hi)));
      }
    }
  }
}
