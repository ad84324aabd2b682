/** Runs of recovery: whatever packets of the old ring and whatever tokens reach a daemon between the FORM1
    token and the next ring, when it ends with the right outcome, and when daemons that read the same entry
    end with the same one. */
module EvsRuns {
  import opened Packets
  import opened Daemon
  import opened DaemonInv
  import opened Form1
  import opened Evs
  import RingSafety

  /** The entry with another Highest_seq. */
  function WithHighest(e: Entry, hi: nat): Entry {
    e.(highest := hi)
  }

  /** The holes of an entry lie above its aru, up to its Highest_seq. */
  ghost predicate HolesIn(e: Entry) {
    forall h | h in e.holes :: e.aru < h <= e.highest
  }

  /** Above the entry's aru the array holds its holes and packets of the ring. */
  ghost predicate Holds(store: Store, sent: seq<Packet>, e: Entry) {
    && (forall h | h in e.holes :: h in store)
    && forall s | s in store && s > e.aru ::
         s <= |sent| && if s in e.holes then store[s].Hole? else !store[s].Hole? && store[s].p == sent[s - 1]
  }

  ghost predicate Marked(store: Store, seqs: set<nat>, sent: seq<Packet>, e: Entry, del: nat) {
    forall s: nat | e.aru < s <= |sent| :: MarkAt(store, seqs, sent, e, del, s)
  }

  /** How far My_aru got: to the form token's number once nothing was missing. */
  ghost predicate Reach(d: State, sent: seq<Packet>, e: Entry, lastSeq: nat) {
    if d.my == lastSeq then Complete(d.store, e.aru + 1, e.highest) && d.delivered <= d.hi
    else d.delivered <= d.my <= |sent| && Complete(d.store, e.aru + 1, d.my)
  }

  /** Every number up to aru was handed up. */
  ghost predicate UpTo(log: seq<Packet>, aru: nat) {
    forall s: nat | 1 <= s <= aru :: s in Seqs(log)
  }

  /** A daemon in EVS.  Packets that the entry does not know may have arrived, before the FORM2 token or since,
      and old ones again. */
  ghost predicate InEvs(d: State, sent: seq<Packet>, e: Entry, lastSeq: nat) {
    && !d.exited && d.discarded == e.aru && e.aru <= e.highest <= d.hi <= |sent| < lastSeq
    && Numbered(sent) && InSequence(sent) && HolesIn(e)
    && Holds(d.store, sent, e)
    && Up(d.log, sent, d.delivered) && Marked(d.store, Seqs(d.log), sent, e, d.delivered) && UpTo(d.log, e.aru)
    && d.last <= d.my && e.aru <= d.my && e.aru <= d.delivered
    && Reach(d, sent, e, lastSeq)
  }

  lemma MarkedInsert(store: Store, seqs: set<nat>, sent: seq<Packet>, e: Entry, del: nat, s: nat)
    requires Marked(store, seqs, sent, e, del) && Holds(store, sent, e)
    requires s !in store && 1 <= s <= |sent|
    ensures var store' := store[s := Fresh(sent[s - 1])];
            Holds(store', sent, e) && Marked(store', seqs, sent, e, del)
  {
    hide Single;
    var store' := store[s := Fresh(sent[s - 1])];
    forall t: nat | e.aru < t <= |sent|
      ensures MarkAt(store', seqs, sent, e, del, t)
    {
      assert MarkAt(store, seqs, sent, e, del, t);
    }
  }

  /** Any packet of the ring arrives. */
  lemma InsertKeeps(d: State, sent: seq<Packet>, e: Entry, lastSeq: nat, s: nat)
    requires InEvs(d, sent, e, lastSeq) && 1 <= s <= |sent|
    ensures InEvs(Evs.Insert(d, sent[s - 1]), sent, e, lastSeq)
    ensures var f := Evs.Insert(d, sent[s - 1]);
            && (s > d.aru ==> s in f.store)
            && (if s == d.my + 1 && s > d.aru && s !in d.store then
                  s <= f.my <= f.hi && (f.my < f.hi ==> f.my + 1 !in f.store)
                else f.my == d.my)
  {
    hide Up, InSequence, Marked, Holds, HolesIn;
    var p := sent[s - 1];
    assert p.seqNo == s;
    if s > d.aru && s !in d.store {
      MarkedInsert(d.store, Seqs(d.log), sent, e, d.delivered, s);
      if s == d.my + 1 {
        AdvanceCovers(d.store[s := Fresh(p)], d.my, Max(d.hi, s));
      }
    }
  }

  lemma InsertFrame(d: State, p: Packet)
    ensures var f := Evs.Insert(d, p);
            && f.me == d.me && f.down == d.down && f.aru == d.aru && f.last == d.last
            && d.hi <= f.hi && (f.hi == d.hi || f.hi == p.seqNo)
            && (forall s :: s in f.store ==> s in d.store || s == p.seqNo) && (forall s | s in d.store :: s in f.store)
  {
  }

  /** The token comes. */
  lemma CommitKeeps(d: State, sent: seq<Packet>, e: Entry, lastSeq: nat, t: Token)
    requires InEvs(d, sent, e, lastSeq)
    ensures var f := Commit(d, t, lastSeq);
            && InEvs(f, sent, e, lastSeq)
            && (f.my == lastSeq <==> d.my == lastSeq || (d.my <= d.hi && Complete(d.store, e.aru + 1, d.hi)))
            && (f.aru == lastSeq ==> f.my == lastSeq)
  {
    hide Up, InSequence, Marked, Holds, HolesIn, Numbered;
    if d.my <= d.hi {
      AdvanceCovers(d.store, d.my, d.hi);
    }
  }

  lemma CommitFrame(d: State, t: Token, lastSeq: nat)
    ensures var f := Commit(d, t, lastSeq);
            f.me == d.me && f.down == d.down && f.hi == d.hi && f.store == d.store && f.log == d.log &&
            f.exited == d.exited
  {
  }

  lemma InEvsShape(d: State, sent: seq<Packet>, e: Entry, lastSeq: nat)
    requires InEvs(d, sent, e, lastSeq)
    ensures !d.exited && d.discarded == e.aru && e.aru <= e.highest <= d.hi <= |sent| < lastSeq
    ensures HolesIn(e) && InSequence(sent)
    ensures forall j | 0 <= j < |sent| :: sent[j].seqNo == j + 1
  {
    hide Up, InSequence, Marked, Holds, HolesIn, Reach;
  }

  lemma InEvsReached(d: State, sent: seq<Packet>, e: Entry, lastSeq: nat)
    requires InEvs(d, sent, e, lastSeq)
    ensures e.aru <= d.my
  {
  }

  /** Packets of the ring that arrive in EVS are none that the entry does not know. */
  predicate Timely(evs: seq<Event>, e: Entry) {
    forall i | 0 <= i < |evs| && evs[i].Got? :: evs[i].s <= e.highest
  }

  /** No packet arrives in EVS that was discarded before. */
  predicate NoneOld(evs: seq<Event>, e: Entry) {
    forall i | 0 <= i < |evs| && evs[i].Got? :: e.aru < evs[i].s
  }

  /** What a run in EVS leaves of the daemon; hi and the array hold nothing but what was there or arrived. */
  ghost predicate Traced(d: State, f: State, evs: seq<Event>) {
    && f.me == d.me && f.down == d.down
    && (f.hi == d.hi || Got(f.hi) in evs)
    && (forall s | s in f.store :: s in d.store || Got(s) in evs)
    && (forall s | s in d.store :: s in f.store)
  }

  /** A daemon after the run, which has gone over to the next ring or not. */
  ghost predicate RunOk(r: Phase, d: State, sent: seq<Packet>, e: Entry, lastSeq: nat, evs: seq<Event>) {
    && InEvs(r.d, sent, e, lastSeq) && Traced(d, r.d, evs)
    && (r.Done? ==> r.d.my == lastSeq && r.o == Recover(r.d, e.commit))
  }

  lemma TracedInsert(d: State, f: State, s: nat, sent: seq<Packet>, evs: seq<Event>)
    requires 1 <= s <= |sent| && sent[s - 1].seqNo == s && Traced(Evs.Insert(d, sent[s - 1]), f, evs)
    ensures Traced(d, f, [Got(s)] + evs)
  {
    InsertFrame(d, sent[s - 1]);
    hide Evs.Insert;
    assert forall x :: Got(x) in [Got(s)] + evs <==> x == s || Got(x) in evs;
  }

  lemma TracedMore(d: State, f: State, ev: Event, evs: seq<Event>)
    requires Traced(d, f, evs)
    ensures Traced(d, f, [ev] + evs)
  {
  }

  lemma TracedCommit(d: State, f: State, t: Token, lastSeq: nat, evs: seq<Event>)
    requires Traced(Commit(d, t, lastSeq), f, evs)
    ensures Traced(d, f, evs)
  {
    CommitFrame(d, t, lastSeq);
  }

  lemma TracedSelf(d: State, evs: seq<Event>)
    ensures Traced(d, d, evs)
  {
  }

  lemma {:induction false} RunKeeps(d: State, sent: seq<Packet>, e: Entry, lastSeq: nat, evs: seq<Event>)
    requires InEvs(d, sent, e, lastSeq)
    ensures RunOk(Run(d, e, lastSeq, sent, evs), d, sent, e, lastSeq, evs)
    decreases |evs|
  {
    hide InEvs, Recover, Commit, Evs.Insert, Traced;
    if evs == [] {
      TracedSelf(d, evs);
    } else {
      InEvsShape(d, sent, e, lastSeq);
      assert evs == [evs[0]] + evs[1..];
      match evs[0]
      case Got(s) =>
        if 1 <= s <= |sent| {
          InsertKeeps(d, sent, e, lastSeq, s);
          RunKeeps(Evs.Insert(d, sent[s - 1]), sent, e, lastSeq, evs[1..]);
          TracedInsert(d, Run(d, e, lastSeq, sent, evs).d, s, sent, evs[1..]);
        } else {
          RunKeeps(d, sent, e, lastSeq, evs[1..]);
          TracedMore(d, Run(d, e, lastSeq, sent, evs).d, evs[0], evs[1..]);
        }
      case TokenAt(t) =>
        CommitKeeps(d, sent, e, lastSeq, t);
        var f := Commit(d, t, lastSeq);
        if f.aru > f.discarded && f.aru == lastSeq {
          TracedSelf(f, evs[1..]);
          TracedCommit(d, f, t, lastSeq, evs[1..]);
          TracedMore(d, f, evs[0], evs[1..]);
        } else {
          RunKeeps(f, sent, e, lastSeq, evs[1..]);
          TracedCommit(d, Run(d, e, lastSeq, sent, evs).d, t, lastSeq, evs[1..]);
          TracedMore(d, Run(d, e, lastSeq, sent, evs).d, evs[0], evs[1..]);
        }
    }
  }

  /** With everything up to its Highest_seq the daemon is as the loops want it, for the entry with that
      Highest_seq. */
  lemma CompleteBefore(d: State, sent: seq<Packet>, e: Entry, lastSeq: nat)
    requires InEvs(d, sent, e, lastSeq) && d.my == lastSeq && Complete(d.store, e.aru + 1, d.hi)
    ensures Before(d, sent, WithHighest(e, d.hi), e.aru + 1, d.delivered)
  {
    hide Up, InSequence, Numbered, Complete;
    hide MarkAt;
    var r := WithHighest(e, d.hi);
    forall s: nat | e.aru + 1 <= s <= d.hi
      ensures MarkAt(d.store, Seqs(d.log), sent, r, d.delivered, s)
    {
      assert MarkAt(d.store, Seqs(d.log), sent, e, d.delivered, s);
      MarkOfRaised(d.store, Seqs(d.log), sent, e, d.hi, d.delivered, s);
    }
  }

  lemma MarkOfRaised(store: Store, seqs: set<nat>, sent: seq<Packet>, e: Entry, hi: nat, del: nat, s: nat)
    requires 1 <= s <= |sent| && MarkAt(store, seqs, sent, e, del, s)
    ensures MarkAt(store, seqs, sent, WithHighest(e, hi), del, s)
  {
  }

  /** A packet that is not there ends recovery with a fatal exit. */
  lemma {:induction false} GapBefore(d: State, i: nat, g: nat)
    requires 1 <= i <= g <= d.hi && g !in d.store && d.discarded == i - 1
    ensures var b := HandUpBefore(d, i); b.exited || (g !in b.store && b.discarded < g <= b.hi)
    decreases d.hi + 1 - i
  {
    if !d.exited && i in d.store && !d.store[i].Hole? && !d.store[i].p.service.Safe? {
      var e := if d.store[i].Fresh? then Deliver(d, i) else d;
      var f := e.(store := e.store - {i}, discarded := i);
      assert HandUpBefore(d, i) == HandUpBefore(f, i + 1);
      GapBefore(f, i + 1, g);
    }
  }

  lemma {:induction false} GapAfter(d: State, i: nat, hole: bool, commit: seq<nat>, g: nat)
    requires i <= g <= d.hi && g !in d.store
    ensures HandUpAfter(d, i, hole, commit).exited
    decreases d.hi + 1 - i
  {
    if !d.exited && i in d.store {
      if d.store[i].Hole? {
        GapAfter(d.(store := d.store - {i}), i + 1, true, commit, g);
      } else {
        var e := if (!hole || d.store[i].p.sender in commit) && d.store[i].Fresh? then Deliver(d, i) else d;
        var f := e.(store := e.store - {i});
        assert HandUpAfter(d, i, hole, commit) == HandUpAfter(f, i + 1, hole, commit);
        GapAfter(f, i + 1, hole, commit, g);
      }
    }
  }

  lemma GapExits(d: State, commit: seq<nat>, g: nat)
    requires d.discarded < g <= d.hi && g !in d.store
    ensures Recover(d, commit).d.exited
  {
    hide HandUpBefore, HandUpAfter;
    GapBefore(d, d.discarded + 1, g);
    var b := HandUpBefore(d, d.discarded + 1);
    if b.exited {
      ExitedAfter(b, b.discarded + 1, false, commit);
    } else {
      GapAfter(b, b.discarded + 1, false, commit, g);
    }
  }

  ghost predicate HoleFrom(e: Entry, i: nat) {
    exists h :: h in e.holes && i <= h <= e.highest
  }

  lemma FirstHole(e: Entry)
    ensures e.holes != [] ==> e.holes[0] in e.holes
  {
  }

  /** With a higher Highest_seq more may be picked, and nothing else changes. */
  lemma {:induction false} PickedRaised(sent: seq<Packet>, e: Entry, hi: nat, i: nat, hole: bool)
    requires 1 <= i <= e.highest + 1 <= hi + 1 <= |sent| + 1
    ensures Picked(sent, WithHighest(e, hi), i, hole) ==
            Picked(sent, e, i, hole) + Picked(sent, WithHighest(e, hi), e.highest + 1, hole || HoleFrom(e, i))
    decreases e.highest + 1 - i
  {
    if i == e.highest + 1 {
      assert !HoleFrom(e, i);
    } else if i in e.holes {
      PickedRaised(sent, e, hi, i + 1, true);
      assert HoleFrom(e, i);
    } else {
      PickedRaised(sent, e, hi, i + 1, hole);
      assert HoleFrom(e, i) == HoleFrom(e, i + 1) by { HoleFromNext(e, i); }
    }
  }

  lemma HoleFromNext(e: Entry, i: nat)
    requires i !in e.holes
    ensures HoleFrom(e, i) <==> HoleFrom(e, i + 1)
  {
    if h :| h in e.holes && i <= h <= e.highest {
      assert h != i;
    }
  }

  /** What a higher Highest_seq adds to what survives. */
  function Extra(sent: seq<Packet>, e: Entry, hi: nat): seq<Packet>
    requires e.highest <= hi <= |sent|
  {
    Picked(sent, WithHighest(e, hi), e.highest + 1, e.holes != [])
  }

  lemma SurvivingRaised(sent: seq<Packet>, e: Entry, hi: nat)
    requires HolesIn(e) && e.aru <= e.highest <= hi <= |sent|
    ensures Surviving(sent, WithHighest(e, hi)) == Surviving(sent, e) + Extra(sent, e, hi)
  {
    PickedRaised(sent, e, hi, e.aru + 1, false);
    FirstHole(e);
    assert HoleFrom(e, e.aru + 1) <==> e.holes != [];
    hide Picked;
    var r := WithHighest(e, hi);
    assert sent[..e.aru] + Picked(sent, r, e.aru + 1, false) ==
           (sent[..e.aru] + Picked(sent, e, e.aru + 1, false)) + Picked(sent, r, e.highest + 1, e.holes != []);
  }

  /** Packet j + 1 of the ring takes no part in the order, or is left out after a hole. */
  predicate HarmlessAt(sent: seq<Packet>, e: Entry, hole: bool, j: nat)
    requires j < |sent|
  {
    Single(sent[j]) || (hole && sent[j].sender !in e.commit)
  }

  predicate HarmlessBetween(sent: seq<Packet>, e: Entry, hole: bool, lo: nat, hi: nat) {
    forall j: nat | lo <= j < hi && j < |sent| :: HarmlessAt(sent, e, hole, j)
  }

  /** The packets between the entry's Highest_seq and hi make no difference to what survives. */
  predicate Harmless(sent: seq<Packet>, e: Entry, hi: nat) {
    HarmlessBetween(sent, e, e.holes != [], e.highest, hi)
  }

  lemma HarmlessNext(sent: seq<Packet>, e: Entry, hole: bool, lo: nat, hi: nat)
    requires lo < hi <= |sent|
    ensures HarmlessBetween(sent, e, hole, lo, hi) <==>
            HarmlessAt(sent, e, hole, lo) && HarmlessBetween(sent, e, hole, lo + 1, hi)
  {
    hide HarmlessAt;
  }

  lemma {:induction false} ExtraOrdered(sent: seq<Packet>, e: Entry, hi: nat, i: nat, hole: bool)
    requires HolesIn(e) && e.highest < i <= hi + 1 <= |sent| + 1
    ensures Ord(Picked(sent, WithHighest(e, hi), i, hole)) == [] <==> HarmlessBetween(sent, e, hole, i - 1, hi)
    decreases hi + 1 - i
  {
    hide HarmlessBetween, Ord, Single;
    var r := WithHighest(e, hi);
    if i > hi {
      NothingBetween(sent, r, i, hole);
      assert HarmlessBetween(sent, e, hole, i - 1, hi) by { NoneBetween(sent, e, hole, i - 1, hi); }
    } else {
      ExtraOrdered(sent, e, hi, i + 1, hole);
      HarmlessNext(sent, e, hole, i - 1, hi);
      var p := sent[i - 1];
      var rest := Picked(sent, r, i + 1, hole);
      assert i !in r.holes;
      if !hole || p.sender in e.commit {
        assert Picked(sent, r, i, hole) == [p] + rest;
        OrdConcat([p], rest);
        OrdOne(p);
      } else {
        assert Picked(sent, r, i, hole) == [] + rest == rest;
      }
    }
  }

  lemma NoneBetween(sent: seq<Packet>, e: Entry, hole: bool, lo: nat, hi: nat)
    requires hi <= lo
    ensures HarmlessBetween(sent, e, hole, lo, hi)
  {
  }

  lemma NothingBetween(sent: seq<Packet>, e: Entry, i: nat, hole: bool)
    requires 1 <= i && e.highest <= |sent| && i > e.highest
    ensures Picked(sent, e, i, hole) == [] && Ord([]) == []
  {
  }

  lemma OrdOne(p: Packet)
    ensures Ord([p]) == if Single(p) then [] else [p]
  {
    assert [p] == [] + [p];
    OrdAppend([], p);
  }

  lemma HarmlessIff(sent: seq<Packet>, e: Entry, hi: nat)
    requires HolesIn(e) && e.aru <= e.highest <= hi <= |sent|
    ensures Ord(Surviving(sent, WithHighest(e, hi))) == Ord(Surviving(sent, e)) <==> Harmless(sent, e, hi)
  {
    hide Picked, Ord, HarmlessBetween;
    SurvivingRaised(sent, e, hi);
    ExtraOrdered(sent, e, hi, e.highest + 1, e.holes != []);
    OrdConcat(Surviving(sent, e), Extra(sent, e, hi));
    assert Ord(Extra(sent, e, hi)) == [] <==> Harmless(sent, e, hi);
  }

  /** What is not accepted stays so; what is stays so if only overtaking packets are added. */
  lemma SoundRaised(sent: seq<Packet>, e: Entry, hi: nat)
    requires HolesIn(e) && e.aru <= e.highest <= hi <= |sent|
    ensures Sound(sent, WithHighest(e, hi)) ==> Sound(sent, e)
    ensures Harmless(sent, e, hi) ==> (Sound(sent, WithHighest(e, hi)) <==> Sound(sent, e))
  {
    hide Picked, Ord, InSequence, HarmlessBetween;
    SurvivingRaised(sent, e, hi);
    if InSequence(Surviving(sent, WithHighest(e, hi))) {
      InSequencePrefix(Surviving(sent, WithHighest(e, hi)), |Surviving(sent, e)|);
    }
    ExtraOrdered(sent, e, hi, e.highest + 1, e.holes != []);
    if Harmless(sent, e, hi) && InSequence(Surviving(sent, e)) {
      OvertakingAccepted(Surviving(sent, e), Extra(sent, e, hi));
    }
  }

  lemma {:induction false} CutRaised(sent: seq<Packet>, holes: seq<nat>, i: nat, lo: nat, hi: nat)
    requires 1 <= i <= lo + 1 <= hi + 1 <= |sent| + 1
    ensures var c := Cut(sent, holes, i, lo);
            && Cut(sent, holes, i, hi) == (if c < lo then c else Cut(sent, holes, lo + 1, hi))
            && (c == lo ==> forall h | h in holes :: !(i <= h <= lo))
    decreases lo + 1 - i
  {
    if i <= lo && i !in holes && !sent[i - 1].service.Safe? {
      CutRaised(sent, holes, i + 1, lo, hi);
    }
  }

  lemma {:induction false} OrdSingles(s: seq<Packet>)
    requires forall j | 0 <= j < |s| :: Single(s[j])
    ensures Ord(s) == []
  {
    if s != [] {
      OrdSingles(s[..|s| - 1]);
    }
  }

  lemma OrdBeforeRaised(sent: seq<Packet>, e: Entry, hi: nat)
    requires HolesIn(e) && e.aru <= e.highest <= hi <= |sent| && Harmless(sent, e, hi)
    ensures OrdBefore(sent, WithHighest(e, hi)) == OrdBefore(sent, e)
  {
    hide Ord, Single, Cut;
    CutRaised(sent, e.holes, e.aru + 1, e.highest, hi);
    var c, c' := Cut(sent, e.holes, e.aru + 1, e.highest), Cut(sent, e.holes, e.aru + 1, hi);
    if c == e.highest {
      FirstHole(e);
      var more := sent[c..c'];
      assert sent[..c'] == sent[..c] + more;
      forall j | 0 <= j < |more|
        ensures Single(more[j])
      {
        assert HarmlessAt(sent, e, false, c + j);
      }
      OrdSingles(more);
      OrdConcat(sent[..c], more);
    }
  }

  /** Whatever arrived late, without the right entry there is a fatal exit; and the outcome is the right one
      exactly when the daemon has everything up to its Highest_seq and what the entry does not know of it
      makes no difference. */
  lemma LateIff(d: State, sent: seq<Packet>, e: Entry, lastSeq: nat)
    requires InEvs(d, sent, e, lastSeq) && d.my == lastSeq
    ensures var o := Recover(d, e.commit);
            && (Complete(d.store, e.aru + 1, d.hi) && Harmless(sent, e, d.hi) ==>
                  (o.d.exited <==> !Sound(sent, e)) && Ord(o.before) == OrdBefore(sent, e))
            && (!Sound(sent, e) ==> o.d.exited)
            && (Sound(sent, e) ==> (Recovered(o, sent, e) <==>
                  Complete(d.store, e.aru + 1, d.hi) && Harmless(sent, e, d.hi)))
  {
    hide InEvs, Recover, Sound, Before, Ord, Surviving, Harmless, Cut, Once;
    InEvsShape(d, sent, e, lastSeq);
    var r := WithHighest(e, d.hi);
    if Complete(d.store, e.aru + 1, d.hi) {
      CompleteBefore(d, sent, e, lastSeq);
      RecoverKeeps(d, sent, r, d.delivered);
      SoundRaised(sent, e, d.hi);
      HarmlessIff(sent, e, d.hi);
      if Harmless(sent, e, d.hi) {
        OrdBeforeRaised(sent, e, d.hi);
      }
    } else {
      var g: nat :| e.aru + 1 <= g <= d.hi && g !in d.store;
      GapExits(d, e.commit, g);
    }
  }

  /** A daemon of the old ring as the FORM2 token finds it: its Aru is at most the entry's, which it has
      reached itself, and none of the entry's holes has been filled. */
  ghost predicate Form2Ok(d: State, sent: seq<Packet>, e: Entry) {
    && Local(d, sent) && d.aru <= e.aru <= d.my && e.aru <= e.highest <= |sent|
    && Increasing(e.holes) && HolesIn(e) && (forall h | h in e.holes :: h !in d.store)
  }

  lemma {:induction false} SeqsFrom(log: seq<Packet>, sent: seq<Packet>, aru: nat, s: nat)
    requires From(log, sent, aru) && s in Seqs(log)
    ensures 1 <= s <= |sent| && (sent[s - 1].service.Safe? ==> s <= aru)
  {
    if log[|log| - 1].seqNo != s {
      SeqsFrom(log[..|log| - 1], sent, aru, s);
    }
  }

  lemma {:induction false} MarkHolesIs(d: State, holes: seq<nat>)
    requires !d.exited && Increasing(holes) && forall h | h in holes :: h !in d.store
    ensures var f := MarkHoles(d, holes);
            && f == d.(store := f.store)
            && (forall s :: s in f.store <==> s in d.store || s in holes)
            && (forall s | s in f.store :: f.store[s] == if s in holes then Hole else d.store[s])
  {
    if holes != [] {
      var rest, h := holes[..|holes| - 1], holes[|holes| - 1];
      assert holes == rest + [h];
      MarkHolesIs(d, rest);
      assert h !in rest;
    }
  }

  /** What Discard_packets leaves, in terms of the entry. */
  lemma DiscardedAt(f: State, sent: seq<Packet>, e: Entry, s: nat)
    requires Core(f, sent, e.aru, f.delivered) && f.aru == e.aru
    requires s !in f.store || s !in e.holes
    requires e.aru < s <= |sent|
    ensures MarkAt(f.store, Seqs(f.log), sent, e, f.delivered, s)
    ensures s <= f.my ==> s in f.store
    ensures s in f.store ==> !f.store[s].Hole? && f.store[s].p == sent[s - 1]
  {
    hide Ord, Once, InSequence, Seqs;
    assert s in Seqs(f.log) <==> 1 <= s <= f.delivered || (s > f.delivered && Early(f.store, s));
    if s <= f.delivered {
      SeqsFrom(f.log, sent, e.aru, s);
    }
  }

  lemma DiscardedMarks(f: State, sent: seq<Packet>, e: Entry)
    requires Core(f, sent, f.discarded, f.delivered) && f.aru == f.discarded == e.aru
    requires forall h | h in e.holes :: h > e.aru && h !in f.store
    ensures Up(f.log, sent, f.delivered) && Marked(f.store, Seqs(f.log), sent, e, f.delivered) && UpTo(f.log, e.aru)
    ensures Complete(f.store, e.aru + 1, f.my)
    ensures forall s | s in f.store :: e.aru < s <= |sent| && !f.store[s].Hole? && f.store[s].p == sent[s - 1]
  {
    hide Ord, Once, InSequence, Seqs, MarkAt;
    forall s: nat | e.aru < s <= |sent|
      ensures MarkAt(f.store, Seqs(f.log), sent, e, f.delivered, s)
      ensures s <= f.my ==> s in f.store
      ensures s in f.store ==> !f.store[s].Hole? && f.store[s].p == sent[s - 1]
    {
      DiscardedAt(f, sent, e, s);
    }
  }

  lemma MarkedHoled(store: Store, store': Store, seqs: set<nat>, sent: seq<Packet>, e: Entry, del: nat)
    requires Marked(store, seqs, sent, e, del) && HolesIn(e) && e.highest <= |sent|
    requires forall s | s in store :: e.aru < s <= |sent| && !store[s].Hole? && store[s].p == sent[s - 1]
    requires forall h | h in e.holes :: h !in store
    requires forall s :: s in store' <==> s in store || s in e.holes
    requires forall s | s in store' :: store'[s] == if s in e.holes then Hole else store[s]
    ensures Marked(store', seqs, sent, e, del) && Holds(store', sent, e)
  {
    hide Single;
    forall t: nat | e.aru < t <= |sent|
      ensures MarkAt(store', seqs, sent, e, del, t)
    {
      assert MarkAt(store, seqs, sent, e, del, t);
    }
  }

  /** Read_form2 takes no fatal exit and starts EVS with the holes in place. */
  lemma ReadForm2Keeps(d: State, sent: seq<Packet>, e: Entry, lastSeq: nat)
    requires Form2Ok(d, sent, e) && |sent| < lastSeq
    ensures var f := ReadForm2(d, e);
            && InEvs(f, sent, e, lastSeq) && f.me == d.me && f.down == d.down && f.hi == e.highest && f.my == d.my
            && f.last == 0 && f.aru == e.aru && f.setAru == d.setAru
            && forall s | s in f.store :: e.aru < s && (s in d.store || s in e.holes)
  {
    hide LogOk, StoreOk, InSequence, Numbered, Up, Marked, Increasing;
    var d1 := d.(aru := e.aru);
    Framed(d, d1, sent, d.discarded, d.delivered);
    DiscardKeeps(d1, sent);
    DiscardAbove(d1, e.highest);
    var f := Discard(d1);
    DiscardedMarks(f, sent, e);
    MarkHolesIs(f.(hi := e.highest), e.holes);
    MarkedHoled(f.store, MarkHoles(f.(hi := e.highest), e.holes).store, Seqs(f.log), sent, e, f.delivered);
    hide Discard, MarkHoles;
  }

  lemma {:induction false} FilledHoleExits(d: State, holes: seq<nat>, h: nat)
    requires h in holes && h in d.store
    ensures MarkHoles(d, holes).exited
  {
    if !d.exited && holes[|holes| - 1] != h {
      FilledHoleExits(d, holes[..|holes| - 1], h);
    } else if !d.exited {
      MarkHolesGrows(d, holes[..|holes| - 1], h);
    }
  }

  lemma {:induction false} MarkHolesGrows(d: State, holes: seq<nat>, h: nat)
    requires h in d.store
    ensures h in MarkHoles(d, holes).store
  {
    if !d.exited && holes != [] {
      MarkHolesGrows(d, holes[..|holes| - 1], h);
    }
  }

  /** Read_form2 takes a fatal exit exactly when a packet that the entry has as a hole has arrived since the
      FORM1 token's visit. */
  lemma HoleExitIff(d: State, sent: seq<Packet>, e: Entry)
    requires Local(d, sent) && d.aru <= e.aru <= d.my && Increasing(e.holes) && HolesIn(e)
    ensures ReadForm2(d, e).exited <==> exists h :: h in e.holes && h in d.store
  {
    hide LogOk, StoreOk, InSequence, Numbered, Increasing;
    var d1 := d.(aru := e.aru);
    Framed(d, d1, sent, d.discarded, d.delivered);
    DiscardKeeps(d1, sent);
    DiscardAbove(d1, e.highest);
    hide Discard, MarkHoles;
    var f := Discard(d1).(hi := e.highest);
    if h :| h in e.holes && h in d.store {
      FilledHoleExits(f, e.holes, h);
    } else {
      MarkHolesIs(f, e.holes);
    }
  }

  /** What arrived late makes no difference: the daemon has everything up to its Highest_seq, and what the
      entry does not know of it is overtaking or left out. */
  ghost predicate Caught(f: State, sent: seq<Packet>, e: Entry) {
    Complete(f.store, e.aru + 1, f.hi) && Harmless(sent, e, f.hi)
  }

  /** From the FORM2 token on, for whatever arrives: the exact condition for the right outcome. */
  lemma RecoveryKeeps(d: State, sent: seq<Packet>, e: Entry, lastSeq: nat, evs: seq<Event>)
    requires Form2Ok(d, sent, e) && |sent| < lastSeq
    ensures match Run(ReadForm2(d, e), e, lastSeq, sent, evs)
            case Recovering(f) => !f.exited
            case Done(f, o) =>
              && o == Recover(f, e.commit) && (f.hi == e.highest || Got(f.hi) in evs)
              && (!Sound(sent, e) ==> o.d.exited)
              && (Sound(sent, e) ==> (Recovered(o, sent, e) <==> Caught(f, sent, e)))
              && (Caught(f, sent, e) ==> (o.d.exited <==> !Sound(sent, e)) && Ord(o.before) == OrdBefore(sent, e))
  {
    hide Form2Ok, InEvs, Sound, Recovered, Harmless, Run, ReadForm2, Recover, Complete, OrdBefore, Ord;
    assert e.aru <= e.highest <= |sent| by { Form2Shape(d, sent, e); }
    ReadForm2Keeps(d, sent, e, lastSeq);
    var f := ReadForm2(d, e);
    RunKeeps(f, sent, e, lastSeq, evs);
    var r := Run(f, e, lastSeq, sent, evs);
    InEvsShape(r.d, sent, e, lastSeq);
    if r.Done? {
      LateIff(r.d, sent, e, lastSeq);
    }
  }

  lemma Form2Shape(d: State, sent: seq<Packet>, e: Entry)
    requires Form2Ok(d, sent, e)
    ensures e.aru <= e.highest <= |sent| && HolesIn(e)
  {
  }

  /** The fatal exit is taken at the end if at all. */
  lemma RunRuns(d: State, sent: seq<Packet>, e: Entry, lastSeq: nat, evs: seq<Event>)
    requires Form2Ok(d, sent, e) && |sent| < lastSeq
    ensures !Run(ReadForm2(d, e), e, lastSeq, sent, evs).d.exited
  {
    hide Form2Ok, InEvs, Run, ReadForm2, Recover;
    ReadForm2Keeps(d, sent, e, lastSeq);
    RunKeeps(ReadForm2(d, e), sent, e, lastSeq, evs);
    InEvsShape(Run(ReadForm2(d, e), e, lastSeq, sent, evs).d, sent, e, lastSeq);
  }

  /** When no packet arrives that the entry does not know, the condition holds. */
  lemma TimelyCaught(d: State, sent: seq<Packet>, e: Entry, lastSeq: nat, evs: seq<Event>)
    requires Form2Ok(d, sent, e) && |sent| < lastSeq && Timely(evs, e)
    ensures var r := Run(ReadForm2(d, e), e, lastSeq, sent, evs);
            r.Done? ==> r.d.hi == e.highest && Caught(r.d, sent, e)
  {
    hide Form2Ok, Run, ReadForm2, Recover, Holds, Marked, Up, Numbered, InSequence;
    ReadForm2Keeps(d, sent, e, lastSeq);
    RunKeeps(ReadForm2(d, e), sent, e, lastSeq, evs);
  }

  /** The state after recovery, seen from outside: when nothing of the old ring arrived that the entry does not
      know, and nothing discarded arrived again, the daemon is as a new ring starts. */
  lemma EntersClean(d: State, sent: seq<Packet>, e: Entry, lastSeq: nat, evs: seq<Event>)
    requires Form2Ok(d, sent, e) && |sent| < lastSeq && Timely(evs, e) && NoneOld(evs, e) && d.hi <= e.highest &&
             Sound(sent, e)
    ensures match Run(ReadForm2(d, e), e, lastSeq, sent, evs)
            case Recovering(f) => !f.exited
            case Done(f, o) => Recovered(o, sent, e) && RingSafety.Entered(o.d, d.me) && o.d.down.msgs == d.down.msgs
  {
    hide InEvs, Sound, Harmless, Run, ReadForm2, Recover, Complete, Before, OrdBefore, OrdAll, LogOk, Ord, Once,
        Increasing;
    RecoveryKeeps(d, sent, e, lastSeq, evs);
    TimelyCaught(d, sent, e, lastSeq, evs);
    ReadForm2Keeps(d, sent, e, lastSeq);
    var f := ReadForm2(d, e);
    RunKeeps(f, sent, e, lastSeq, evs);
    var r := Run(f, e, lastSeq, sent, evs);
    if r.Done? {
      CompleteBefore(r.d, sent, e, lastSeq);
      assert WithHighest(e, r.d.hi) == e;
      RecoverKeeps(r.d, sent, e, r.d.delivered);
      forall s | s in r.d.store
        ensures e.aru < s <= e.highest
      {
        assert s in f.store || Got(s) in evs;
      }
      assert r.o.d.store == map[];
    }
  }

  /** The same was handed up, before the transitional signal and in all, or both took the fatal exit. */
  ghost predicate Together(o1: Outcome, o2: Outcome) {
    && (o1.d.exited <==> o2.d.exited)
    && Ord(o1.before) == Ord(o2.before)
    && (!o1.d.exited ==>
          Ord(o1.log) == Ord(o2.log) && o1.before <= o1.log && o2.before <= o2.log && Once(o1.log) && Once(o2.log))
  }

  /** Virtual synchrony: two daemons that read the same entry and both get to the next ring have handed up
      the same ordered packets before the transitional signal and the same ones after it, each at most once;
      or both take the fatal exit. */
  lemma VirtualSynchrony(d1: State, d2: State, sent: seq<Packet>, e: Entry, lastSeq: nat, evs1: seq<Event>,
      evs2: seq<Event>)
    requires Form2Ok(d1, sent, e) && Form2Ok(d2, sent, e) && |sent| < lastSeq
    requires Run(ReadForm2(d1, e), e, lastSeq, sent, evs1).Done? && Run(ReadForm2(d2, e), e, lastSeq, sent, evs2).Done?
    requires Caught(Run(ReadForm2(d1, e), e, lastSeq, sent, evs1).d, sent, e) &&
             Caught(Run(ReadForm2(d2, e), e, lastSeq, sent, evs2).d, sent, e)
    ensures Together(Run(ReadForm2(d1, e), e, lastSeq, sent, evs1).o, Run(ReadForm2(d2, e), e, lastSeq, sent, evs2).o)
  {
    hide Form2Ok, Sound, Run, ReadForm2, OrdBefore, OrdAll, Once, Ord, Caught, Recover;
    RecoveryKeeps(d1, sent, e, lastSeq, evs1);
    RecoveryKeeps(d2, sent, e, lastSeq, evs2);
  }

  /** Two daemons to which packets arrived late, the first of which has no gap: they agree exactly when the second
      has none either and what it has above the first one's Highest_seq makes no difference. */
  lemma LateSynchronyIff(f1: State, f2: State, sent: seq<Packet>, e: Entry, lastSeq: nat)
    requires InEvs(f1, sent, e, lastSeq) && f1.my == lastSeq && InEvs(f2, sent, e, lastSeq) && f2.my == lastSeq
    requires f1.hi <= f2.hi && Complete(f1.store, e.aru + 1, f1.hi) && Sound(sent, WithHighest(e, f1.hi))
    ensures Together(Recover(f1, e.commit), Recover(f2, e.commit)) <==>
            Complete(f2.store, e.aru + 1, f2.hi) && Harmless(sent, WithHighest(e, f1.hi), f2.hi)
  {
    hide InEvs, Recover, Sound, Before, Ord, Surviving, Harmless, Cut, Once, Complete, OrdBefore;
    InEvsShape(f1, sent, e, lastSeq);
    InEvsShape(f2, sent, e, lastSeq);
    var r1, r2 := WithHighest(e, f1.hi), WithHighest(e, f2.hi);
    assert WithHighest(r1, f2.hi) == r2;
    CompleteBefore(f1, sent, e, lastSeq);
    RecoverKeeps(f1, sent, r1, f1.delivered);
    if Complete(f2.store, e.aru + 1, f2.hi) {
      CompleteBefore(f2, sent, e, lastSeq);
      RecoverKeeps(f2, sent, r2, f2.delivered);
      SoundRaised(sent, r1, f2.hi);
      HarmlessIff(sent, r1, f2.hi);
      if Harmless(sent, r1, f2.hi) {
        OrdBeforeRaised(sent, r1, f2.hi);
      }
    } else {
      var g := GapOf(f2.store, e.aru + 1, f2.hi);
      GapExits(f2, e.commit, g);
    }
  }

  lemma GapOf(store: Store, i: nat, hi: nat) returns (g: nat)
    requires !Complete(store, i, hi)
    ensures i <= g <= hi && g !in store
  {
    g :| i <= g <= hi && g !in store;
  }

  /** With a peer for which what arrived late makes no difference, as nothing does, a daemon agrees exactly when
      what arrived late makes none for it either. */
  lemma SynchronyIff(d1: State, d2: State, sent: seq<Packet>, e: Entry, lastSeq: nat, evs1: seq<Event>,
      evs2: seq<Event>)
    requires Form2Ok(d1, sent, e) && Form2Ok(d2, sent, e) && |sent| < lastSeq && Sound(sent, e)
    requires Run(ReadForm2(d1, e), e, lastSeq, sent, evs1).Done?
    requires Run(ReadForm2(d2, e), e, lastSeq, sent, evs2).Done?
    requires Caught(Run(ReadForm2(d1, e), e, lastSeq, sent, evs1).d, sent, e)
    ensures var r1 := Run(ReadForm2(d1, e), e, lastSeq, sent, evs1);
            var r2 := Run(ReadForm2(d2, e), e, lastSeq, sent, evs2);
            Together(r1.o, r2.o) <==> Caught(r2.d, sent, e)
  {
    hide Form2Ok, Sound, Run, ReadForm2, OrdBefore, OrdAll, Once, Ord, Caught, Recover;
    RecoveryKeeps(d1, sent, e, lastSeq, evs1);
    RecoveryKeeps(d2, sent, e, lastSeq, evs2);
  }

  /** A token that its last visitor, this daemon, let go with aru lastSeq. */
  function OwnToken(d: State, lastSeq: nat): Token {
    Token(lastSeq, d.me, 0, 0, [])
  }

  /** A daemon with everything commits at the first visit, and at the next one Aru is the form token's number. */
  lemma FirstCommit(d: State, sent: seq<Packet>, e: Entry, lastSeq: nat, t: Token)
    requires InEvs(d, sent, e, lastSeq) && d.my <= d.hi && Complete(d.store, e.aru + 1, d.hi)
    requires t == OwnToken(d, lastSeq)
    ensures var f := Commit(d, t, lastSeq); f == d.(my := lastSeq, setAru := -1, last := lastSeq, aru := d.last)
    ensures d.last <= d.my < lastSeq
    ensures InEvs(Commit(d, t, lastSeq), sent, e, lastSeq)
  {
    hide Up, InSequence, Marked, Holds, HolesIn, Numbered;
    AdvanceCovers(d.store, d.my, d.hi);
    CommitKeeps(d, sent, e, lastSeq, t);
  }

  lemma SecondCommit(d: State, sent: seq<Packet>, e: Entry, lastSeq: nat, t: Token)
    requires InEvs(d, sent, e, lastSeq) && d.my == d.last == lastSeq && t == OwnToken(d, lastSeq)
    ensures var f := Commit(d, t, lastSeq); f == d.(setAru := -1, aru := lastSeq)
    ensures InEvs(Commit(d, t, lastSeq), sent, e, lastSeq)
  {
    hide Up, InSequence, Marked, Holds, HolesIn, Numbered;
    CommitKeeps(d, sent, e, lastSeq, t);
  }

  lemma TwoVisits(d: State, sent: seq<Packet>, e: Entry, lastSeq: nat, t: Token)
    requires InEvs(d, sent, e, lastSeq) && d.my <= d.hi && Complete(d.store, e.aru + 1, d.hi)
    requires t == OwnToken(d, lastSeq)
    ensures var r := Run(d, e, lastSeq, sent, [TokenAt(t), TokenAt(t)]);
            r.Done? && r.d == d.(my := lastSeq, setAru := -1, last := lastSeq, aru := lastSeq) &&
            r.o == Recover(r.d, e.commit)
    ensures InEvs(d.(my := lastSeq, setAru := -1, last := lastSeq, aru := lastSeq), sent, e, lastSeq)
  {
    InEvsShape(d, sent, e, lastSeq);
    FirstCommit(d, sent, e, lastSeq, t);
    var f := Commit(d, t, lastSeq);
    SecondCommit(f, sent, e, lastSeq, t);
    hide InEvs, Commit, Recover;
    assert [TokenAt(t), TokenAt(t)][1..] == [TokenAt(t)];
    assert Run(d, e, lastSeq, sent, [TokenAt(t), TokenAt(t)]) == Run(f, e, lastSeq, sent, [TokenAt(t)]);
  }

  lemma GotThen(d: State, sent: seq<Packet>, e: Entry, lastSeq: nat, s: nat, evs: seq<Event>)
    requires 1 <= s <= |sent|
    ensures Run(d, e, lastSeq, sent, [Got(s)] + evs) == Run(Evs.Insert(d, sent[s - 1]), e, lastSeq, sent, evs)
  {
    assert ([Got(s)] + evs)[1..] == evs;
  }

  /** A late packet that makes a difference does break the outcome: the daemon that gets the packet just above
      the entry's Highest_seq and then its two tokens ends wrongly, and without that packet it would not. */
  lemma LatePacketBreaks(d: State, sent: seq<Packet>, e: Entry, lastSeq: nat)
    requires InEvs(d, sent, e, lastSeq) && Sound(sent, e)
    requires d.my <= d.hi == e.highest < |sent| && Complete(d.store, e.aru + 1, d.hi) && d.aru <= e.highest
    requires e.highest + 1 !in d.store && !HarmlessAt(sent, e, e.holes != [], e.highest)
    ensures var t := OwnToken(d, lastSeq);
            var late := Run(d, e, lastSeq, sent, [Got(e.highest + 1)] + [TokenAt(t), TokenAt(t)]);
            var timely := Run(d, e, lastSeq, sent, [TokenAt(t), TokenAt(t)]);
            late.Done? && !Recovered(late.o, sent, e) && timely.Done? && Recovered(timely.o, sent, e)
  {
    hide InEvs, Recovered, Recover, Sound, HarmlessAt, Evs.Insert, Run, OrdBefore, InSequence, Single, HolesIn;
    var t := OwnToken(d, lastSeq);
    var s := e.highest + 1;
    InEvsShape(d, sent, e, lastSeq);
    TwoVisits(d, sent, e, lastSeq, t);
    InsertKeeps(d, sent, e, lastSeq, s);
    var f := Evs.Insert(d, sent[s - 1]);
    assert sent[s - 1].seqNo == s;
    InsertedNext(d, sent[s - 1]);
    GotThen(d, sent, e, lastSeq, s, [TokenAt(t), TokenAt(t)]);
    assert Complete(f.store, e.aru + 1, f.hi);
    TwoVisits(f, sent, e, lastSeq, t);
    LateIff(d.(my := lastSeq, setAru := -1, last := lastSeq, aru := lastSeq), sent, e, lastSeq);
    LateIff(f.(my := lastSeq, setAru := -1, last := lastSeq, aru := lastSeq), sent, e, lastSeq);
    assert !HarmlessBetween(sent, e, e.holes != [], e.highest, s);
  }

  lemma InsertedNext(d: State, p: Packet)
    requires !d.exited && d.aru < p.seqNo == d.hi + 1 && p.seqNo !in d.store && d.my <= d.hi
    ensures var f := Evs.Insert(d, p);
            f.me == d.me && f.hi == p.seqNo && f.my <= f.hi && f.store == d.store[p.seqNo := Fresh(p)] &&
            f.last == d.last
  {
  }

  /** One that leaves a gap, arriving between the two tokens, ends with a fatal exit. */
  lemma GapRunExits(d: State, sent: seq<Packet>, e: Entry, lastSeq: nat, s: nat)
    requires InEvs(d, sent, e, lastSeq)
    requires d.my <= d.hi == e.highest && Complete(d.store, e.aru + 1, d.hi)
    requires e.highest + 1 < s <= |sent| && s !in d.store && e.highest + 1 !in d.store
    ensures var t := OwnToken(d, lastSeq);
            var r := Run(d, e, lastSeq, sent, [TokenAt(t)] + ([Got(s)] + [TokenAt(t)]));
            r.Done? && r.o.d.exited
  {
    hide InEvs, Commit, Recover, Evs.Insert, Run, InSequence, HolesIn;
    var t := OwnToken(d, lastSeq);
    InEvsShape(d, sent, e, lastSeq);
    FirstCommit(d, sent, e, lastSeq, t);
    var f := Commit(d, t, lastSeq);
    InsertKeeps(f, sent, e, lastSeq, s);
    assert sent[s - 1].seqNo == s;
    var g := Evs.Insert(f, sent[s - 1]);
    InsertedLater(f, sent[s - 1]);
    SecondCommit(g, sent, e, lastSeq, t);
    var h := Commit(g, t, lastSeq);
    TokenThen(d, sent, e, lastSeq, t, [Got(s)] + [TokenAt(t)]);
    GotThen(f, sent, e, lastSeq, s, [TokenAt(t)]);
    assert [TokenAt(t)] == [TokenAt(t)] + [];
    TokenThen(g, sent, e, lastSeq, t, []);
    GapExits(h, e.commit, e.highest + 1);
  }

  lemma InsertedLater(d: State, p: Packet)
    requires !d.exited && d.aru < p.seqNo && d.hi < p.seqNo && p.seqNo !in d.store && p.seqNo < d.my
    ensures Evs.Insert(d, p) == d.(store := d.store[p.seqNo := Fresh(p)], hi := p.seqNo)
  {
  }

  lemma TokenThen(d: State, sent: seq<Packet>, e: Entry, lastSeq: nat, t: Token, evs: seq<Event>)
    ensures var f := Commit(d, t, lastSeq);
            Run(d, e, lastSeq, sent, [TokenAt(t)] + evs) ==
            if f.aru > f.discarded && f.aru == lastSeq then Done(f, Recover(f, e.commit))
                else Run(f, e, lastSeq, sent, evs)
  {
    assert ([TokenAt(t)] + evs)[1..] == evs;
  }

  lemma {:induction false} PassedStays(d: State, sent: seq<Packet>, e: Entry, lastSeq: nat, evs: seq<Event>)
    requires InEvs(d, sent, e, lastSeq) && Timely(evs, e) && d.hi == e.highest < d.my != lastSeq
    ensures Run(d, e, lastSeq, sent, evs).Recovering?
    decreases |evs|
  {
    if evs != [] {
      InEvsShape(d, sent, e, lastSeq);
      assert Timely(evs[1..], e);
      match evs[0]
      case Got(s) =>
        if 1 <= s <= |sent| {
          InsertKeeps(d, sent, e, lastSeq, s);
          PassedStays(Evs.Insert(d, sent[s - 1]), sent, e, lastSeq, evs[1..]);
        } else {
          PassedStays(d, sent, e, lastSeq, evs[1..]);
        }
      case TokenAt(t) =>
        CommitKeeps(d, sent, e, lastSeq, t);
        PassedStays(Commit(d, t, lastSeq), sent, e, lastSeq, evs[1..]);
    }
  }

  /** A daemon that got, between the two form tokens, every packet up to one above the entry's Highest_seq: its
      My_aru is then never equal to Highest_seq, and it never commits. */
  lemma PassedNeverCommits(d: State, sent: seq<Packet>, e: Entry, lastSeq: nat, evs: seq<Event>)
    requires Form2Ok(d, sent, e) && |sent| < lastSeq && Timely(evs, e) && d.my > e.highest
    ensures Run(ReadForm2(d, e), e, lastSeq, sent, evs).Recovering?
  {
    assert d.my <= |sent|;
    ReadForm2Keeps(d, sent, e, lastSeq);
    hide InEvs, ReadForm2, Form2Ok, Run, Timely;
    PassedStays(ReadForm2(d, e), sent, e, lastSeq, evs);
  }

  /** Recovery leaves the array empty exactly when nothing lies outside the range it runs over. */
  lemma EmptyIff(d: State, sent: seq<Packet>, e: Entry, lastSeq: nat)
    requires InEvs(d, sent, e, lastSeq) && d.my == lastSeq && !Recover(d, e.commit).d.exited
    ensures forall s :: s in Recover(d, e.commit).d.store <==> s in d.store && !(e.aru < s <= d.hi)
    ensures Recover(d, e.commit).d.store == map[] <==> forall s | s in d.store :: e.aru < s <= d.hi
  {
    InEvsShape(d, sent, e, lastSeq);
    if !Complete(d.store, e.aru + 1, d.hi) {
      var g: nat :| e.aru + 1 <= g <= d.hi && g !in d.store;
      GapExits(d, e.commit, g);
    } else {
      CompleteBefore(d, sent, e, lastSeq);
      hide InEvs, Before, Recover, Complete;
      RecoverKeeps(d, sent, WithHighest(e, d.hi), d.delivered);
      var o := Recover(d, e.commit);
      if forall s | s in d.store :: e.aru < s <= d.hi {
        assert o.d.store == map[];
      }
    }
  }

  /** The first token visit in EVS takes Aru down to 0.  A packet of the old ring that was discarded long ago
      and arrives once more after that visit is stored again, and, whatever happens until then, is still there
      under the same number when the daemon enters the next ring. */
  lemma OldDuplicateStays(d: State, sent: seq<Packet>, e: Entry, lastSeq: nat, t: Token, s: nat, evs: seq<Event>)
    requires InEvs(d, sent, e, lastSeq) && d.last == 0 && 1 <= s <= e.aru
    ensures s <= |sent|
    ensures var r := Run(Commit(d, t, lastSeq), e, lastSeq, sent, [Got(s)] + evs);
            r.Done? && !r.o.d.exited ==> s in r.o.d.store
  {
    InEvsShape(d, sent, e, lastSeq);
    CommitKeeps(d, sent, e, lastSeq, t);
    var f := Commit(d, t, lastSeq);
    assert f.aru == 0 && !f.exited;
    assert sent[s - 1].seqNo == s;
    InsertKeeps(f, sent, e, lastSeq, s);
    var g := Evs.Insert(f, sent[s - 1]);
    assert s in g.store;
    GotThen(f, sent, e, lastSeq, s, evs);
    hide InEvs, Recover, Commit, Run, Evs.Insert;
    RunKeeps(g, sent, e, lastSeq, evs);
    var r := Run(g, e, lastSeq, sent, evs);
    if r.Done? && !r.o.d.exited {
      EmptyIff(r.d, sent, e, lastSeq);
    }
  }

  /** The packets still missing arrive, from number i on, and then the token twice. */
  lemma {:induction false} Catching(d: State, sent: seq<Packet>, e: Entry, lastSeq: nat, i: nat)
      returns (evs: seq<Event>)
    requires InEvs(d, sent, e, lastSeq) && d.my <= d.hi == e.highest && d.aru <= e.aru
    requires e.aru < i <= e.highest + 1 && Complete(d.store, e.aru + 1, i - 1)
    ensures Timely(evs, e) && Run(d, e, lastSeq, sent, evs).Done?
    decreases e.highest + 1 - i
  {
    hide InEvs, Run, Recover, Evs.Insert, InSequence, HolesIn;
    InEvsShape(d, sent, e, lastSeq);
    if i == e.highest + 1 {
      var t := OwnToken(d, lastSeq);
      evs := [TokenAt(t), TokenAt(t)];
      TwoVisits(d, sent, e, lastSeq, t);
    } else if i in d.store {
      evs := Catching(d, sent, e, lastSeq, i + 1);
    } else {
      assert sent[i - 1].seqNo == i;
      InsertedMissing(d, sent[i - 1]);
      InsertKeeps(d, sent, e, lastSeq, i);
      var rest := Catching(Evs.Insert(d, sent[i - 1]), sent, e, lastSeq, i + 1);
      evs := [Got(i)] + rest;
      GotThen(d, sent, e, lastSeq, i, rest);
    }
  }

  lemma InsertedMissing(d: State, p: Packet)
    requires !d.exited && d.aru < p.seqNo <= d.hi && p.seqNo !in d.store && d.my <= d.hi
    ensures var f := Evs.Insert(d, p);
            f.hi == d.hi && f.my <= f.hi && f.store == d.store[p.seqNo := Fresh(p)] && f.aru == d.aru
  {
  }

  /** A daemon can get to the next ring by what the entry knows exactly when its My_aru did not pass the entry's
      Highest_seq between the two form tokens. */
  lemma CommitsIff(d: State, sent: seq<Packet>, e: Entry, lastSeq: nat)
    requires Form2Ok(d, sent, e) && |sent| < lastSeq
    ensures d.my <= e.highest <==> exists evs :: Timely(evs, e) && Run(ReadForm2(d, e), e, lastSeq, sent, evs).Done?
  {
    hide Form2Ok, InEvs, Run, ReadForm2, Timely;
    if d.my <= e.highest {
      ReadForm2Keeps(d, sent, e, lastSeq);
      InEvsShape(ReadForm2(d, e), sent, e, lastSeq);
      var evs := Catching(ReadForm2(d, e), sent, e, lastSeq, e.aru + 1);
    } else {
      forall evs | Timely(evs, e)
        ensures !Run(ReadForm2(d, e), e, lastSeq, sent, evs).Done?
      {
        PassedNeverCommits(d, sent, e, lastSeq, evs);
      }
    }
  }
}
