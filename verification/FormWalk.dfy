/** The walk of a FORM1 token over the daemons of an old ring, while packets of that ring still arrive and
    daemons not visited yet may still pass its regular token.  A visited daemon swallows that token. */
module FormWalk {
  import opened Packets
  import opened Daemon
  import opened DaemonInv
  import opened Form1
  import opened RingSafety
  import AruRule
  import Burst
  import Protocol
  import Ring
  import RingInv
  import RingTheorems

  /** seqNo is the form token's sequence number, snaps are the states of the visited daemons at their visits,
      sets their commit sets then. */
  datatype World = World(r: Ring.State, seqNo: nat, entry: Option<Entry>, snaps: seq<Daemon.State>, sets: seq<seq<nat>>)

  /** A form token that no daemon of the ring has seen. */
  function Unseen(r: Ring.State, seqNo: nat): World {
    World(r, seqNo, None, [], [])
  }

  datatype Action =
    | Old(a: Ring.Action)                                   // a step of the old ring
    | Form(j: nat, create: bool, commitSet: seq<nat>)       // the form token is made at, or visits, daemon j

  predicate Visited(w: World, j: nat) {
    exists i :: 0 <= i < |w.snaps| && w.snaps[i].me == j
  }

  /** The ring's entry after the daemon made the token or filled it; None if that is a fatal exit. */
  function NextEntry(entry: Option<Entry>, d: Daemon.State, create: bool, commitSet: seq<nat>): Option<Entry> {
    if entry.None? then Some(if create then Create(d, commitSet) else Open(d, commitSet))
    else if entry.value.numTrans <= |entry.value.commit| then Merge(d, entry.value, commitSet)
    else None
  }

  function Step(w: World, act: Action): (w': World)
    requires Ring.Shape(w.r)
    ensures Ring.Shape(w'.r) && |w'.r.ds| == |w.r.ds|
  {
    match act
    case Old(a) => if a.TokenVisit? && Visited(w, w.r.next) then w else w.(r := Ring.Step(w.r, a))
    case Form(j, create, commitSet) =>
      if j >= |w.r.ds| || Visited(w, j) then w else
        var d := w.r.ds[j];
        var was := if create && w.entry.None? then 0 else w.seqNo;
        World(w.r, FormSeq(was, d.hi), NextEntry(w.entry, d, create, commitSet), w.snaps + [d], w.sets + [commitSet])
  }

  function Exec(w: World, run: seq<Action>): (w': World)
    requires Ring.Shape(w.r)
    ensures Ring.Shape(w'.r) && |w'.r.ds| == |w.r.ds|
    decreases |run|
  {
    if run == [] then w else Exec(Step(w, run[0]), run[1..])
  }

  /** A visited daemon's Aru and last token are as they were at its visit. */
  ghost predicate SnapOk(r: Ring.State, d: Daemon.State) {
    && d.me < |r.ds| && Local(d, r.sent)
    && d.aru == r.ds[d.me].aru && d.last == r.ds[d.me].last && d.last <= d.my
  }

  ghost predicate EntryOk(w: World) {
    if w.snaps == [] then w.entry.None? && w.sets == []
    else
      && w.entry.Some? && Exact(w.entry.value, w.snaps, w.sets)
      && Distinct(w.entry.value.commit[..w.entry.value.numTrans])
      && (|w.snaps| > 1 || Distinct(w.sets[0]) ==> Distinct(w.entry.value.commit))
  }

  /** The form token's number is well above every Highest_seq it saw. */
  ghost predicate SeqOk(w: World) {
    w.entry.Some? ==> w.entry.value.highest + FORM_GAP <= w.seqNo
  }

  ghost predicate Inv(w: World) {
    && Running(w.r)
    && (forall i | 0 <= i < |w.snaps| :: SnapOk(w.r, w.snaps[i]))
    && EntryOk(w) && SeqOk(w)
  }

  /** No Aru exceeds what any daemon let the token go with. */
  lemma AruBelowLast(r: Ring.State, a: nat, b: nat)
    requires Running(r) && a < |r.ds| && b < |r.ds|
    ensures r.ds[a].aru <= r.ds[b].last <= r.ds[b].my
  {
    if Start(r) {
      assert Entered(r.ds[a], a) && Entered(r.ds[b], b);
    } else {
      var v := Ring.Views(r.ds);
      assert v[a].aru <= v[b].last <= v[b].my;
    }
  }

  lemma RunningLocal(r: Ring.State, j: nat)
    requires Running(r) && j < |r.ds|
    ensures Local(r.ds[j], r.sent) && r.ds[j].me == j && Ring.Shape(r)
  {
    RunningRest(r);
    assert Ring.DaemonOk(r, j);
  }

  lemma ArriveKeepsSnap(r: Ring.State, who: nat, s: nat, d: Daemon.State)
    requires Running(r) && SnapOk(r, d)
    ensures SnapOk(Ring.Step(r, Ring.Arrive(who, s)), d)
  {
    RunningRest(r);
    hide Ring.Rest, Local, Running, Ring.Views;
    RingInv.ArriveKeepsRest(r, who, s);
    RingInv.ViewsAt(r.ds, d.me);
    RingInv.ViewsAt(Ring.Step(r, Ring.Arrive(who, s)).ds, d.me);
  }

  lemma VisitKeepsSnap(r: Ring.State, c: Choice, d: Daemon.State)
    requires Running(r) && SnapOk(r, d) && d.me != r.next
    ensures SnapOk(Ring.Step(r, Ring.TokenVisit(c)), d)
  {
    var r' := Ring.Step(r, Ring.TokenVisit(c));
    StepKeepsRunning(r, Ring.TokenVisit(c));
    RunningLocal(r', r.next);
    RingTheorems.StepMonotone(r, Ring.TokenVisit(c), d.me);
    hide Local, Running, Visit;
    RingInv.LocalRuns(r'.ds[r.next], r'.sent);
    var made := r'.sent[|r.sent|..];
    assert r'.sent == r.sent + made;
    RingInv.LocalGrows(d, r.sent, made);
  }

  lemma OldKeeps(w: World, a: Ring.Action)
    requires Inv(w)
    ensures Inv(Step(w, Old(a)))
  {
    hide Running, Exact, Distinct, SnapOk, Ring.Step;
    StepKeepsRunning(w.r, a);
    RunningShape(w.r);
    var w' := Step(w, Old(a));
    forall i | 0 <= i < |w'.snaps|
      ensures SnapOk(w'.r, w'.snaps[i])
    {
      var d := w.snaps[i];
      assert SnapOk(w.r, d);
      if a.TokenVisit? && !Visited(w, w.r.next) {
        assert d.me != w.r.next;
        VisitKeepsSnap(w.r, a.c, d);
      } else if a.Arrive? {
        ArriveKeepsSnap(w.r, a.who, a.s, d);
      } else if a.Post? {
        PostKeepsSnap(w.r, a.who, a.m, d);
      }
    }
  }

  lemma PostKeepsSnap(r: Ring.State, who: nat, m: Message, d: Daemon.State)
    requires Running(r) && SnapOk(r, d)
    ensures Ring.Shape(r) && SnapOk(Ring.Step(r, Ring.Post(who, m)), d)
  {
    RunningShape(r);
    hide Running, Local;
  }

  lemma VisitedTogether(w: World, j: nat)
    requires Inv(w) && j < |w.r.ds| && !Visited(w, j)
    ensures Together(w.snaps, w.r.ds[j], w.r.sent)
    ensures forall i | 0 <= i < |w.snaps| :: w.snaps[i].me != w.r.ds[j].me
  {
    RunningLocal(w.r, j);
    hide Running, EntryOk, Local;
    forall i | 0 <= i < |w.snaps|
      ensures Local(w.snaps[i], w.r.sent) && w.r.ds[j].aru <= w.snaps[i].my && w.snaps[i].aru <= w.r.ds[j].my &&
              w.snaps[i].me != j
    {
      assert SnapOk(w.r, w.snaps[i]);
      AruBelowLast(w.r, j, w.snaps[i].me);
      AruBelowLast(w.r, w.snaps[i].me, j);
    }
  }

  /** The entry after one more visit. */
  lemma EntryKeeps(w: World, d: Daemon.State, create: bool, commitSet: seq<nat>, seqNo: nat)
    requires EntryOk(w) && Local(d, w.r.sent) && Together(w.snaps, d, w.r.sent)
    requires forall i | 0 <= i < |w.snaps| :: w.snaps[i].me != d.me
    ensures EntryOk(World(w.r, seqNo, NextEntry(w.entry, d, create, commitSet), w.snaps + [d], w.sets + [commitSet]))
  {
    hide Local, Exact, Distinct, Merge, Create, Open, Together;
    if w.snaps == [] {
      FirstExact(d, w.r.sent, commitSet);
      FirstDistinct(d, commitSet);
      assert [] + [d] == [d] && [] + [commitSet] == [commitSet];
    } else {
      assert w.entry.value.numTrans <= |w.entry.value.commit| by { ExactShape(w.entry.value, w.snaps, w.sets); }
      MergeExact(d, w.r.sent, w.entry.value, w.snaps, w.sets, commitSet);
      var m := Merge(d, w.entry.value, commitSet).value;
      ExactShape(m, w.snaps + [d], w.sets + [commitSet]);
      DistinctPrefix(m.commit, m.numTrans);
    }
  }

  lemma NextHighest(w: World, d: Daemon.State, create: bool, commitSet: seq<nat>)
    requires SeqOk(w)
    ensures var e := NextEntry(w.entry, d, create, commitSet);
            var was := if create && w.entry.None? then 0 else w.seqNo;
            e.Some? ==> e.value.highest + FORM_GAP <= FormSeq(was, d.hi)
  {
  }

  lemma ExactShape(e: Entry, snaps: seq<Daemon.State>, sets: seq<seq<nat>>)
    requires Exact(e, snaps, sets)
    ensures e.numTrans <= |e.commit|
  {
  }

  lemma FormKeeps(w: World, j: nat, create: bool, commitSet: seq<nat>)
    requires Inv(w)
    ensures Ring.Shape(w.r) && Inv(Step(w, Form(j, create, commitSet)))
  {
    hide Running, Local, Together, EntryOk, NextEntry;
    RunningShape(w.r);
    if j < |w.r.ds| && !Visited(w, j) {
      RunningLocal(w.r, j);
      AruBelowLast(w.r, j, j);
      VisitedTogether(w, j);
      EntryKeeps(w, w.r.ds[j], create, commitSet, Step(w, Form(j, create, commitSet)).seqNo);
      NextHighest(w, w.r.ds[j], create, commitSet);
      assert SnapOk(w.r, w.r.ds[j]);
    }
  }

  lemma RunningShape(r: Ring.State)
    requires Running(r)
    ensures Ring.Shape(r)
  {
  }

  lemma FirstDistinct(d: Daemon.State, commitSet: seq<nat>)
    ensures var e := Create(d, commitSet);
            && e.numTrans <= |e.commit| && Distinct(e.commit[..e.numTrans])
            && (Distinct(commitSet) ==> Distinct(e.commit))
  {
    if Distinct(commitSet) {
      OthersDistinct(commitSet, d.me);
    }
  }

  lemma {:induction false} RunKeepsInv(w: World, run: seq<Action>)
    requires Inv(w) && Ring.Shape(w.r)
    ensures Inv(Exec(w, run))
    decreases |run|
  {
    hide Inv, Step;
    if run != [] {
      match run[0] {
        case Old(a) => OldKeeps(w, a);
        case Form(j, create, commitSet) => FormKeeps(w, j, create, commitSet);
      }
      RunKeepsInv(Step(w, run[0]), run[1..]);
    }
  }

  /** After any run the entry is exact about the daemons visited, in whatever order they were, and whatever
      arrived in between; and its commit set names nobody twice, unless it is the one set that the first daemon
      brought. */
  lemma HoleMergingIsExact(start: Ring.State, seqNo: nat, run: seq<Action>)
    requires Start(start) && GoodStart(start)
    ensures var w := Exec(Unseen(start, seqNo), run);
            w.snaps != [] ==>
              && w.entry.Some? && Exact(w.entry.value, w.snaps, w.sets)
              && Distinct(w.entry.value.commit[..w.entry.value.numTrans])
              && |w.sets| == |w.snaps|
              && (|w.snaps| > 1 || Distinct(w.sets[0]) ==> Distinct(w.entry.value.commit))
  {
    RunKeepsInv(Unseen(start, seqNo), run);
  }

  /** When the token comes to a daemon, every hole recorded is one of the numbers its packet array can hold,
      so the array tells exactly whether the daemon has the packet. */
  lemma HolesFit(w: World, j: nat)
    requires Inv(w) && Ring.Shape(w.r) && j < |w.r.ds| && !Visited(w, j) && w.snaps != []
    ensures var d, e := w.r.ds[j], w.entry.value;
            && e.numTrans <= |e.commit| && d.discarded <= e.highest <= |w.r.sent|
            && forall h | h in e.holes :: Protocol.Within(h, d.discarded)
  {
    RunningLocal(w.r, j);
    VisitedTogether(w, j);
    RunningRest(w.r);
    assert Ring.DaemonOk(w.r, j);
    var d, e := w.r.ds[j], w.entry.value;
    hide Running, Local, Ring.Rest, Ring.DaemonOk, MembersOk, Together;
    var i :| 0 <= i < |w.snaps| && w.snaps[i].hi == e.highest;
    assert SnapOk(w.r, w.snaps[i]);
    RingInv.LocalRuns(w.snaps[i], w.r.sent);
    TogetherHas(w.snaps, d, w.r.sent, e.highest + 1);
    forall h | h in e.holes
      ensures Protocol.Within(h, d.discarded)
    {
      TogetherHas(w.snaps, d, w.r.sent, h);
    }
  }
}
