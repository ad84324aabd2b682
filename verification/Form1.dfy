/** The FORM1 token's entry of one old ring: the daemons of the ring that the token visits merge into it
    how far they got, what none of them has, and who they are. */
module Form1 {
  import opened Packets
  import opened Daemon
  import opened DaemonInv
  import Protocol
  import RingSafety

  datatype Option<T> = None | Some(value: T)

  /** A ring_info and what follows it.  The first numTrans of the commit set are the transitional set. */
  datatype Entry = Entry(aru: nat, highest: nat, holes: seq<nat>, commit: seq<nat>, numTrans: nat)

  /** The numbers from .. hi that are not in the store, in order. */
  function Absent(store: Store, from: nat, hi: nat): seq<nat> {
    Missing(store, from, hi, hi - from + 1)
  }

  /** The commit set without the daemon itself. */
  function Others(set0: seq<nat>, me: nat): seq<nat> {
    if set0 == [] then [] else
      var rest := Others(set0[..|set0| - 1], me);
      var x := set0[|set0| - 1];
      if x == me then rest else rest + [x]
  }

  /** Insert_member, one by one. */
  function Insert(members: seq<nat>, x: nat): seq<nat> {
    if x in members then members else members + [x]
  }

  function InsertAll(members: seq<nat>, more: seq<nat>): seq<nat> {
    if more == [] then members else Insert(InsertAll(members, more[..|more| - 1]), more[|more| - 1])
  }

  /** Holes of the entry that are missing here too. */
  function Kept(holes: seq<nat>, store: Store): seq<nat> {
    if holes == [] then [] else
      var rest := Kept(holes[..|holes| - 1], store);
      var h := holes[|holes| - 1];
      if h in store then rest else rest + [h]
  }

  /** The form token's sequence number after a visit: well above the daemon's Highest_seq. */
  function FormSeq(seqNo: nat, hi: nat): nat {
    if seqNo < hi + RingSafety.FORM_GAP then hi + RingSafety.FORM_GAP else seqNo
  }

  /** Create_form1 by a ring's first daemon. */
  function Create(d: State, commitSet: seq<nat>): Entry {
    Entry(d.aru, d.hi, Absent(d.store, d.my + 1, d.hi), [d.me] + Others(commitSet, d.me), 1)
  }

  /** Fill_form1 when the token has no entry of this ring. */
  function Open(d: State, commitSet: seq<nat>): Entry {
    Entry(d.aru, d.hi, Absent(d.store, d.discarded + 1, d.hi), [d.me] + Others(commitSet, d.me), 1)
  }

  /** The holes of the merged entry. */
  function MergedHoles(d: State, e: Entry): seq<nat> {
    Kept(e.holes, d.store) + (if e.highest < d.hi then Absent(d.store, e.highest + 1, d.hi) else [])
  }

  /** Fill_form1 on the ring's entry; None is the fatal exit on a bad transitional set. */
  function Merge(d: State, e: Entry, commitSet: seq<nat>): Option<Entry>
    requires e.numTrans <= |e.commit|
  {
    var trans := InsertAll([], e.commit[..e.numTrans]);
    if |Insert(trans, d.me)| != e.numTrans + 1 then None else
      Some(Entry(
        Max(e.aru, d.aru), Max(e.highest, d.hi),
        MergedHoles(d, e),
        InsertAll(InsertAll(Insert(trans, d.me), e.commit[e.numTrans..]), commitSet),
        e.numTrans + 1))
  }

  /** The daemon has packet s, or had it and discarded it. */
  predicate Has(d: State, s: nat) {
    s <= d.discarded || s in d.store
  }

  ghost predicate NobodyHas(snaps: seq<State>, s: nat) {
    forall i | 0 <= i < |snaps| :: !Has(snaps[i], s)
  }

  ghost predicate Increasing(s: seq<nat>) {
    forall i, j | 0 <= i < j < |s| :: s[i] < s[j]
  }

  ghost predicate Distinct(s: seq<nat>) {
    forall i, j | 0 <= i < j < |s| :: s[i] != s[j]
  }

  /** The highest Aru and Highest_seq among the daemons. */
  ghost predicate ReachOk(e: Entry, snaps: seq<State>) {
    && (forall i | 0 <= i < |snaps| :: snaps[i].aru <= e.aru && snaps[i].hi <= e.highest)
    && (exists i :: 0 <= i < |snaps| && snaps[i].aru == e.aru)
    && (exists i :: 0 <= i < |snaps| && snaps[i].hi == e.highest)
  }

  /** The numbers up to there that none of them has, in order. */
  ghost predicate HolesOk(e: Entry, snaps: seq<State>) {
    && (forall s: nat :: s in e.holes <==> 1 <= s <= e.highest && NobodyHas(snaps, s))
    && Increasing(e.holes)
  }

  /** x belongs to the i-th visited daemon's part of the commit set. */
  predicate Belongs(snaps: seq<State>, sets: seq<seq<nat>>, i: nat, x: nat)
    requires i < |snaps| == |sets|
  {
    x == snaps[i].me || x in sets[i]
  }

  /** Who they are, in the order of their visits, and then others of their commit sets. */
  ghost predicate MembersOk(e: Entry, snaps: seq<State>, sets: seq<seq<nat>>) {
    && |sets| == |snaps|
    && e.numTrans == |snaps| <= |e.commit|
    && (forall i | 0 <= i < |snaps| :: e.commit[i] == snaps[i].me)
    && (forall x :: x in e.commit <==> exists i: nat :: i < |snaps| && Belongs(snaps, sets, i, x))
  }

  /** The entry says exactly what the daemons visited so far, in the states they had then, know together. */
  ghost predicate Exact(e: Entry, snaps: seq<State>, sets: seq<seq<nat>>) {
    ReachOk(e, snaps) && HolesOk(e, snaps) && MembersOk(e, snaps, sets)
  }

  lemma IncreasingAround(a: seq<nat>, b: seq<nat>, mid: nat)
    requires Increasing(a) && Increasing(b)
    requires (forall x | x in a :: x <= mid) && (forall x | x in b :: x > mid)
    ensures Increasing(a + b)
  {
    assert forall i | 0 <= i < |a| :: a[i] in a;
    assert forall i | 0 <= i < |b| :: b[i] in b;
  }

  lemma {:induction false} AbsentIs(store: Store, from: nat, hi: nat)
    ensures forall s: nat :: s in Absent(store, from, hi) <==> from <= s <= hi && s !in store
    ensures Increasing(Absent(store, from, hi))
    decreases hi + 1 - from
  {
    if from <= hi {
      AbsentIs(store, from + 1, hi);
      IncreasingAround(if from !in store then [from] else [], Absent(store, from + 1, hi), from);
    }
  }

  lemma {:induction false} KeptIs(holes: seq<nat>, store: Store)
    requires Increasing(holes)
    ensures forall s :: s in Kept(holes, store) <==> s in holes && s !in store
    ensures Increasing(Kept(holes, store))
  {
    if holes != [] {
      var rest, h := holes[..|holes| - 1], holes[|holes| - 1];
      assert holes == rest + [h];
      KeptIs(rest, store);
      if h !in store && h > 0 {
        IncreasingAround(Kept(rest, store), [h], h - 1);
      }
    }
  }

  lemma {:induction false} OthersIs(set0: seq<nat>, me: nat)
    ensures forall x :: x in Others(set0, me) <==> x in set0 && x != me
  {
    if set0 != [] {
      OthersIs(set0[..|set0| - 1], me);
    }
  }

  lemma {:induction false} InsertAllIs(members: seq<nat>, more: seq<nat>)
    ensures forall x :: x in InsertAll(members, more) <==> x in members || x in more
    ensures members <= InsertAll(members, more)
  {
    if more != [] {
      InsertAllIs(members, more[..|more| - 1]);
    }
  }

  /** Nobody is inserted twice. */
  lemma {:induction false} InsertAllDistinct(members: seq<nat>, more: seq<nat>)
    requires Distinct(members)
    ensures Distinct(InsertAll(members, more))
  {
    if more != [] {
      InsertAllDistinct(members, more[..|more| - 1]);
    }
  }

  lemma {:induction false} OthersDistinct(set0: seq<nat>, me: nat)
    requires Distinct(set0)
    ensures Distinct([me] + Others(set0, me))
  {
    if set0 != [] {
      var rest, x := set0[..|set0| - 1], set0[|set0| - 1];
      OthersDistinct(rest, me);
      OthersIs(rest, me);
      var a := [me] + Others(rest, me);
      assert x != me ==> x !in a && [me] + Others(set0, me) == a + [x];
    }
  }

  lemma {:induction false} InsertDistinct(more: seq<nat>)
    requires Distinct(more)
    ensures InsertAll([], more) == more
  {
    if more != [] {
      var rest, x := more[..|more| - 1], more[|more| - 1];
      InsertDistinct(rest);
      assert x !in rest;
      assert rest + [x] == more;
    }
  }

  lemma LocalHas(d: State, sent: seq<Packet>, s: nat)
    requires Local(d, sent)
    ensures d.discarded == d.aru <= d.my <= d.hi
    ensures s <= d.my ==> Has(d, s)
    ensures s > d.hi ==> !Has(d, s)
  {
  }

  lemma LocalCovers(d: State, sent: seq<Packet>)
    requires Local(d, sent)
    ensures forall s | d.discarded < s <= d.my :: s in d.store
    ensures forall s | s in d.store :: d.discarded < s <= d.hi
  {
  }

  lemma FirstMembers(e: Entry, d: State, commitSet: seq<nat>)
    requires e.commit == [d.me] + Others(commitSet, d.me) && e.numTrans == 1
    ensures MembersOk(e, [d], [commitSet])
  {
    OthersIs(commitSet, d.me);
    assert [d][0] == d && [] + [d] == [d] && [] + [commitSet] == [commitSet];
    hide Others, Belongs;
    forall x
      ensures x in e.commit <==> exists i: nat :: i < |[d]| && Belongs([d], [commitSet], i, x)
    {
      BelongsAppend([], [], d, commitSet, x);
    }
  }

  lemma FirstHoles(d: State, sent: seq<Packet>, commitSet: seq<nat>)
    requires Local(d, sent)
    ensures Create(d, commitSet) == Open(d, commitSet)
    ensures HolesOk(Create(d, commitSet), [d])
  {
    hide Local, Absent, Others, Increasing, NobodyHas;
    LocalHas(d, sent, 0);
    LocalCovers(d, sent);
    AbsentIs(d.store, d.my + 1, d.hi);
    AbsentSkips(d.store, d.discarded + 1, d.my + 1, d.hi);
    forall s: nat
      ensures NobodyHas([d], s) <==> !Has(d, s)
    {
      NobodyHasOne(d, s);
    }
  }

  lemma NobodyHasOne(d: State, s: nat)
    ensures NobodyHas([d], s) <==> !Has(d, s)
  {
    assert [d][0] == d;
  }

  lemma FirstReach(e: Entry, d: State)
    requires e.aru == d.aru && e.highest == d.hi
    ensures ReachOk(e, [d])
  {
    assert [d][0] == d;
  }

  /** The first daemon of a ring, whether it makes the token or is the first to get it. */
  lemma FirstExact(d: State, sent: seq<Packet>, commitSet: seq<nat>)
    requires Local(d, sent)
    ensures Exact(Create(d, commitSet), [d], [commitSet]) && Create(d, commitSet) == Open(d, commitSet)
  {
    FirstHoles(d, sent, commitSet);
    hide Local, Absent, Others, ReachOk, HolesOk, MembersOk, Open;
    FirstMembers(Create(d, commitSet), d, commitSet);
    FirstReach(Create(d, commitSet), d);
  }

  lemma NobodyAppend(snaps: seq<State>, d: State, s: nat)
    ensures NobodyHas(snaps + [d], s) <==> NobodyHas(snaps, s) && !Has(d, s)
  {
    assert (snaps + [d])[|snaps|] == d;
    assert forall i | 0 <= i < |snaps| :: (snaps + [d])[i] == snaps[i];
  }

  /** What a daemon needs of those visited before it: nobody discarded what another one misses. */
  ghost predicate Together(snaps: seq<State>, d: State, sent: seq<Packet>) {
    forall i | 0 <= i < |snaps| :: Local(snaps[i], sent) && d.aru <= snaps[i].my && snaps[i].aru <= d.my
  }

  lemma TogetherHas(snaps: seq<State>, d: State, sent: seq<Packet>, s: nat)
    requires Local(d, sent) && |snaps| > 0 && Together(snaps, d, sent)
    ensures NobodyHas(snaps, s) ==> s > d.discarded
    ensures (forall i | 0 <= i < |snaps| :: s > snaps[i].hi) ==> NobodyHas(snaps, s) && s > d.discarded
  {
    LocalHas(d, sent, s);
    forall i | 0 <= i < |snaps|
      ensures d.discarded <= snaps[i].my && (s <= snaps[i].my ==> Has(snaps[i], s)) &&
              (s > snaps[i].hi ==> !Has(snaps[i], s) && s > d.discarded)
    {
      LocalHas(snaps[i], sent, s);
    }
    hide Local;
    assert d.discarded <= snaps[0].my && (s <= snaps[0].my ==> Has(snaps[0], s));
  }

  lemma MergedIs(d: State, e: Entry)
    requires Increasing(e.holes) && forall s | s in e.holes :: s <= e.highest
    ensures Increasing(MergedHoles(d, e))
    ensures forall s :: s in MergedHoles(d, e) <==> (s in e.holes || e.highest < s <= d.hi) && s !in d.store
  {
    hide Absent, Kept, Increasing;
    var more := if e.highest < d.hi then Absent(d.store, e.highest + 1, d.hi) else [];
    KeptIs(e.holes, d.store);
    AbsentIs(d.store, e.highest + 1, d.hi);
    NoneIncreasing();
    IncreasingAround(Kept(e.holes, d.store), more, e.highest);
  }

  lemma NoneIncreasing()
    ensures Increasing([])
  {
  }

  lemma MergeHoles(d: State, sent: seq<Packet>, e: Entry, snaps: seq<State>)
    requires Local(d, sent) && |snaps| > 0 && Together(snaps, d, sent)
    requires ReachOk(e, snaps) && HolesOk(e, snaps)
    ensures HolesOk(Entry(e.aru, Max(e.highest, d.hi), MergedHoles(d, e), [], 0), snaps + [d])
  {
    MergedIs(d, e);
    LocalCovers(d, sent);
    hide Local, Increasing, MergedHoles;
    forall s: nat
      ensures s in MergedHoles(d, e) <==> 1 <= s <= Max(e.highest, d.hi) && NobodyHas(snaps + [d], s)
    {
      NobodyAppend(snaps, d, s);
      TogetherHas(snaps, d, sent, s);
      hide Together, NobodyHas;
    }
  }

  lemma MergeReach(d: State, e: Entry, e': Entry, snaps: seq<State>)
    requires ReachOk(e, snaps)
    requires e'.aru == Max(e.aru, d.aru) && e'.highest == Max(e.highest, d.hi)
    ensures ReachOk(e', snaps + [d])
  {
    var all := snaps + [d];
    assert all[|snaps|] == d;
    var i :| 0 <= i < |snaps| && snaps[i].aru == e.aru;
    var j :| 0 <= j < |snaps| && snaps[j].hi == e.highest;
    assert all[i] == snaps[i] && all[j] == snaps[j];
  }

  lemma BelongsAppend(snaps: seq<State>, sets: seq<seq<nat>>, d: State, commitSet: seq<nat>, x: nat)
    requires |snaps| == |sets|
    ensures (exists i: nat :: i < |snaps + [d]| && Belongs(snaps + [d], sets + [commitSet], i, x)) <==>
            (exists i: nat :: i < |snaps| && Belongs(snaps, sets, i, x)) || x == d.me || x in commitSet
  {
    var all, alls := snaps + [d], sets + [commitSet];
    assert forall i: nat | i < |snaps| :: Belongs(all, alls, i, x) == Belongs(snaps, sets, i, x);
    assert Belongs(all, alls, |snaps|, x) <==> x == d.me || x in commitSet;
  }

  /** The merged commit set. */
  lemma MergedMembers(e: Entry, me: nat, commitSet: seq<nat>)
    requires e.numTrans <= |e.commit| && Distinct(e.commit[..e.numTrans]) && me !in e.commit[..e.numTrans]
    ensures var t := Insert(InsertAll([], e.commit[..e.numTrans]), me);
            var c := InsertAll(InsertAll(t, e.commit[e.numTrans..]), commitSet);
            && t == e.commit[..e.numTrans] + [me] && t <= c && Distinct(c)
            && forall x :: x in c <==> x in e.commit || x == me || x in commitSet
  {
    hide InsertAll;
    var trans := e.commit[..e.numTrans];
    InsertDistinct(trans);
    var t := trans + [me];
    assert Distinct(t);
    hide Distinct;
    InsertAllDistinct(t, e.commit[e.numTrans..]);
    InsertAllDistinct(InsertAll(t, e.commit[e.numTrans..]), commitSet);
    InsertAllIs(t, e.commit[e.numTrans..]);
    InsertAllIs(InsertAll(t, e.commit[e.numTrans..]), commitSet);
    assert e.commit == trans + e.commit[e.numTrans..];
  }

  lemma MergeCommit(d: State, e: Entry, commitSet: seq<nat>)
    requires e.numTrans <= |e.commit| && Distinct(e.commit[..e.numTrans]) && d.me !in e.commit[..e.numTrans]
    ensures var m := Merge(d, e, commitSet);
            && m.Some? && m.value.numTrans == e.numTrans + 1 && e.commit[..e.numTrans] + [d.me] <= m.value.commit
            && Distinct(m.value.commit)
            && forall x :: x in m.value.commit <==> x in e.commit || x == d.me || x in commitSet
  {
    MergedMembers(e, d.me, commitSet);
    hide InsertAll, MergedHoles, Insert, Distinct;
  }

  lemma MergeMembers(d: State, e: Entry, m: Entry, snaps: seq<State>, sets: seq<seq<nat>>, commitSet: seq<nat>)
    requires MembersOk(e, snaps, sets)
    requires m.numTrans == e.numTrans + 1 && e.commit[..e.numTrans] + [d.me] <= m.commit
    requires forall x :: x in m.commit <==> x in e.commit || x == d.me || x in commitSet
    ensures MembersOk(m, snaps + [d], sets + [commitSet])
  {
    var t := e.commit[..e.numTrans] + [d.me];
    assert forall i | 0 <= i < |t| :: m.commit[i] == t[i];
    assert forall i | 0 <= i < |snaps| + 1 :: m.commit[i] == (snaps + [d])[i].me;
    forall x
      ensures x in m.commit <==> exists i: nat :: i < |snaps + [d]| && Belongs(snaps + [d], sets + [commitSet], i, x)
    {
      BelongsAppend(snaps, sets, d, commitSet, x);
      hide Belongs;
    }
  }

  lemma DistinctPrefix(s: seq<nat>, n: nat)
    requires Distinct(s) && n <= |s|
    ensures Distinct(s[..n])
  {
  }

  /** Merging is exact, names nobody twice, and takes no fatal exit. */
  lemma MergeExact(d: State, sent: seq<Packet>, e: Entry, snaps: seq<State>, sets: seq<seq<nat>>, commitSet: seq<nat>)
    requires Local(d, sent) && |snaps| > 0 && Together(snaps, d, sent)
    requires Exact(e, snaps, sets) && Distinct(e.commit[..e.numTrans])
    requires forall i | 0 <= i < |snaps| :: snaps[i].me != d.me
    ensures var m := Merge(d, e, commitSet);
            m.Some? && Exact(m.value, snaps + [d], sets + [commitSet]) && Distinct(m.value.commit)
  {
    hide MergedHoles, ReachOk, HolesOk, Local, InsertAll, Insert, MembersOk, Distinct, Together;
    MergeHoles(d, sent, e, snaps);
    TransVisited(e, snaps, sets, d.me);
    var trans := e.commit[..e.numTrans];
    MergeCommit(d, e, commitSet);
    var m := Merge(d, e, commitSet).value;
    MergeMembers(d, e, m, snaps, sets, commitSet);
    MergeReach(d, e, m, snaps);
    HolesFramed(Entry(e.aru, Max(e.highest, d.hi), MergedHoles(d, e), [], 0), m, snaps + [d]);
  }

  lemma TransVisited(e: Entry, snaps: seq<State>, sets: seq<seq<nat>>, me: nat)
    requires MembersOk(e, snaps, sets) && forall i | 0 <= i < |snaps| :: snaps[i].me != me
    ensures e.numTrans <= |e.commit| && me !in e.commit[..e.numTrans]
  {
  }

  lemma HolesFramed(e: Entry, e': Entry, snaps: seq<State>)
    requires HolesOk(e, snaps) && e'.highest == e.highest && e'.holes == e.holes
    ensures HolesOk(e', snaps)
  {
  }

  lemma {:induction false} AbsentSkips(store: Store, from: nat, to': nat, hi: nat)
    requires from <= to' <= hi + 1 && forall s | from <= s < to' :: s in store
    ensures Absent(store, from, hi) == Absent(store, to', hi)
    decreases to' - from
  {
    if from < to' {
      AbsentSkips(store, from + 1, to', hi);
    }
  }

  /** The loops over the packet array that look for holes. */
  method FindHoles(g: Protocol.Engine, from: nat, hi: nat) returns (holes: seq<nat>)
    requires g.Valid() && !g.exited
    requires g.lastDiscarded < from && hi <= g.highestSeq
    ensures holes == Absent(g.Abs().store, from, hi)
  {
    hide Protocol.StoreOf, Protocol.Chained, DownOk, Protocol.Within;
    ghost var d := g.Abs();
    holes := [];
    var index := from;
    while index <= hi
      invariant from <= index && (index <= hi + 1 || index == from)
      invariant holes + Absent(d.store, index, hi) == Absent(d.store, from, hi)
    {
      Protocol.MissingStep(d.store, index, hi, hi - index + 1, holes);
      var c := g.GetCell(index);
      if c.exist == 0 {
        holes := holes + [index];
      }
      index := index + 1;
    }
  }

  /** The loop over the holes of the entry. */
  method KeepHoles(g: Protocol.Engine, old0: seq<nat>) returns (holes: seq<nat>)
    requires g.Valid() && !g.exited
    requires forall h | h in old0 :: Protocol.Within(h, g.lastDiscarded)
    ensures holes == Kept(old0, g.Abs().store)
  {
    hide Protocol.StoreOf, Protocol.Chained, DownOk, Protocol.Within;
    holes := [];
    for i := 0 to |old0|
      invariant holes == Kept(old0[..i], g.Abs().store)
    {
      var c := g.GetCell(old0[i]);
      assert old0[..i + 1][..i] == old0[..i];
      if c.exist == 0 {
        holes := holes + [old0[i]];
      }
    }
    assert old0[..|old0|] == old0;
  }

  /** Insert_member for every one of them. */
  method InsertMembers(members: seq<nat>, more: seq<nat>) returns (r: seq<nat>)
    ensures r == InsertAll(members, more)
  {
    r := members;
    for i := 0 to |more|
      invariant r == InsertAll(members, more[..i])
    {
      assert more[..i + 1][..i] == more[..i];
      if more[i] !in r {
        r := r + [more[i]];
      }
    }
    assert more[..|more|] == more;
  }

  /** The daemon first, then the others of its commit set. */
  method CommitMembers(me: nat, commitSet: seq<nat>) returns (commit: seq<nat>)
    ensures commit == [me] + Others(commitSet, me)
  {
    commit := [me];
    for i := 0 to |commitSet|
      invariant commit == [me] + Others(commitSet[..i], me)
    {
      assert commitSet[..i + 1][..i] == commitSet[..i];
      if commitSet[i] != me {
        commit := commit + [commitSet[i]];
      }
    }
    assert commitSet[..|commitSet|] == commitSet;
  }

  /** Create_form1: the entry of the daemon's ring and the token's sequence number. */
  method CreateForm1(g: Protocol.Engine, commitSet: seq<nat>) returns (e: Entry, seqNo: nat)
    requires g.Valid() && !g.exited && !g.evs
    ensures e == Create(g.Abs(), commitSet) && seqNo == FormSeq(0, g.Abs().hi)
  {
    seqNo := g.highestSeq + RingSafety.FORM_GAP;
    var holes := FindHoles(g, g.myAru + 1, g.highestSeq);
    var commit := CommitMembers(g.me, commitSet);
    e := Entry(g.aru, g.highestSeq, holes, commit, 1);
  }

  /** Fill_form1 on the token's sequence number and the entry of the daemon's ring, if the token has one; None
      is the fatal exit. */
  method FillForm1(g: Protocol.Engine, mine: Option<Entry>, commitSet: seq<nat>, was: nat)
      returns (r: Option<Entry>, seqNo: nat)
    requires g.Valid() && !g.exited
    requires mine.Some? ==> mine.value.numTrans <= |mine.value.commit| && g.lastDiscarded <= mine.value.highest
    requires mine.Some? ==> forall h | h in mine.value.holes :: Protocol.Within(h, g.lastDiscarded)
    ensures r == if mine.None? then Some(Open(g.Abs(), commitSet)) else Merge(g.Abs(), mine.value, commitSet)
    ensures seqNo == FormSeq(was, g.Abs().hi)
  {
    hide Protocol.StoreOf, Protocol.Chained, DownOk, Protocol.Within, Absent, Kept, InsertAll, Others;
    seqNo := was;
    if seqNo < g.highestSeq + RingSafety.FORM_GAP {
      seqNo := g.highestSeq + RingSafety.FORM_GAP;
    }
    if mine.None? {
      var holes := FindHoles(g, g.lastDiscarded + 1, g.highestSeq);
      var commit := CommitMembers(g.me, commitSet);
      return Some(Entry(g.aru, g.highestSeq, holes, commit, 1)), seqNo;
    }
    var e := mine.value;
    var aru, highest := g.aru, g.highestSeq;
    if e.aru > aru {
      aru := e.aru;
    }
    if e.highest > highest {
      highest := e.highest;
    }
    var holes := KeepHoles(g, e.holes);
    if e.highest < g.highestSeq {
      var more := FindHoles(g, e.highest + 1, g.highestSeq);
      holes := holes + more;
    }
    assert holes == MergedHoles(g.Abs(), e);
    var temp := InsertMembers([], e.commit[..e.numTrans]);
    if g.me !in temp {
      temp := temp + [g.me];
    }
    if |temp| != e.numTrans + 1 {
      return None, seqNo;
    }
    temp := InsertMembers(temp, e.commit[e.numTrans..]);
    temp := InsertMembers(temp, commitSet);
    return Some(Entry(aru, highest, holes, temp, e.numTrans + 1)), seqNo;
  }
}
