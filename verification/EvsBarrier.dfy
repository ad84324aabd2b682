/** The round of tokens in EVS: a daemon goes over to the next ring when Aru has come to the form token's number, which
    is to say that every daemon has everything.  The aru rule that computes it is that of OP, with a token whose seq
    stays 0, and with what Set_aru was on the old ring. */
module EvsBarrier {
  import opened AruRule
  import Ring
  import RingSafety

  /** The daemons of the next ring, as the rule sees them; for each the numbers at which My_aru can rest, those before
      a packet it misses; the token, the next visited, and how many visits there were.  lowered: some daemon let the
      token go with less than the form token's number.  done: the daemon visited last goes over to the next ring. */
  datatype State = State(v: seq<View>, rests: seq<set<int>>, m: Mark, next: nat, visits: nat, lowered: bool, done: bool)

  /** Packets of its old ring take a daemon's My_aru to my; or the token visits the next daemon. */
  datatype Action = Grow(j: nat, my: nat) | Visit

  /** One visit: a daemon that has everything commits, and the token keeps its seq. */
  function Pass(v: View, m: Mark, me: nat, lastSeq: nat): (View, Mark) {
    var my := if v.my == v.hi then lastSeq else v.my;
    var (w, m') := VisitView(v, m, me, my, v.hi);
    (w, m'.(seqNo := m.seqNo))
  }

  predicate MayGrow(s: State, j: nat, my: nat) {
    j < |s.v| && j < |s.rests| && s.v[j].my <= my && (my == s.v[j].hi || my in s.rests[j])
  }

  function Step(s: State, a: Action, lastSeq: nat): (s': State)
    requires s.next < |s.v|
    ensures s'.next < |s'.v| && |s'.v| == |s.v|
  {
    if s.done then s else
      match a
      case Grow(j, my) => if MayGrow(s, j, my) then s.(v := s.v[j := s.v[j].(my := my)]) else s
      case Visit =>
        var (w, m) := Pass(s.v[s.next], s.m, s.next, lastSeq);
        State(s.v[s.next := w], s.rests, m, Next(s.next, |s.v|), s.visits + 1,
              s.lowered || m.aru < lastSeq, w.aru == lastSeq)
  }

  function Exec(s: State, run: seq<Action>, lastSeq: nat): (s': State)
    requires s.next < |s.v|
    ensures s'.next < |s'.v| && |s'.v| == |s.v|
    decreases |run|
  {
    if run == [] then s else Exec(Step(s, run[0], lastSeq), run[1..], lastSeq)
  }

  /** The first regular token: nobody has been visited, and Set_aru is what the old ring left. */
  ghost predicate Start(s: State, lastSeq: nat) {
    && s.next == 0 < |s.v| == |s.rests| && s.visits == 0 && !s.lowered && !s.done
    && s.m.aru == lastSeq && s.m.seqNo == 0
    && forall k | 0 <= k < |s.v| ::
         && s.v[k].last == 0 && s.v[k].hi < lastSeq && -1 <= s.v[k].setAru < lastSeq
         && s.v[k].my <= s.v[k].hi && (s.v[k].my == s.v[k].hi || s.v[k].my in s.rests[k])
         && forall a | a in s.rests[k] :: 0 <= a < s.v[k].hi
  }

  /** My_aru of daemon k can rest at a: it is not beyond, and misses the next packet. */
  predicate CanRest(s: State, k: nat, a: int)
    requires k < |s.v| == |s.rests|
  {
    s.v[k].my <= a && a in s.rests[k]
  }

  /** Nobody can rest at 0; and if a daemon's leftover Set_aru is where one visited before it can rest, that is the
      first daemon alone, and nobody visited later can. */
  ghost predicate Good(s: State)
    requires |s.v| == |s.rests|
  {
    || |s.v| == 1
    || (&& (forall k: nat | k < |s.v| :: !CanRest(s, k, 0))
        && (forall x: nat, j: nat | 1 <= x < j < |s.v| :: !CanRest(s, x, s.v[j].setAru))
        && (forall j: nat, k: nat | 1 <= j < k < |s.v| ::
              !(CanRest(s, 0, s.v[j].setAru) && CanRest(s, k, s.v[j].setAru))))
  }

  /** When a daemon goes over, every daemon has committed. */
  ghost predicate Safe(s: State, lastSeq: nat) {
    s.done ==> forall k: nat | k < |s.v| :: s.v[k].my == lastSeq
  }

  // The invariant, for two daemons and more.

  predicate Fresh(s: State, k: nat) {
    s.visits <= k
  }

  function R(s: State, k: nat): int {
    Rank(k, s.next, |s.v|)
  }

  /** Some daemon set the token's aru. */
  predicate Set(s: State) {
    0 <= s.m.lastId < |s.v| && !Fresh(s, s.m.lastId)
  }

  ghost predicate MemberOk(s: State, s0: State, lastSeq: nat, k: nat)
    requires k < |s.v| == |s0.v| == |s0.rests|
  {
    var v, u := s.v[k], s0.v[k];
    && v.hi == u.hi < lastSeq && u.my <= v.my && v.last <= v.my && -1 <= v.setAru < lastSeq
    && (v.my == lastSeq || v.my == v.hi || CanRest(s0, k, v.my))
    && if Fresh(s, k) then v.last == 0 && v.setAru == u.setAru
       else v.setAru == -1 || (v.setAru == v.last && CanRest(s0, k, v.setAru))
  }

  ghost predicate AllLast(s: State, aru: nat) {
    forall k: nat | k < |s.v| && !Fresh(s, k) :: s.v[k].last == aru
  }

  /** Daemon k may take the token's aru for its own Set_aru once daemon q has set it to that, and q likewise; nobody
      else can rest there, and when it happens everybody has let the token go with it. */
  ghost predicate PairedWith(s: State, s0: State, k: nat, q: nat)
    requires k < |s.v| == |s0.v| == |s0.rests|
  {
    && q < |s.v| && R(s, k) < R(s, q)
    && (forall u: nat | u < |s.v| && u != k && u != q :: !CanRest(s0, u, s.v[k].setAru))
    && (s.v[k].setAru == s.m.aru ==> s.m.lastId == q && AllLast(s, s.m.aru))
  }

  ghost predicate SetFine(s: State, s0: State, k: nat)
    requires k < |s.v| == |s0.v| == |s0.rests| && Set(s)
  {
    var l, v := s.m.lastId, s.v[k];
    && (R(s, k) >= R(s, l) ==> v.last == s.m.aru)
    && (R(s, k) > R(s, l) ==> v.setAru == -1)
    && (k == l ==> v.setAru == -1 || v.setAru == s.m.aru)
    && (R(s, k) < R(s, l) ==> v.setAru == -1 || v.setAru > s.m.aru || exists q: nat :: PairedWith(s, s0, k, q))
  }

  ghost predicate LastsOrdered(s: State) {
    forall u: nat, k: nat | u < |s.v| && k < |s.v| && R(s, u) < R(s, k) ::
      s.v[u].last <= s.v[k].last || s.m.aru <= s.v[k].last
  }

  ghost predicate AllSetFine(s: State, s0: State)
    requires |s.v| == |s0.v| == |s0.rests| && Set(s)
  {
    forall k: nat | k < |s.v| && !Fresh(s, k) :: SetFine(s, s0, k)
  }

  /** Those visited before the token's aru was last set let it go with less than the form token's number. */
  ghost predicate LessBefore(s: State, lastSeq: nat)
    requires Set(s)
  {
    forall k: nat | k < |s.v| && R(s, k) < R(s, s.m.lastId) :: s.v[k].last < lastSeq
  }

  ghost predicate NonePending(s: State) {
    forall k: nat | k < |s.v| && !Fresh(s, k) :: s.v[k].setAru == -1
  }

  /** Before the token's aru was set, and after. */
  ghost predicate MarkOk(s: State, s0: State, lastSeq: nat)
    requires |s.v| == |s0.v| == |s0.rests|
  {
    if Set(s) then
      && (s.m.aru == lastSeq || CanRest(s0, s.m.lastId, s.m.aru))
      && AllSetFine(s, s0)
      && (s.lowered && s.m.aru == lastSeq ==> LessBefore(s, lastSeq))
    else
      s.m.aru == lastSeq && !s.lowered && NonePending(s)
  }

  ghost predicate AllMembersOk(s: State, s0: State, lastSeq: nat)
    requires |s.v| == |s0.v| == |s0.rests|
  {
    forall k: nat | k < |s.v| :: MemberOk(s, s0, lastSeq, k)
  }

  ghost predicate Inv(s: State, s0: State, lastSeq: nat) {
    && |s.v| == |s0.v| == |s0.rests| >= 2 && s.next < |s.v| && s.rests == s0.rests && !s.done
    && s.m.seqNo == 0 < s.m.aru <= lastSeq && (s.visits <= |s.v| ==> s.next == if s.visits < |s.v| then s.visits else 0)
    && AllMembersOk(s, s0, lastSeq) && LastsOrdered(s) && MarkOk(s, s0, lastSeq)
    && (!s.lowered ==> s.m.lastId == s0.m.lastId && s.m.aru == lastSeq && AllLast(s, lastSeq) && s.visits <= |s.v|)
  }

  lemma StartInv(s: State, lastSeq: nat)
    requires Start(s, lastSeq) && |s.v| >= 2 && lastSeq > 0
    ensures Inv(s, s, lastSeq)
  {
    forall k: nat | k < |s.v|
      ensures MemberOk(s, s, lastSeq, k)
    {
    }
  }

  /** The same but for My_aru. */
  ghost predicate SameButMy(s: State, s': State) {
    && s' == s.(v := s'.v) && |s'.v| == |s.v|
    && forall k: nat | k < |s.v| :: s'.v[k] == s.v[k].(my := s'.v[k].my)
  }

  lemma SetFineGrown(s: State, s': State, s0: State, k: nat)
    requires k < |s.v| == |s0.v| == |s0.rests| && Set(s) && SameButMy(s, s') && SetFine(s, s0, k)
    ensures SetFine(s', s0, k)
  {
    if q: nat :| PairedWith(s, s0, k, q) {
      assert PairedWith(s', s0, k, q);
    }
  }

  lemma MarkGrown(s: State, s': State, s0: State, lastSeq: nat)
    requires |s.v| == |s0.v| == |s0.rests| && SameButMy(s, s') && MarkOk(s, s0, lastSeq)
    ensures MarkOk(s', s0, lastSeq)
  {
    hide SetFine, CanRest;
    if Set(s) {
      forall k: nat | k < |s'.v| && !Fresh(s', k)
        ensures SetFine(s', s0, k)
      {
        SetFineGrown(s, s', s0, k);
      }
    }
  }

  lemma MemberGrown(s: State, s0: State, lastSeq: nat, j: nat, my: nat, k: nat)
    requires |s.v| == |s0.v| == |s0.rests| && s.rests == s0.rests && j < |s.v| && k < |s.v|
    requires MemberOk(s, s0, lastSeq, j) && MemberOk(s, s0, lastSeq, k) && MayGrow(s, j, my)
    ensures MemberOk(s.(v := s.v[j := s.v[j].(my := my)]), s0, lastSeq, k)
  {
  }

  lemma GrowKeeps(s: State, s0: State, lastSeq: nat, j: nat, my: nat)
    requires Inv(s, s0, lastSeq)
    ensures Inv(Step(s, Grow(j, my), lastSeq), s0, lastSeq)
  {
    hide MarkOk, MemberOk;
    if MayGrow(s, j, my) {
      var s' := s.(v := s.v[j := s.v[j].(my := my)]);
      assert Step(s, Grow(j, my), lastSeq) == s';
      forall k: nat | k < |s'.v|
        ensures MemberOk(s', s0, lastSeq, k)
      {
        MemberGrown(s, s0, lastSeq, j, my, k);
      }
      MarkGrown(s, s', s0, lastSeq);
    }
  }

  /** My_aru of the daemon visited, once it has committed if it can. */
  function MyNow(s: State, lastSeq: nat): nat
    requires s.next < |s.v|
  {
    var v := s.v[s.next];
    if v.my == v.hi then lastSeq else v.my
  }

  /** The daemon visited sets the token's aru whatever it is; or takes it down. */
  predicate Raises(s: State)
    requires s.next < |s.v|
  {
    s.m.aru == s.v[s.next].setAru || s.m.lastId == s.next
  }

  predicate Lowers(s: State, lastSeq: nat)
    requires s.next < |s.v|
  {
    !Raises(s) && s.m.aru > MyNow(s, lastSeq)
  }

  /** What the visit does. */
  lemma VisitIs(s: State, s0: State, lastSeq: nat)
    requires Inv(s, s0, lastSeq)
    ensures var t, v, my := Step(s, Visit, lastSeq), s.v[s.next], MyNow(s, lastSeq);
            var aru := if Raises(s) || Lowers(s, lastSeq) then my else s.m.aru;
            var setAru := if Lowers(s, lastSeq) || (Raises(s) && my < v.hi) then my else -1;
            && t.m == Mark(aru, if Raises(s) || Lowers(s, lastSeq) then s.next else s.m.lastId, 0)
            && t.v == s.v[s.next := View(my, v.hi, setAru, aru, Min(v.last, aru))]
            && t.next == Next(s.next, |s.v|) && t.visits == s.visits + 1 && t.rests == s.rests
            && t.lowered == (s.lowered || aru < lastSeq) && t.done == (Min(v.last, aru) == lastSeq)
  {
    hide MarkOk, AllMembersOk;
  }

  /** The daemon visited is visited last now; the others move on. */
  lemma RankShift(s: State, s0: State, lastSeq: nat)
    requires Inv(s, s0, lastSeq)
    ensures var t := Step(s, Visit, lastSeq);
            && R(t, s.next) == |s.v| - 1 && R(s, s.next) == 0 && !Fresh(t, s.next)
            && (forall k: nat | k < |s.v| && k != s.next :: R(t, k) == R(s, k) - 1 && Fresh(t, k) == Fresh(s, k))
            && (forall k: nat | k < |s.v| :: 0 <= R(s, k) < |s.v|)
            && (forall u: nat, k: nat | u < |s.v| && k < |s.v| && Fresh(s, u) && !Fresh(s, k) :: R(s, u) < R(s, k))
  {
    hide MarkOk, AllMembersOk;
  }

  /** The daemon visited before its commit. */
  lemma MemberAt(s: State, s0: State, lastSeq: nat, k: nat)
    requires Inv(s, s0, lastSeq) && k < |s.v|
    ensures MemberOk(s, s0, lastSeq, k)
  {
    hide MarkOk, MemberOk;
  }

  lemma MyNowOk(s: State, s0: State, lastSeq: nat)
    requires Inv(s, s0, lastSeq) && Start(s0, lastSeq) && Good(s0)
    ensures var my, v := MyNow(s, lastSeq), s.v[s.next];
            && 0 < my <= lastSeq && v.last <= my && v.my <= my &&
               (my == lastSeq || (my < v.hi && CanRest(s0, s.next, my)))
  {
    hide MarkOk;
    MemberAt(s, s0, lastSeq, s.next);
    var v := s.v[s.next];
    assert !CanRest(s0, s.next, 0);
    if v.my != v.hi && v.my != lastSeq {
      assert v.my in s0.rests[s.next];
    }
  }

  /** When the daemon visited sets the token's aru after another one did, everybody visited let the token go with that
      aru, and nobody but these two can take it for its own Set_aru or rest there. */
  ghost predicate RaiseOk(s: State, s0: State, lastSeq: nat)
    requires |s.v| == |s0.v| == |s0.rests| && s.next < |s.v|
  {
    && AllLast(s, s.m.aru)
    && (forall k: nat | k < |s.v| && !Fresh(s, k) && k != s.next && k != s.m.lastId :: s.v[k].setAru == -1)
    && (Set(s) && s.m.lastId != s.next ==>
          && s.m.aru < lastSeq
          && (s.v[s.m.lastId].setAru == -1 || s.v[s.m.lastId].setAru == s.m.aru)
          && forall u: nat | u < |s.v| && u != s.next && u != s.m.lastId :: !CanRest(s0, u, s.m.aru))
  }

  lemma RaisedByLast(s: State, s0: State, lastSeq: nat)
    requires Inv(s, s0, lastSeq) && Set(s) && s.m.lastId == s.next
    ensures RaiseOk(s, s0, lastSeq)
  {
    RankShift(s, s0, lastSeq);
    hide LastsOrdered, AllMembersOk, Rank;
    forall k: nat | k < |s.v| && !Fresh(s, k)
      ensures s.v[k].last == s.m.aru && (k != s.next ==> s.v[k].setAru == -1)
    {
      assert SetFine(s, s0, k);
      if k != s.next {
        RankOther(s, k);
      }
    }
  }

  lemma RankOther(s: State, k: nat)
    requires s.next < |s.v| && k < |s.v|
    ensures k != s.next ==> R(s, k) > 0 == R(s, s.next)
  {
  }

  /** A leftover Set_aru. */
  lemma RaisedFresh(s: State, s0: State, lastSeq: nat)
    requires Inv(s, s0, lastSeq) && Start(s0, lastSeq) && Good(s0)
    requires Set(s) && s.m.lastId != s.next && Fresh(s, s.next) && s.m.aru == s.v[s.next].setAru
    ensures RaiseOk(s, s0, lastSeq)
  {
    MemberAt(s, s0, lastSeq, s.next);
    hide LastsOrdered, AllMembersOk;
    var l: nat := s.m.lastId;
    assert CanRest(s0, l, s.m.aru) && l < s.next;
    assert l == 0;
    forall k: nat | k < |s.v| && !Fresh(s, k)
      ensures s.v[k].last == s.m.aru && (k != 0 ==> s.v[k].setAru == -1)
    {
      assert SetFine(s, s0, k);
    }
    assert s.v[0].setAru == -1 || s.v[0].setAru == s.m.aru by { assert SetFine(s, s0, 0); }
  }

  /** One of a pair. */
  lemma RaisedPair(s: State, s0: State, lastSeq: nat)
    requires Inv(s, s0, lastSeq) && Set(s) && s.m.lastId != s.next && !Fresh(s, s.next)
    requires s.m.aru == s.v[s.next].setAru
    ensures RaiseOk(s, s0, lastSeq)
  {
    MemberAt(s, s0, lastSeq, s.next);
    var j, l: nat := s.next, s.m.lastId;
    assert SetFine(s, s0, j);
    RankOther(s, l);
    var q: nat :| PairedWith(s, s0, j, q);
    assert q == l;
    forall k: nat | k < |s.v| && !Fresh(s, k) && k != j && k != l
      ensures s.v[k].setAru == -1
    {
      MemberAt(s, s0, lastSeq, k);
      assert SetFine(s, s0, k);
      assert !CanRest(s0, k, s.m.aru);
    }
    MemberAt(s, s0, lastSeq, l);
    assert SetFine(s, s0, l);
  }

  lemma Raised(s: State, s0: State, lastSeq: nat)
    requires Inv(s, s0, lastSeq) && Start(s0, lastSeq) && Good(s0) && Raises(s)
    ensures RaiseOk(s, s0, lastSeq)
  {
    MemberAt(s, s0, lastSeq, s.next);
    if Set(s) {
      if s.m.lastId == s.next {
        RaisedByLast(s, s0, lastSeq);
      } else if Fresh(s, s.next) {
        RaisedFresh(s, s0, lastSeq);
      } else {
        RaisedPair(s, s0, lastSeq);
      }
    }
  }

  lemma VisitMember(s: State, s0: State, lastSeq: nat, k: nat)
    requires Inv(s, s0, lastSeq) && Start(s0, lastSeq) && Good(s0) && k < |s.v|
    ensures MemberOk(Step(s, Visit, lastSeq), s0, lastSeq, k)
  {
    MemberAt(s, s0, lastSeq, k);
    MyNowOk(s, s0, lastSeq);
    VisitIs(s, s0, lastSeq);
    RankShift(s, s0, lastSeq);
    hide Inv, Start, Good, Step, MyNow, Raises, Lowers, Rank;
  }

  lemma VisitLasts(s: State, s0: State, lastSeq: nat)
    requires Inv(s, s0, lastSeq) && Start(s0, lastSeq) && Good(s0)
    ensures LastsOrdered(Step(s, Visit, lastSeq))
  {
    var t := Step(s, Visit, lastSeq);
    VisitIs(s, s0, lastSeq);
    RankShift(s, s0, lastSeq);
    MyNowOk(s, s0, lastSeq);
    if Raises(s) {
      Raised(s, s0, lastSeq);
    }
    FreshLasts(s, s0, lastSeq);
    assert LastsOrdered(s) && (!Set(s) ==> s.m.aru == lastSeq);
    hide Inv, Start, Good, Step, MyNow, R, Fresh;
    forall u: nat, k: nat | u < |t.v| && k < |t.v| && R(t, u) < R(t, k)
      ensures t.v[u].last <= t.v[k].last || t.m.aru <= t.v[k].last
    {
      if u != s.next && k != s.next {
        assert R(s, u) < R(s, k);
      }
    }
  }

  lemma FreshLasts(s: State, s0: State, lastSeq: nat)
    requires Inv(s, s0, lastSeq)
    ensures forall k: nat | k < |s.v| && Fresh(s, k) :: s.v[k].last == 0
  {
    forall k: nat | k < |s.v| && Fresh(s, k)
      ensures s.v[k].last == 0
    {
      MemberAt(s, s0, lastSeq, k);
    }
  }

  /** The token's aru was set by the daemon visited. */
  lemma RaisedFine(s: State, s0: State, lastSeq: nat, k: nat)
    requires Inv(s, s0, lastSeq) && Start(s0, lastSeq) && Good(s0) && Raises(s)
    requires k < |s.v| && (k == s.next || !Fresh(s, k))
    ensures var t := Step(s, Visit, lastSeq); Set(t) && SetFine(t, s0, k)
  {
    var t := Step(s, Visit, lastSeq);
    VisitIs(s, s0, lastSeq);
    RankShift(s, s0, lastSeq);
    Raised(s, s0, lastSeq);
    MyNowOk(s, s0, lastSeq);
    assert |s0.v| == |s0.rests| == |s.v| && s.rests == s0.rests;
    hide Inv, Start, Good, Step, MyNow, Raises, Lowers, Rank;
    if k != s.next && s.v[k].setAru != -1 && s.v[k].setAru <= t.m.aru {
      assert k == s.m.lastId && Set(s);
      PairLeft(s, t, s0, lastSeq, k);
    }
  }

  /** The daemon whose aru was taken for its own Set_aru by the one visited is in the same case now. */
  lemma PairLeft(s: State, t: State, s0: State, lastSeq: nat, k: nat)
    requires |s.v| == |s0.v| == |s0.rests| == |t.v| && s.next < |s.v| && k < |s.v|
    requires RaiseOk(s, s0, lastSeq) && Set(s) && s.m.lastId == k != s.next && s.v[k].setAru == s.m.aru
    requires t.m.lastId == s.next && t.v == s.v[s.next := t.v[s.next]] && t.v[s.next].last == t.m.aru
    requires R(t, k) < R(t, s.next) && forall u: nat | u < |s.v| && u != s.next :: Fresh(t, u) == Fresh(s, u)
    ensures PairedWith(t, s0, k, s.next)
  {
  }

  lemma LoweredFine(s: State, s0: State, lastSeq: nat, k: nat)
    requires Inv(s, s0, lastSeq) && Start(s0, lastSeq) && Good(s0) && Lowers(s, lastSeq)
    requires k < |s.v| && (k == s.next || !Fresh(s, k))
    ensures var t := Step(s, Visit, lastSeq); Set(t) && SetFine(t, s0, k)
  {
    var t := Step(s, Visit, lastSeq);
    VisitIs(s, s0, lastSeq);
    RankShift(s, s0, lastSeq);
    MyNowOk(s, s0, lastSeq);
    if k != s.next && Set(s) {
      assert SetFine(s, s0, k);
    } else if k != s.next {
      assert s.v[k].setAru == -1;
    }
    hide Inv, Start, Good, Step, MyNow, Raises, Rank;
    if k != s.next && s.v[k].setAru != -1 && s.v[k].setAru <= t.m.aru {
      assert R(s, k) < R(s, s.m.lastId);
      var q: nat :| PairedWith(s, s0, k, q);
      RankOther(s, k);
      RankOther(s, q);
      assert !CanRest(s0, s.next, s.v[k].setAru);
      assert PairedWith(t, s0, k, q);
    }
  }

  lemma PassedFine(s: State, s0: State, lastSeq: nat, k: nat)
    requires Inv(s, s0, lastSeq) && Start(s0, lastSeq) && Good(s0) && !Raises(s) && !Lowers(s, lastSeq) && Set(s)
    requires k < |s.v| && (k == s.next || !Fresh(s, k))
    ensures var t := Step(s, Visit, lastSeq); Set(t) && SetFine(t, s0, k)
  {
    var t := Step(s, Visit, lastSeq);
    VisitIs(s, s0, lastSeq);
    RankShift(s, s0, lastSeq);
    if k != s.next {
      assert SetFine(s, s0, k);
    }
    assert s.m.lastId != s.next;
    hide Inv, Start, Good, Step, MyNow, Lowers, Rank;
    if k != s.next {
      if q: nat :| PairedWith(s, s0, k, q) {
        RankOther(s, k);
        RankOther(s, q);
        assert PairedWith(t, s0, k, q);
      }
    }
  }

  lemma VisitFine(s: State, s0: State, lastSeq: nat, k: nat)
    requires Inv(s, s0, lastSeq) && Start(s0, lastSeq) && Good(s0) && k < |s.v|
    requires Set(Step(s, Visit, lastSeq)) && !Fresh(Step(s, Visit, lastSeq), k)
    ensures SetFine(Step(s, Visit, lastSeq), s0, k)
  {
    RankShift(s, s0, lastSeq);
    if Raises(s) {
      RaisedFine(s, s0, lastSeq, k);
    } else if Lowers(s, lastSeq) {
      LoweredFine(s, s0, lastSeq, k);
    } else {
      VisitIs(s, s0, lastSeq);
      hide Inv, Start, Good, Step, MyNow, Lowers, Rank, SetFine;
      PassedFine(s, s0, lastSeq, k);
    }
  }

  /** Those visited before the aru was set let the token go with less. */
  lemma VisitLess(s: State, s0: State, lastSeq: nat)
    requires Inv(s, s0, lastSeq) && Start(s0, lastSeq) && Good(s0)
    requires var t := Step(s, Visit, lastSeq); !t.done && Set(t) && t.lowered && t.m.aru == lastSeq
    ensures LessBefore(Step(s, Visit, lastSeq), lastSeq)
  {
    var t := Step(s, Visit, lastSeq);
    VisitIs(s, s0, lastSeq);
    RankShift(s, s0, lastSeq);
    FreshLasts(s, s0, lastSeq);
    if Raises(s) {
      Raised(s, s0, lastSeq);
    }
    assert Set(s) && (s.m.aru == lastSeq ==> LessBefore(s, lastSeq));
    assert s.m.aru <= lastSeq && lastSeq > 0;
    hide Inv, Start, Good, Step, MyNow, Rank, Fresh;
    forall k: nat | k < |t.v| && R(t, k) < R(t, t.m.lastId)
      ensures t.v[k].last < lastSeq
    {
      assert k != s.next;
      if !Raises(s) {
        assert R(s, k) < R(s, s.m.lastId);
      }
    }
  }

  lemma VisitMark(s: State, s0: State, lastSeq: nat)
    requires Inv(s, s0, lastSeq) && Start(s0, lastSeq) && Good(s0) && !Step(s, Visit, lastSeq).done
    ensures MarkOk(Step(s, Visit, lastSeq), s0, lastSeq)
  {
    var t := Step(s, Visit, lastSeq);
    VisitIs(s, s0, lastSeq);
    RankShift(s, s0, lastSeq);
    MyNowOk(s, s0, lastSeq);
    assert |s0.v| == |s0.rests| == |s.v| && s.rests == s0.rests && MarkOk(s, s0, lastSeq);
    if Set(t) {
      forall k: nat | k < |t.v| && !Fresh(t, k)
        ensures SetFine(t, s0, k)
      {
        VisitFine(s, s0, lastSeq, k);
      }
      if t.lowered && t.m.aru == lastSeq {
        VisitLess(s, s0, lastSeq);
      }
    }
    hide Inv, Start, Good, Step, MyNow, Rank, SetFine;
  }

  /** While nobody has taken the token's aru down. */
  lemma VisitHigh(s: State, s0: State, lastSeq: nat)
    requires Inv(s, s0, lastSeq) && Start(s0, lastSeq) && Good(s0)
    requires var t := Step(s, Visit, lastSeq); !t.done && !t.lowered
    ensures var t := Step(s, Visit, lastSeq);
            t.m.lastId == s0.m.lastId && t.m.aru == lastSeq && AllLast(t, lastSeq) && t.visits <= |t.v|
  {
    var t := Step(s, Visit, lastSeq);
    VisitIs(s, s0, lastSeq);
    RankShift(s, s0, lastSeq);
    MyNowOk(s, s0, lastSeq);
    MemberAt(s, s0, lastSeq, s.next);
    hide Start, Good, Step, MyNow, Rank, MarkOk, AllMembersOk, LastsOrdered;
    assert Fresh(s, s.next);
  }

  lemma VisitKeeps(s: State, s0: State, lastSeq: nat)
    requires Inv(s, s0, lastSeq) && Start(s0, lastSeq) && Good(s0) && !Step(s, Visit, lastSeq).done
    ensures Inv(Step(s, Visit, lastSeq), s0, lastSeq)
  {
    var t := Step(s, Visit, lastSeq);
    VisitIs(s, s0, lastSeq);
    MyNowOk(s, s0, lastSeq);
    forall k: nat | k < |t.v|
      ensures MemberOk(t, s0, lastSeq, k)
    {
      VisitMember(s, s0, lastSeq, k);
    }
    VisitLasts(s, s0, lastSeq);
    VisitMark(s, s0, lastSeq);
    if !t.lowered {
      VisitHigh(s, s0, lastSeq);
    }
    hide Start, Good, Step, MyNow, Raises, Lowers, MarkOk, MemberOk, LastsOrdered;
  }

  /** Everybody has committed and let the token go with the form token's number, and the token has it. */
  ghost predicate Complete(s: State, lastSeq: nat) {
    && s.m.aru == lastSeq && s.m.seqNo == 0
    && forall k: nat | k < |s.v| ::
         s.v[k].my == s.v[k].last == lastSeq && s.v[k].hi < lastSeq && -1 <= s.v[k].setAru < lastSeq
  }

  lemma LastAbove(s: State, s0: State, lastSeq: nat, k: nat)
    requires Inv(s, s0, lastSeq) && k < |s.v|
    ensures k != s.next ==> s.v[s.next].last <= s.v[k].last || s.m.aru <= s.v[k].last
  {
    RankOther(s, k);
    hide MarkOk, AllMembersOk;
  }

  lemma LoweredSetter(s: State, s0: State, lastSeq: nat)
    requires Inv(s, s0, lastSeq) && s.lowered && s.m.aru == lastSeq
    ensures s.m.lastId != s.next ==> s.v[s.next].last < lastSeq
  {
    RankOther(s, s.m.lastId);
    hide AllMembersOk, AllSetFine, LastsOrdered;
  }

  /** The barrier, and who set the token's aru last. */
  lemma VisitDone(s: State, s0: State, lastSeq: nat)
    requires Inv(s, s0, lastSeq) && Start(s0, lastSeq) && Good(s0) && Step(s, Visit, lastSeq).done
    ensures var t := Step(s, Visit, lastSeq);
            && Complete(t, lastSeq)
            && (if t.lowered then t.m.lastId == s.next else s.next == 0 && t.m.lastId == s0.m.lastId)
  {
    var t := Step(s, Visit, lastSeq);
    VisitIs(s, s0, lastSeq);
    RankShift(s, s0, lastSeq);
    MyNowOk(s, s0, lastSeq);
    if Raises(s) {
      Raised(s, s0, lastSeq);
    }
    MemberAt(s, s0, lastSeq, s.next);
    assert !Fresh(s, s.next);
    forall k: nat | k < |s.v|
      ensures t.v[k].my == t.v[k].last == lastSeq && t.v[k].hi < lastSeq && -1 <= t.v[k].setAru < lastSeq
    {
      MemberAt(s, s0, lastSeq, k);
      VisitMember(s, s0, lastSeq, k);
      LastAbove(s, s0, lastSeq, k);
    }
    if s.lowered && s.m.aru == lastSeq {
      LoweredSetter(s, s0, lastSeq);
    }
  }

  // Runs.

  /** After a run from a good start: the invariant, or somebody goes over and everybody has committed. */
  ghost predicate RunOk(s: State, s0: State, lastSeq: nat) {
    if !s.done then Inv(s, s0, lastSeq)
    else
      && Complete(s, lastSeq) && |s.v| == |s0.v| && s.next < |s.v|
      && (if s.lowered then 0 <= s.m.lastId < |s.v| && s.next == Next(s.m.lastId, |s.v|)
          else s.next == Next(0, |s.v|) && s.m.lastId == s0.m.lastId)
  }

  lemma {:induction false} RunKeeps(s: State, s0: State, run: seq<Action>, lastSeq: nat)
    requires RunOk(s, s0, lastSeq) && Start(s0, lastSeq) && Good(s0)
    ensures s.next < |s.v| && RunOk(Exec(s, run, lastSeq), s0, lastSeq)
    decreases |run|
  {
    assert s.next < |s.v|;
    if run != [] {
      if !s.done {
        match run[0]
        case Grow(j, my) => GrowKeeps(s, s0, lastSeq, j, my);
        case Visit =>
          if Step(s, Visit, lastSeq).done {
            VisitIs(s, s0, lastSeq);
            VisitDone(s, s0, lastSeq);
          } else {
            VisitKeeps(s, s0, lastSeq);
          }
      }
      hide Inv, Start, Good, Complete;
      RunKeeps(Step(s, run[0], lastSeq), s0, run[1..], lastSeq);
    }
  }

  /** A daemon alone goes over only once it has committed. */
  ghost predicate AloneOk(s: State, lastSeq: nat) {
    |s.v| == 1 && s.next == 0 && s.v[0].my <= lastSeq && (s.done ==> s.v[0].my == lastSeq) && s.v[0].hi < lastSeq
  }

  lemma {:induction false} AloneKeeps(s: State, run: seq<Action>, lastSeq: nat)
    requires AloneOk(s, lastSeq)
    requires s.v[0].my <= s.v[0].hi || s.v[0].my == lastSeq
    requires |s.rests| == 1 && forall a | a in s.rests[0] :: a < s.v[0].hi
    ensures AloneOk(Exec(s, run, lastSeq), lastSeq)
    decreases |run|
  {
    if run != [] {
      AloneKeeps(Step(s, run[0], lastSeq), run[1..], lastSeq);
    }
  }

  /** From a good start nobody goes over before everybody has committed, whatever arrives when. */
  lemma GoodIsSafe(s: State, run: seq<Action>, lastSeq: nat)
    requires Start(s, lastSeq) && Good(s) && lastSeq > 0
    ensures Safe(Exec(s, run, lastSeq), lastSeq)
  {
    if |s.v| == 1 {
      AloneKeeps(s, run, lastSeq);
    } else {
      StartInv(s, lastSeq);
      RunKeeps(s, s, run, lastSeq);
      hide Start, Good, Inv;
    }
  }

  /** Once one daemon has gone over, every other one does at its next visit, and the token's mark stays. */
  lemma AllGoOver(s: State, k: nat, lastSeq: nat)
    requires Complete(s, lastSeq) && k < |s.v| && lastSeq > 0
    ensures var (w, m) := Pass(s.v[k], s.m, k, lastSeq); w.aru == lastSeq && m == s.m
  {
  }

  /** The next ring then starts with the token at the daemon that went over first, and its aru rule starts well
      exactly when there are at most two daemons, or some daemon missed a packet when the token came to it, or the
      form token's creator left the first daemon's id on the token. */
  lemma NextRingStarts(s: State, run: seq<Action>, lastSeq: nat, r: Ring.State)
    requires Start(s, lastSeq) && Good(s) && |s.v| >= 2 && lastSeq > 0 && Exec(s, run, lastSeq).done
    requires RingSafety.Start(r) && |r.ds| == |s.v| && Next(r.next, |s.v|) == Exec(s, run, lastSeq).next
    requires r.t.aru == lastSeq && r.t.lastId == Exec(s, run, lastSeq).m.lastId
    ensures RingSafety.GoodStart(r) <==> |s.v| == 2 || Exec(s, run, lastSeq).lowered || s.m.lastId == 0
  {
    StartInv(s, lastSeq);
    RunKeeps(s, s, run, lastSeq);
    hide Start, Good, Complete, Inv, Exec;
    assert r.next < |s.v|;
  }
}
