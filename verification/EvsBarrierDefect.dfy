/** The starts of EVS from which a daemon can go over to the next ring before the others have what they miss: one of
    them rests at 0, which is the token's seq in EVS; or rests where another one's Set_aru was left. */
module EvsBarrierDefect {
  import opened AruRule
  import opened EvsBarrier

  /** The daemons of stuck rest at a, the others have everything; the token's aru is one or the other's. */
  ghost predicate Phase(s: State, a: nat, stuck: set<nat>, lastSeq: nat) {
    && s.next < |s.v| == |s.rests| && s.m.seqNo == 0 && a < lastSeq && (s.m.aru == a || s.m.aru == lastSeq)
    && forall k: nat | k < |s.v| ::
         && s.v[k].hi < lastSeq && s.v[k].setAru < lastSeq
         && if k in stuck then s.v[k].my == a < s.v[k].hi else s.v[k].my == s.v[k].hi || s.v[k].my == lastSeq
  }

  /** The others are as they were. */
  ghost predicate Apart(s: State, t: State, lo: nat, hi: nat) {
    |t.v| == |s.v| && forall k: nat | k < |s.v| && !(lo <= k < hi) :: t.v[k] == s.v[k]
  }

  lemma ReadyVisit(s: State, a: nat, stuck: set<nat>, lastSeq: nat)
    requires Phase(s, a, stuck, lastSeq) && !s.done && s.next !in stuck
    ensures var t := Step(s, Visit, lastSeq);
            && Phase(t, a, stuck, lastSeq) && t.next == Next(s.next, |s.v|) && Apart(s, t, s.next, s.next + 1)
            && t.v[s.next].last == t.m.aru
            && (s.m.aru == lastSeq || s.m.aru == s.v[s.next].setAru || a == 0 ==> t.m.aru == lastSeq)
            && (t.done <==> Min(s.v[s.next].last, t.m.aru) == lastSeq)
  {
  }

  lemma StuckVisit(s: State, a: nat, stuck: set<nat>, lastSeq: nat)
    requires Phase(s, a, stuck, lastSeq) && !s.done && s.next in stuck
    ensures var t := Step(s, Visit, lastSeq);
            && Phase(t, a, stuck, lastSeq) && t.next == Next(s.next, |s.v|) && Apart(s, t, s.next, s.next + 1)
            && t.m.aru == a && t.v[s.next].last == a && (s.m.aru == lastSeq ==> t.v[s.next].setAru == a) && !t.done
  {
  }

  lemma {:induction false} ExecDone(s: State, run: seq<Action>, lastSeq: nat)
    requires s.next < |s.v| && s.done
    ensures Exec(s, run, lastSeq) == s
    decreases |run|
  {
    if run != [] {
      ExecDone(s, run[1..], lastSeq);
    }
  }

  lemma {:induction false} ExecThen(s: State, run: seq<Action>, more: seq<Action>, lastSeq: nat)
    requires s.next < |s.v|
    ensures Exec(s, run + more, lastSeq) == Exec(Exec(s, run, lastSeq), more, lastSeq)
    decreases |run|
  {
    if run == [] {
      assert run + more == more;
    } else {
      assert (run + more)[1..] == run[1..] + more;
      ExecThen(Step(s, run[0], lastSeq), run[1..], more, lastSeq);
    }
  }

  lemma ExecOne(s: State, a: Action, lastSeq: nat)
    requires s.next < |s.v|
    ensures Exec(s, [a], lastSeq) == Step(s, a, lastSeq)
  {
    assert [a][1..] == [];
  }

  /** The position after q - 1. */
  function Wrap(q: nat, n: nat): nat {
    if q == n then 0 else q
  }

  /** The token passes daemons that have everything, up to q - 1: once its aru is the form token's number it stays. */
  lemma {:induction false} Along(s: State, a: nat, stuck: set<nat>, lastSeq: nat, q: nat) returns (run: seq<Action>)
    requires Phase(s, a, stuck, lastSeq) && !s.done && s.next <= q <= |s.v|
    requires s.next == q ==> q < |s.v|
    requires forall k | s.next <= k < q :: k !in stuck
    ensures var t := Exec(s, run, lastSeq);
            && Phase(t, a, stuck, lastSeq)
            && (!t.done ==>
                  && t.next == Wrap(q, |s.v|) && Apart(s, t, s.next, q)
                  && (s.m.aru == lastSeq || (a == 0 && s.next < q) ==>
                        t.m.aru == lastSeq && forall k: nat | s.next <= k < q :: t.v[k].last == lastSeq))
    decreases q - s.next
  {
    if s.next == q {
      run := [];
    } else {
      ReadyVisit(s, a, stuck, lastSeq);
      var t := Step(s, Visit, lastSeq);
      if t.done || s.next + 1 == q {
        run := [Visit];
        ExecOne(s, Visit, lastSeq);
      } else {
        hide Phase, Step;
        var rest := Along(t, a, stuck, lastSeq, q);
        run := [Visit] + rest;
        ExecOne(s, Visit, lastSeq);
        ExecThen(s, [Visit], rest, lastSeq);
      }
    }
  }

  /** Some daemon goes over while another one has not committed. */
  ghost predicate TooEarly(s: State, lastSeq: nat) {
    s.done && exists k: nat :: k < |s.v| && s.v[k].my != lastSeq
  }

  lemma StuckEarly(s: State, a: nat, stuck: set<nat>, lastSeq: nat, x: nat)
    requires Phase(s, a, stuck, lastSeq) && s.done && x in stuck && x < |s.v|
    ensures TooEarly(s, lastSeq)
  {
    assert s.v[x].my != lastSeq;
  }

  /** A run that goes on after another one, unless somebody went over in that. */
  lemma GoOn(s: State, r1: seq<Action>, r2: seq<Action>, lastSeq: nat)
    requires s.next < |s.v|
    ensures Exec(s, r1 + r2, lastSeq) == Exec(Exec(s, r1, lastSeq), r2, lastSeq)
    ensures Exec(s, r1, lastSeq).done ==> Exec(s, r1 + r2, lastSeq) == Exec(s, r1, lastSeq)
  {
    ExecThen(s, r1, r2, lastSeq);
    if Exec(s, r1, lastSeq).done {
      ExecDone(Exec(s, r1, lastSeq), r2, lastSeq);
    }
  }

  /** Daemon w, which let the token go with the form token's number, gets it with that number again. */
  lemma HighTo(s: State, a: nat, stuck: set<nat>, lastSeq: nat, w: nat) returns (run: seq<Action>)
    requires Phase(s, a, stuck, lastSeq) && !s.done && s.next <= w < |s.v| && (s.m.aru == lastSeq || a == 0)
    requires s.v[w].last == lastSeq && forall k | s.next <= k <= w :: k !in stuck
    ensures var t := Exec(s, run, lastSeq); Phase(t, a, stuck, lastSeq) && t.done && |t.v| == |s.v|
  {
    var r := Along(s, a, stuck, lastSeq, w);
    var t := Exec(s, r, lastSeq);
    hide Step;
    run := r + [Visit];
    GoOn(s, r, [Visit], lastSeq);
    if !t.done {
      ReadyVisit(t, a, stuck, lastSeq);
      ExecOne(t, Visit, lastSeq);
    }
  }

  /** From wherever the token is. */
  lemma HighFrom(s: State, a: nat, stuck: set<nat>, lastSeq: nat, w: nat) returns (run: seq<Action>)
    requires Phase(s, a, stuck, lastSeq) && !s.done && w < |s.v| && (s.m.aru == lastSeq || a == 0)
    requires s.v[w].last == lastSeq
    requires forall k | s.next <= k < |s.v| && s.next > w :: k !in stuck
    requires forall k | 0 <= k <= w && (s.next > w || s.next <= k) :: k !in stuck
    ensures var t := Exec(s, run, lastSeq); Phase(t, a, stuck, lastSeq) && t.done && |t.v| == |s.v|
  {
    if s.next <= w {
      run := HighTo(s, a, stuck, lastSeq, w);
    } else {
      var r := Along(s, a, stuck, lastSeq, |s.v|);
      var t := Exec(s, r, lastSeq);
      hide Step;
      if t.done {
        run := r;
      } else {
        var more := HighTo(t, a, stuck, lastSeq, w);
        run := r + more;
        GoOn(s, r, more, lastSeq);
      }
    }
  }

  /** One daemon rests at 0: the first one visited after it sets the aru each time. */
  lemma ZeroRun(s: State, lastSeq: nat, x: nat) returns (run: seq<Action>)
    requires Phase(s, 0, {x}, lastSeq) && !s.done && s.next == 0 && s.m.aru == lastSeq && x < |s.v| && |s.v| >= 2
    ensures TooEarly(Exec(s, run, lastSeq), lastSeq)
  {
    var w := if x == 0 then 1 else 0;
    var r1, t1 := [], s;
    if x > 0 {
      r1 := Along(s, 0, {x}, lastSeq, x);
      t1 := Exec(s, r1, lastSeq);
    }
    hide Step;
    if t1.done {
      run := r1;
      StuckEarly(t1, 0, {x}, lastSeq, x);
      return;
    }
    StuckVisit(t1, 0, {x}, lastSeq);
    ExecOne(t1, Visit, lastSeq);
    var t2 := Step(t1, Visit, lastSeq);
    var r3;
    if x > 0 {
      r3 := HighFrom(t2, 0, {x}, lastSeq, 0);
    } else {
      r3 := ZeroFirst(t2, lastSeq);
    }
    run := r1 + ([Visit] + r3);
    GoOn(s, r1, [Visit] + r3, lastSeq);
    GoOn(t1, [Visit], r3, lastSeq);
    StuckEarly(Exec(t2, r3, lastSeq), 0, {x}, lastSeq, x);
  }

  lemma ZeroFirst(s: State, lastSeq: nat) returns (run: seq<Action>)
    requires Phase(s, 0, {0}, lastSeq) && !s.done && s.next == 1 < |s.v|
    ensures var t := Exec(s, run, lastSeq); Phase(t, 0, {0}, lastSeq) && t.done && |t.v| == |s.v|
  {
    var r := Along(s, 0, {0}, lastSeq, |s.v|);
    var t := Exec(s, r, lastSeq);
    hide Step;
    if t.done {
      run := r;
    } else {
      StuckVisit(t, 0, {0}, lastSeq);
      ExecOne(t, Visit, lastSeq);
      var more := HighTo(Step(t, Visit, lastSeq), 0, {0}, lastSeq, 1);
      run := r + ([Visit] + more);
      GoOn(s, r, [Visit] + more, lastSeq);
      GoOn(t, [Visit], more, lastSeq);
    }
  }

  /** Daemon x rests where a later one's Set_aru was left, which takes the aru for its own and raises it. */
  lemma LeftoverRun(s: State, a: nat, lastSeq: nat, x: nat, j: nat) returns (run: seq<Action>)
    requires Phase(s, a, {x}, lastSeq) && !s.done && s.next == 0 && s.m.aru == lastSeq
    requires 1 <= x < j < |s.v| && s.v[j].setAru == a
    ensures TooEarly(Exec(s, run, lastSeq), lastSeq)
  {
    var r1 := Along(s, a, {x}, lastSeq, x);
    var t1 := Exec(s, r1, lastSeq);
    hide Step;
    if t1.done {
      run := r1;
      StuckEarly(t1, a, {x}, lastSeq, x);
      return;
    }
    StuckVisit(t1, a, {x}, lastSeq);
    ExecOne(t1, Visit, lastSeq);
    var t2 := Step(t1, Visit, lastSeq);
    var r3 := LeftoverRaise(t2, a, {x}, lastSeq, j, 0);
    run := r1 + ([Visit] + r3);
    GoOn(s, r1, [Visit] + r3, lastSeq);
    GoOn(t1, [Visit], r3, lastSeq);
    StuckEarly(Exec(t2, r3, lastSeq), a, {x}, lastSeq, x);
  }

  lemma LeftoverRaise(s: State, a: nat, stuck: set<nat>, lastSeq: nat, j: nat, w: nat) returns (run: seq<Action>)
    requires Phase(s, a, stuck, lastSeq) && !s.done && w < s.next <= j < |s.v| && s.v[j].setAru == a
    requires s.v[w].last == lastSeq && forall k | s.next <= k < |s.v| || 0 <= k <= w :: k !in stuck
    ensures var t := Exec(s, run, lastSeq); Phase(t, a, stuck, lastSeq) && t.done && |t.v| == |s.v|
  {
    var r := Along(s, a, stuck, lastSeq, j);
    var t := Exec(s, r, lastSeq);
    hide Step;
    if t.done {
      run := r;
    } else {
      ReadyVisit(t, a, stuck, lastSeq);
      ExecOne(t, Visit, lastSeq);
      var u := Step(t, Visit, lastSeq);
      run := r + [Visit];
      GoOn(s, r, [Visit], lastSeq);
      if !u.done {
        var more := HighFrom(u, a, stuck, lastSeq, w);
        run := r + ([Visit] + more);
        GoOn(s, r, [Visit] + more, lastSeq);
        GoOn(t, [Visit], more, lastSeq);
      }
    }
  }

  /** The token passes the daemons left before the first one. */
  lemma ToFirst(s: State, a: nat, stuck: set<nat>, lastSeq: nat) returns (run: seq<Action>)
    requires Phase(s, a, stuck, lastSeq) && !s.done && forall k | 0 < s.next <= k < |s.v| :: k !in stuck
    ensures var t := Exec(s, run, lastSeq);
            && Phase(t, a, stuck, lastSeq)
            && (!t.done ==>
                  && t.next == 0 && |t.v| == |s.v|
                  && forall k: nat | k < s.next || s.next == 0 :: k < |s.v| ==> t.v[k] == s.v[k])
  {
    if s.next == 0 {
      run := [];
    } else {
      run := Along(s, a, stuck, lastSeq, |s.v|);
    }
  }

  /** Daemon 0 gets what it missed. */
  lemma Freed(s: State, a: nat, stuck: set<nat>, lastSeq: nat)
    requires Phase(s, a, stuck, lastSeq) && !s.done && 0 in stuck
    ensures var t := Step(s, Grow(0, s.v[0].hi), lastSeq);
            t == s.(v := s.v[0 := s.v[0].(my := s.v[0].hi)]) && Phase(t, a, stuck - {0}, lastSeq)
  {
  }

  /** Daemon 0 and a later one rest where the Set_aru of one between them was left: that one raises the aru after
      daemon 0 took it down, and daemon 0, once it has what it missed, after the later one did. */
  lemma PairRun(s: State, a: nat, lastSeq: nat, j: nat, k: nat) returns (run: seq<Action>)
    requires Phase(s, a, {0, k}, lastSeq) && !s.done && s.next == 0 && s.m.aru == lastSeq
    requires 1 <= j < k < |s.v| && s.v[j].setAru == a
    ensures TooEarly(Exec(s, run, lastSeq), lastSeq)
  {
    StuckVisit(s, a, {0, k}, lastSeq);
    ExecOne(s, Visit, lastSeq);
    var t1 := Step(s, Visit, lastSeq);
    hide Step;
    var r2 := PairDown(t1, a, lastSeq, j, k);
    var t2 := Exec(t1, r2, lastSeq);
    run := [Visit] + r2;
    GoOn(s, [Visit], r2, lastSeq);
    if t2.done {
      StuckEarly(t2, a, {0, k}, lastSeq, k);
    } else {
      var r3 := PairUp(t2, a, lastSeq, j, k);
      run := [Visit] + (r2 + r3);
      GoOn(s, [Visit], r2 + r3, lastSeq);
      GoOn(t1, r2, r3, lastSeq);
      StuckEarly(Exec(t2, r3, lastSeq), a, {k}, lastSeq, k);
    }
  }

  lemma PairDown(s: State, a: nat, lastSeq: nat, j: nat, k: nat) returns (run: seq<Action>)
    requires Phase(s, a, {0, k}, lastSeq) && !s.done && s.next == 1 <= j < k < |s.v|
    requires s.v[j].setAru == a == s.v[0].setAru
    ensures var t := Exec(s, run, lastSeq);
            && Phase(t, a, {0, k}, lastSeq) && |t.v| == |s.v|
            && (!t.done ==> t.next == 0 && t.v[0] == s.v[0] && t.v[j].last == lastSeq)
  {
    var r1 := Along(s, a, {0, k}, lastSeq, j);
    var t1 := Exec(s, r1, lastSeq);
    hide Step;
    run := r1;
    if !t1.done {
      ReadyVisit(t1, a, {0, k}, lastSeq);
      ExecOne(t1, Visit, lastSeq);
      var t2 := Step(t1, Visit, lastSeq);
      var r2 := [Visit];
      if !t2.done {
        var r3 := PairRest(t2, a, lastSeq, j, k);
        r2 := [Visit] + r3;
        GoOn(t1, [Visit], r3, lastSeq);
      }
      run := r1 + r2;
      GoOn(s, r1, r2, lastSeq);
    }
  }

  lemma PairRest(s: State, a: nat, lastSeq: nat, j: nat, k: nat) returns (run: seq<Action>)
    requires Phase(s, a, {0, k}, lastSeq) && !s.done && 1 <= j < s.next <= k < |s.v|
    ensures var t := Exec(s, run, lastSeq);
            && Phase(t, a, {0, k}, lastSeq) && |t.v| == |s.v|
            && (!t.done ==> t.next == 0 && t.v[0] == s.v[0] && t.v[j] == s.v[j])
  {
    var r1 := Along(s, a, {0, k}, lastSeq, k);
    var t1 := Exec(s, r1, lastSeq);
    hide Step;
    run := r1;
    if !t1.done {
      StuckVisit(t1, a, {0, k}, lastSeq);
      ExecOne(t1, Visit, lastSeq);
      var r2 := ToFirst(Step(t1, Visit, lastSeq), a, {0, k}, lastSeq);
      run := r1 + ([Visit] + r2);
      GoOn(s, r1, [Visit] + r2, lastSeq);
      GoOn(t1, [Visit], r2, lastSeq);
    }
  }

  lemma PairUp(s: State, a: nat, lastSeq: nat, j: nat, k: nat) returns (run: seq<Action>)
    requires Phase(s, a, {0, k}, lastSeq) && !s.done && s.next == 0 < j < k < |s.v|
    requires s.v[0].setAru == a && s.v[j].last == lastSeq
    ensures var t := Exec(s, run, lastSeq); Phase(t, a, {k}, lastSeq) && t.done && |t.v| == |s.v|
  {
    var g := Grow(0, s.v[0].hi);
    Freed(s, a, {0, k}, lastSeq);
    assert {0, k} - {0} == {k};
    ExecOne(s, g, lastSeq);
    var t := Step(s, g, lastSeq);
    ReadyVisit(t, a, {k}, lastSeq);
    ExecOne(t, Visit, lastSeq);
    var u := Step(t, Visit, lastSeq);
    hide Step;
    run := [g] + [Visit];
    GoOn(s, [g], [Visit], lastSeq);
    if !u.done {
      var more := HighFrom(u, a, {k}, lastSeq, j);
      run := [g] + ([Visit] + more);
      GoOn(s, [g], [Visit] + more, lastSeq);
      GoOn(t, [Visit], more, lastSeq);
    }
  }

  /** Packets arrive so that those of stuck rest at a and the others have everything. */
  lemma {:induction false} Spread(s: State, a: nat, stuck: set<nat>, lastSeq: nat, i: nat) returns (run: seq<Action>)
    requires s.next < |s.v| == |s.rests| && i <= |s.v| && !s.done
    requires forall k: nat | i <= k < |s.v| :: s.v[k].my <= s.v[k].hi && (k in stuck ==> CanRest(s, k, a))
    ensures var t := Exec(s, run, lastSeq);
            && t == s.(v := t.v) && |t.v| == |s.v|
            && forall k: nat | k < |s.v| ::
                 t.v[k] == if k < i then s.v[k] else s.v[k].(my := if k in stuck then a else s.v[k].hi)
    decreases |s.v| - i
  {
    if i == |s.v| {
      run := [];
    } else {
      var g := Grow(i, if i in stuck then a else s.v[i].hi);
      var t := Step(s, g, lastSeq);
      var rest := Spread(t, a, stuck, lastSeq, i + 1);
      run := [g] + rest;
      ExecOne(s, g, lastSeq);
      ExecThen(s, [g], rest, lastSeq);
    }
  }

  lemma SpreadPhase(s: State, a: nat, stuck: set<nat>, lastSeq: nat) returns (run: seq<Action>)
    requires Start(s, lastSeq) && forall k: nat | k < |s.v| && k in stuck :: CanRest(s, k, a)
    requires exists k: nat :: k < |s.v| && k in stuck
    ensures var t := Exec(s, run, lastSeq);
            && Phase(t, a, stuck, lastSeq) && !t.done && t.next == 0 && t.m.aru == lastSeq && |t.v| == |s.v|
            && forall k: nat | k < |s.v| :: t.v[k].setAru == s.v[k].setAru
  {
    run := Spread(s, a, stuck, lastSeq, 0);
  }

  /** From every start that is not good some daemon can go over while another one has not committed. */
  lemma BadRun(s: State, lastSeq: nat) returns (run: seq<Action>)
    requires Start(s, lastSeq) && !Good(s)
    ensures TooEarly(Exec(s, run, lastSeq), lastSeq)
  {
    hide Phase, Step;
    if x: nat :| x < |s.v| && CanRest(s, x, 0) {
      var r := SpreadPhase(s, 0, {x}, lastSeq);
      var more := ZeroRun(Exec(s, r, lastSeq), lastSeq, x);
      run := r + more;
      GoOn(s, r, more, lastSeq);
    } else if x: nat, j: nat :| 1 <= x < j < |s.v| && CanRest(s, x, s.v[j].setAru) {
      var a: nat := s.v[j].setAru;
      var r := SpreadPhase(s, a, {x}, lastSeq);
      var more := LeftoverRun(Exec(s, r, lastSeq), a, lastSeq, x, j);
      run := r + more;
      GoOn(s, r, more, lastSeq);
    } else {
      var j: nat, k: nat :| 1 <= j < k < |s.v| && CanRest(s, 0, s.v[j].setAru) && CanRest(s, k, s.v[j].setAru);
      var a: nat := s.v[j].setAru;
      var r := SpreadPhase(s, a, {0, k}, lastSeq);
      var more := PairRun(Exec(s, r, lastSeq), a, lastSeq, j, k);
      run := r + more;
      GoOn(s, r, more, lastSeq);
    }
  }

  /** The barrier holds over all runs exactly from good starts. */
  lemma BarrierIffGood(s: State, lastSeq: nat)
    requires Start(s, lastSeq) && lastSeq > 0
    ensures Good(s) <==> forall run :: Safe(Exec(s, run, lastSeq), lastSeq)
  {
    hide Good, Step;
    if Good(s) {
      forall run
        ensures Safe(Exec(s, run, lastSeq), lastSeq)
      {
        GoodIsSafe(s, run, lastSeq);
      }
    } else {
      var run := BadRun(s, lastSeq);
      assert !Safe(Exec(s, run, lastSeq), lastSeq);
    }
  }
}
