/** When the aru rule does not start well: with three daemons or more, and a token whose aru of the
    recovery phase was set by nobody, a run makes one daemon's Aru exceed what another has received. */
module RingDefect {
  import opened Packets
  import opened Daemon
  import opened DaemonInv
  import opened Ring
  import opened RingInv
  import opened RingSafety
  import AruRule
  import Burst

  const PLAIN := TokenVisit(Choice(0, 0, false))

  lemma {:induction false} ExecConcat(r: Ring.State, a: seq<Action>, b: seq<Action>)
    requires Shape(r)
    ensures Exec(r, a + b) == Exec(Exec(r, a), b)
    decreases |a|
  {
    if a == [] {
      assert a + b == b;
    } else {
      assert (a + b)[0] == a[0] && (a + b)[1..] == a[1..] + b;
      ExecConcat(Step(r, a[0]), a[1..], b);
    }
  }

  /** Packets first .. last arrive at daemon j, in order. */
  function Arrivals(j: nat, first: nat, last: nat): seq<Action>
    decreases last + 1 - first
  {
    if first > last then [] else [Arrive(j, first)] + Arrivals(j, first + 1, last)
  }

  lemma {:induction false} ArrivalsKeep(r: Ring.State, j: nat, first: nat, last: nat)
    requires Rest(r) && j < |r.ds|
    requires 1 <= first <= last + 1 && last <= |r.sent| && first - 1 <= r.ds[j].my
    ensures var r' := Exec(r, Arrivals(j, first, last));
            && Rest(r') && r'.t == r.t && r'.sent == r.sent && r'.next == r.next && |r'.ds| == |r.ds|
            && var d, d' := r.ds[j], r'.ds[j];
            && Views(r'.ds) == Views(r.ds)[j := ViewOf(d).(my := d'.my, hi := d'.hi)]
            && d.my <= d'.my <= d'.hi <= Max(d.hi, last) && last <= d'.my
    decreases last + 1 - first
  {
    hide Rest;
    if first > last {
      assert Views(r.ds) == Views(r.ds)[j := ViewOf(r.ds[j])];
      RestBounds(r, j);
    } else {
      ArriveKeepsRest(r, j, first);
      RestBounds(r, j);
      var m := Step(r, Arrive(j, first));
      assert Views(m.ds)[j] == ViewOf(m.ds[j]);
      ArrivalsKeep(m, j, first + 1, last);
    }
  }

  lemma RestBounds(r: Ring.State, j: nat)
    requires Rest(r) && j < |r.ds|
    ensures r.ds[j].aru <= r.ds[j].my <= r.ds[j].hi <= |r.sent| && r.t.seqNo == |r.sent| && !r.ds[j].exited
  {
    assert DaemonOk(r, j);
    hide Fed;
    LocalRuns(r.ds[j], r.sent);
  }

  lemma OneStep(r: Ring.State, a: Action)
    requires Shape(r)
    ensures Exec(r, [a]) == Step(r, a)
  {
    assert [a][1..] == [];
  }

  /** A visit in terms of views: my is My_aru after sending. */
  lemma VisitViews(r: Ring.State)
    requires Rest(r) && RuleOk(r)
    ensures var r' := Step(r, PLAIN);
            var view := Views(r.ds)[r.next];
            var (w, m) := AruRule.VisitView(view, MarkOf(r.t), r.next, SentMy(r), |r'.sent|);
            && Rest(r') && r'.next == AruRule.Next(r.next, |r.ds|) && |r.sent| <= |r'.sent|
            && Views(r'.ds) == Views(r.ds)[r.next := w] && MarkOf(r'.t) == m
            && AruRule.Sends(view, MarkOf(r.t), SentMy(r), |r'.sent|)
            && (view.my < |r.sent| ==> SentMy(r) == view.my)
  {
    hide DaemonOk, SentMy, Sent, Core, Fed, Visit;
    VisitKeepsRest(r, Choice(0, 0, false));
    SendingMy(r);
    SendingKeeps(r);
  }

  /** A message of one empty packet. */
  const TINY := Message(Agreed, [[]])

  /** The next daemon gets all packets made so far and a message to send, and then the token. */
  function CatchUp(r: Ring.State): seq<Action>
    requires Shape(r)
  {
    Arrivals(r.next, 1, |r.sent|) + [Post(r.next, TINY)] + [PLAIN]
  }

  /** The views just before a catch-up visit at which the rule takes nobody's Aru down. */
  ghost predicate Ready(v: seq<AruRule.View>, m: AruRule.Mark, next: nat) {
    && next < |v| && m.aru <= m.seqNo
    && (forall j | 0 <= j < |v| :: v[next].aru <= v[j].aru <= v[next].last && v[j].aru <= m.aru)
    && (v[next].last == 0 || v[next].setAru == m.aru || m.aru == m.seqNo)
  }

  lemma ReadyRuleOk(r: Ring.State)
    requires Rest(r) && Ready(Views(r.ds), MarkOf(r.t), r.next)
    requires r.ds[r.next].my == |r.sent| || r.ds[r.next].last == 0
    ensures RuleOk(r)
  {
    hide SentMy, Sent, DaemonOk;
    SendingMy(r);
    var v := Views(r.ds);
    assert forall j | 0 <= j < |v| :: v[j] == ViewOf(r.ds[j]);
  }

  /** With little in flight, a daemon that has something to send sends it. */
  lemma SendsSome(r: Ring.State)
    requires Rest(r) && RuleOk(r)
    requires r.ds[r.next].down.msgs != [] && r.t.fc <= Burst.PERSONAL_WINDOW + 1 && |r.sent| <= Burst.MAX_SEQ_GAP
    ensures |r.sent| < |Step(r, PLAIN).sent|
  {
    RestBounds(r, r.next);
    var d0 := Raised(r.ds[r.next], r.t);
    assert Burst.Allowed(r.t.fc, d0.hi, d0.aru) > 0;
    assert Lengths(d0.down) != [];
    hide DaemonOk, Core, Fed, Visit, NewPackets, RuleOk, Lengths;
    assert SendCount(r).0 > 0;
    SendingKeeps(r);
    VisitKeeps(r, Choice(0, 0, false));
    VisitStep(r, Choice(0, 0, false));
    hide *;
  }

  /** Just before the token of a catch-up visit. */
  function Caught(r: Ring.State): Ring.State
    requires Shape(r)
  {
    Step(Exec(r, Arrivals(r.next, 1, |r.sent|)), Post(r.next, TINY))
  }

  lemma CaughtUp(r: Ring.State)
    requires Rest(r) && Ready(Views(r.ds), MarkOf(r.t), r.next)
    ensures var p := Caught(r);
            && Rest(p) && p.t == r.t && p.sent == r.sent && p.next == r.next && |p.ds| == |r.ds|
            && p.ds[p.next].down.msgs != [] && p.ds[p.next].my == |p.sent|
            && Views(p.ds) == Views(r.ds)[r.next := Views(r.ds)[r.next].(my := |r.sent|, hi := |r.sent|)]
  {
    RestBounds(r, r.next);
    ArrivalsKeep(r, r.next, 1, |r.sent|);
    var q := Exec(r, Arrivals(r.next, 1, |r.sent|));
    RestBounds(q, r.next);
    hide Rest, Arrivals, Ready;
    PostKeepsRest(q, r.next, TINY);
    ViewsAt(Caught(r).ds, r.next);
    ViewsAt(q.ds, r.next);
    ViewsAt(r.ds, r.next);
  }

  lemma CatchUpIs(r: Ring.State)
    requires Shape(r)
    ensures Exec(r, CatchUp(r)) == Step(Caught(r), PLAIN)
  {
    hide Step, Arrivals;
    var run, post := Arrivals(r.next, 1, |r.sent|), [Post(r.next, TINY)];
    ExecConcat(r, run + post, [PLAIN]);
    ExecConcat(r, run, post);
    OneStep(Exec(r, run), Post(r.next, TINY));
    OneStep(Caught(r), PLAIN);
  }

  /** What a catch-up visit does to the views. */
  lemma CatchUpVisit(r: Ring.State)
    requires Rest(r) && Ready(Views(r.ds), MarkOf(r.t), r.next)
    ensures var r' := Exec(r, CatchUp(r));
            var (w, m) := AruRule.VisitView(Views(r.ds)[r.next], MarkOf(r.t), r.next, |r'.sent|, |r'.sent|);
            && Rest(r') && r'.next == AruRule.Next(r.next, |r.ds|)
            && |r.sent| <= |r'.sent|
            && Views(r'.ds) == Views(r.ds)[r.next := w] && MarkOf(r'.t) == m
            && (r.t.fc <= Burst.PERSONAL_WINDOW + 1 && |r.sent| <= Burst.MAX_SEQ_GAP ==> |r.sent| < |r'.sent|)
  {
    CaughtUp(r);
    var p := Caught(r);
    ReadyRuleOk(p);
    hide Rest, SentMy, RuleOk, Step, Arrivals, Ready, CatchUp, Caught;
    RestShape(r);
    CatchUpIs(r);
    VisitViews(p);
    if p.t.fc <= Burst.PERSONAL_WINDOW + 1 && |p.sent| <= Burst.MAX_SEQ_GAP {
      SendsSome(p);
    }
  }

  /** Daemon x still has the Set_aru k of its first visit, daemon z has lowered the aru to k, and
      daemon y had let the token go with more. */
  ghost predicate Circling(v: seq<AruRule.View>, m: AruRule.Mark, next: nat, x: nat, y: nat, z: nat, k: nat) {
    var n := |v|;
    && next < n && x < n && y == AruRule.Next(x, n) && z == AruRule.Next(y, n) && z != x && x != y
    && m.aru == k && m.lastId == z && k < m.seqNo
    && (forall j | 0 <= j < n :: v[j].aru == 0)
    && v[x].setAru == k && v[x].last == k && v[z].my == k && k < v[y].last <= m.seqNo
    && AruRule.Rank(x, next, n) < AruRule.Rank(y, next, n) && AruRule.Rank(x, next, n) < AruRule.Rank(z, next, n)
    && forall j | 0 <= j < n && AruRule.Rank(j, next, n) < AruRule.Rank(x, next, n) ::
       v[j].last == 0 && v[j].setAru == -1
  }

  lemma CirclingStep(v: seq<AruRule.View>, m: AruRule.Mark, next: nat, x: nat, y: nat, z: nat, k: nat, s: nat)
    requires Circling(v, m, next, x, y, z, k) && next != x && m.seqNo <= s
    ensures var (w, m') := AruRule.VisitView(v[next], m, next, s, s);
            && Circling(v[next := w], m', AruRule.Next(next, |v|), x, y, z, k)
            && AruRule.Rank(x, AruRule.Next(next, |v|), |v|) == AruRule.Rank(x, next, |v|) - 1
  {
    var n := |v|;
    assert AruRule.Rank(next, next, n) == 0;
    assert forall j | 0 <= j < n && j != next ::
        AruRule.Rank(j, AruRule.Next(next, n), n) == AruRule.Rank(j, next, n) - 1;
  }

  /** Once the token comes back to x and y, Aru of y exceeds what z has received. */
  lemma {:induction false} CircleOn(r: Ring.State, x: nat, y: nat, z: nat, k: nat) returns (run: seq<Action>)
    requires Rest(r) && Circling(Views(r.ds), MarkOf(r.t), r.next, x, y, z, k)
    ensures z < |r.ds| && y < |r.ds|
    ensures var r' := Exec(r, run); r'.ds[z].my < r'.ds[y].aru
    decreases AruRule.Rank(x, r.next, |r.ds|)
  {
    hide Rest, CatchUp;
    RestShape(r);
    CatchUpVisit(r);
    var q := Exec(r, CatchUp(r));
    if r.next != x {
      CirclingStep(Views(r.ds), MarkOf(r.t), r.next, x, y, z, k, |q.sent|);
      var rest := CircleOn(q, x, y, z, k);
      ExecConcat(r, CatchUp(r), rest);
      run := CatchUp(r) + rest;
    } else {
      CatchUpVisit(q);
      var e := Exec(q, CatchUp(q));
      ExecConcat(r, CatchUp(r), CatchUp(q));
      assert Views(e.ds)[y] == ViewOf(e.ds[y]) && Views(e.ds)[z] == ViewOf(e.ds[z]);
      run := CatchUp(r) + CatchUp(q);
    }
  }

  lemma {:induction false} QuietLoad(ds: seq<Daemon.State>)
    requires forall j: nat | j < |ds| :: Quiet(ds[j])
    ensures Load(ds) == 0
  {
    if ds != [] {
      assert Quiet(ds[|ds| - 1]);
      var less := ds[..|ds| - 1];
      assert forall j: nat | j < |less| :: Quiet(less[j]);
      QuietLoad(less);
    }
  }

  /** The first visit leaves a Set_aru behind although nothing is missing. */
  lemma FirstVisitSets(r: Ring.State)
    requires Start(r) && !GoodStart(r)
    ensures var q := Step(r, PLAIN);
            var k := |q.sent|;
            && Rest(q) && q.next == AruRule.Next(r.next, |r.ds|)
            && k <= Burst.MAX_BURST && q.t.fc <= Burst.PERSONAL_WINDOW + 1
            && Views(q.ds) == Views(r.ds)[r.next := AruRule.View(k, k, k, k, 0)]
            && MarkOf(q.t) == AruRule.Mark(k, r.next, k)
  {
    StartRest(r);
    FirstRuleOk(r);
    var c := Choice(0, 0, false);
    assert Entered(r.ds[r.next], r.next) && Quiet(r.ds[r.next]);
    QuietLoad(r.ds);
    hide Rest, Sent, SentMy, RuleOk, Step;
    VisitViews(r);
    VisitLoad(r, c);
    SendingBounds(r);
  }

  lemma StartViews(r: Ring.State, j: nat)
    requires Start(r) && j < |r.ds|
    ensures Views(r.ds)[j] == AruRule.View(0, 0, -1, 0, 0)
  {
    assert Entered(r.ds[j], j);
  }

  /** Daemon x left its Set_aru k behind, daemon y got everything and let the token go with more, and the
      others were not visited yet. */
  ghost predicate LeftBehind(v: seq<AruRule.View>, m: AruRule.Mark, next: nat, x: nat, y: nat, k: nat) {
    && x < |v| && y == AruRule.Next(x, |v|) && next == AruRule.Next(y, |v|) && next != x && x != y
    && m == AruRule.Mark(m.seqNo, y, m.seqNo) && k < m.seqNo
    && v[x] == AruRule.View(k, k, k, k, 0) && v[y].last == m.seqNo && v[y].aru == 0
    && forall j | 0 <= j < |v| && j != x && j != y :: v[j] == AruRule.View(0, 0, -1, 0, 0)
  }

  lemma LoweredCircles(v: seq<AruRule.View>, m: AruRule.Mark, next: nat, x: nat, y: nat, k: nat, s: nat)
    requires LeftBehind(v, m, next, x, y, k) && m.seqNo <= s
    ensures var (w, m') := AruRule.VisitView(v[next].(my := k, hi := k), m, next, k, s);
            Circling(v[next := w], m', AruRule.Next(next, |v|), x, y, next, k)
  {
    var n := |v|;
    var next' := AruRule.Next(next, n);
    assert AruRule.Rank(next, next', n) == n - 1 && AruRule.Rank(y, next', n) == n - 2 &&
        AruRule.Rank(x, next', n) == n - 3;
    assert forall j | 0 <= j < n && AruRule.Rank(j, next', n) < n - 3 :: j != x && j != y && j != next;
  }

  lemma LeftBehindReady(v: seq<AruRule.View>, m: AruRule.Mark, next: nat, x: nat, y: nat, k: nat)
    requires LeftBehind(v, m, next, x, y, k)
    ensures next < |v| && v[next] == AruRule.View(0, 0, -1, 0, 0) && k < m.seqNo
    ensures Ready(v[next := AruRule.View(k, k, -1, 0, 0)], m, next)
  {
  }

  lemma MissesEnd(r: Ring.State, x: nat, y: nat, k: nat)
    requires Rest(r) && LeftBehind(Views(r.ds), MarkOf(r.t), r.next, x, y, k)
    ensures var q := Exec(r, Arrivals(r.next, 1, k));
            && Rest(q) && RuleOk(q) && q.t == r.t && q.sent == r.sent && q.next == r.next
            && Views(q.ds) == Views(r.ds)[r.next := Views(r.ds)[r.next].(my := k, hi := k)]
  {
    hide Rest, RuleOk, Step, Arrivals, LeftBehind, Ready, AruRule.Next;
    LeftBehindReady(Views(r.ds), MarkOf(r.t), r.next, x, y, k);
    RestShape(r);
    var z := r.next;
    ViewsAt(r.ds, z);
    ArrivalsKeep(r, z, 1, k);
    var q := Exec(r, Arrivals(z, 1, k));
    ViewsAt(q.ds, z);
    hide Exec, Views;
    assert Views(q.ds) == Views(r.ds)[z := AruRule.View(k, k, -1, 0, 0)];
    ReadyRuleOk(q);
  }

  /** A daemon that misses the end lowers the aru to the Set_aru left behind. */
  lemma LowerTo(r: Ring.State, x: nat, y: nat, k: nat) returns (run: seq<Action>)
    requires Rest(r) && LeftBehind(Views(r.ds), MarkOf(r.t), r.next, x, y, k)
    ensures var r' := Exec(r, run);
            Rest(r') && Circling(Views(r'.ds), MarkOf(r'.t), r'.next, x, y, r.next, k)
  {
    RestShape(r);
    var z := r.next;
    MissesEnd(r, x, y, k);
    var q := Exec(r, Arrivals(z, 1, k));
    hide Rest, RuleOk, SentMy, Step, Arrivals, Circling;
    VisitViews(q);
    ExecConcat(r, Arrivals(z, 1, k), [PLAIN]);
    OneStep(q, PLAIN);
    LoweredCircles(Views(r.ds), MarkOf(r.t), z, x, y, k, |Step(q, PLAIN).sent|);
    run := Arrivals(z, 1, k) + [PLAIN];
    assert Views(q.ds)[z := Views(Step(q, PLAIN).ds)[z]] == Views(r.ds)[z := Views(Step(q, PLAIN).ds)[z]];
  }

  /** The views after the first two visits: of n daemons, x sent up to k, y up to s. */
  lemma BothLeave(v: seq<AruRule.View>, x: nat, k: nat, s: nat)
    requires |v| > 2 && x < |v| && k < s
    requires forall i | 0 <= i < |v| && i != x :: v[i] == AruRule.View(0, 0, -1, 0, 0)
    requires v[x] == AruRule.View(k, k, k, k, 0)
    ensures var y := AruRule.Next(x, |v|);
            var (w, m) := AruRule.VisitView(v[y], AruRule.Mark(k, x, k), y, s, s);
            && Ready(v, AruRule.Mark(k, x, k), y)
            && LeftBehind(v[y := w], m, AruRule.Next(y, |v|), x, y, k)
  {
  }

  /** The first two visits. */
  lemma LeavesBehind(r: Ring.State) returns (run: seq<Action>, k: nat)
    requires Start(r) && !GoodStart(r)
    ensures var x, y, q := r.next, AruRule.Next(r.next, |r.ds|), Exec(r, run);
            Rest(q) && LeftBehind(Views(q.ds), MarkOf(q.t), q.next, x, y, k)
  {
    assert Shape(r) && |r.ds| > 2;
    hide Start, GoodStart, Rest, Step, CatchUp, Ready, LeftBehind, Views, MarkOf;
    forall i: nat | i < |r.ds|
      ensures Views(r.ds)[i] == AruRule.View(0, 0, -1, 0, 0)
    {
      StartViews(r, i);
    }
    FirstVisitSets(r);
    var q := Step(r, PLAIN);
    k := |q.sent|;
    run := [PLAIN] + CatchUp(q);
    OneStep(r, PLAIN);
    ExecConcat(r, [PLAIN], CatchUp(q));
    BothLeave(Views(q.ds), r.next, k, k + 1);
    CatchUpVisit(q);
    BothLeave(Views(q.ds), r.next, k, |Exec(q, CatchUp(q)).sent|);
  }

  /** After any bad start some run takes one daemon's Aru above what another one has received. */
  lemma BadRun(r: Ring.State) returns (run: seq<Action>, j: nat, k: nat)
    requires Start(r) && !GoodStart(r)
    ensures j < |r.ds| && k < |r.ds| && Exec(r, run).ds[k].my < Exec(r, run).ds[j].aru
  {
    assert Shape(r);
    hide Start, GoodStart, Rest, Step, Exec, LeftBehind, Circling;
    var leave, aru := LeavesBehind(r);
    var q := Exec(r, leave);
    var x, y := r.next, AruRule.Next(r.next, |r.ds|);
    var lower := LowerTo(q, x, y, aru);
    var e := Exec(q, lower);
    var circle := CircleOn(e, x, y, q.next, aru);
    ExecConcat(r, leave, lower);
    ExecConcat(r, leave + lower, circle);
    run, j, k := leave + lower + circle, y, q.next;
  }

  /** No daemon's Aru exceeds what some daemon has received without a gap. */
  ghost predicate AruSafe(r: Ring.State) {
    forall j, k | 0 <= j < |r.ds| && 0 <= k < |r.ds| :: r.ds[j].aru <= r.ds[k].my
  }

  lemma RunningSafe(r: Ring.State)
    requires Running(r)
    ensures AruSafe(r)
  {
    forall j, k | 0 <= j < |r.ds| && 0 <= k < |r.ds|
      ensures r.ds[j].aru <= r.ds[k].my
    {
      if Start(r) {
        assert Entered(r.ds[j], j);
      } else {
        assert Views(r.ds)[j].aru <= Views(r.ds)[k].last <= Views(r.ds)[k].my;
      }
    }
  }

  /** Aru is safe over every run from a start exactly when the start is good. */
  lemma AruSafeIffGoodStart(r: Ring.State)
    requires Start(r)
    ensures GoodStart(r) <==> forall run :: AruSafe(Exec(r, run))
  {
    assert Shape(r);
    hide Running, GoodStart, Start;
    if GoodStart(r) {
      assert Running(r) by { IsRunning(r); }
      forall run
        ensures AruSafe(Exec(r, run))
      {
        RunKeeps(r, run);
        RunningSafe(Exec(r, run));
      }
    } else {
      var run, j, k := BadRun(r);
      assert !AruSafe(Exec(r, run));
    }
  }

  lemma IsRunning(r: Ring.State)
    requires Start(r) && GoodStart(r)
    ensures Running(r)
  {
  }
}
