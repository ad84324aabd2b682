/** A lost token comes back: the leader's timeout sends its last token again with a higher retransmission
    number, and every daemon that took that round already sends its own last token again in turn, until the
    copy reaches the daemon that waits for it.

    A daemon does so only for a number above the one its last token carries, and the number has four bits:
    one that has come to 15 is never asked again. */
module TokenReturn {
  import Daemon
  import opened AruRule
  import opened Arq
  import Ring
  import RingInv
  import RingSafety
  import RingTheorems

  /** Daemon j took the leader's current round and sent it on. */
  predicate Took(j: nat, next: nat) {
    0 < j && (next == 0 || j < next)
  }

  /** Nobody between the leader and the daemon that waits has come to the last retransmission number. */
  predicate CanBeAsked(lasts: seq<Frame>, next: nat) {
    forall j | 0 <= j < |lasts| && Took(j, next) :: lasts[j].retrans < RETRANS_MODULUS - 1
  }

  /** All copies on their way are lost. */
  function Lose(s: State): (s': State)
    requires Shape(s)
    ensures Shape(s')
  {
    s.(net := {})
  }

  /** A copy of the leader's current round, on its way to a daemon that took that round or waits for it. */
  ghost predicate OnItsWay(s: State, r: Ring.State, k: Copy) {
    && Refines(s, r) && RingSafety.Running(r) && k in s.net && k.dest < |s.ds| && k.f.round == s.lasts[0].round
    && (k.dest == r.next || Took(k.dest, r.next))
  }

  /** The daemons from this one on have not been asked with that number. */
  predicate Below(lasts: seq<Frame>, next: nat, first: nat, retrans: nat) {
    forall j | 0 < first <= j < |lasts| && Took(j, next) :: lasts[j].retrans < retrans
  }

  lemma LoseRefines(s: State, r: Ring.State)
    requires Refines(s, r)
    ensures Refines(Lose(s), r)
  {
    hide Rounds, Carries;
  }

  /** s' is s after the leader's timeout fired once or more often. */
  ghost predicate Hurried(s: State, s': State, r: Ring.State, retrans: nat) {
    && Shape(s) && Refines(s', r) && |s'.ds| == |s.ds|
    && s'.lasts[0].retrans == retrans && s'.lasts[0].round == s.lasts[0].round
    && (forall j | 0 < j < |s.lasts| :: s'.lasts[j] == s.lasts[j])
    && Copy(Next(0, |s.ds|), s'.lasts[0]) in s'.net && s'.lasts[0].token.rtr == []
  }

  lemma LeaderRuns(s: State, r: Ring.State)
    requires Refines(s, r) && RingSafety.Running(r)
    ensures Shape(s) && !s.ds[0].exited
  {
    RingSafety.RunningRest(r);
    hide RingSafety.Running;
    assert Ring.DaemonOk(r, 0);
  }

  /** The retransmission number after m timeouts. */
  function Later(retrans: nat, m: nat): nat {
    (retrans + m) % RETRANS_MODULUS
  }

  lemma LaterTwice(retrans: nat, m: nat)
    ensures Later(Later(retrans, m), 1) == Later(retrans, m + 1)
  {
  }

  /** One timeout of the leader. */
  lemma HurryStep(s: State, r: Ring.State)
    requires Refines(s, r) && RingSafety.Running(r)
    ensures Shape(s) && Hurried(s, Step(s, Hurry), r, Later(s.lasts[0].retrans, 1))
  {
    LeaderRuns(s, r);
    ResendRefines(s, r, 0, (s.lasts[0].retrans + 1) % RETRANS_MODULUS);
    hide Refines, RingSafety.Running;
  }

  lemma HurriedTwice(s: State, mid: State, s': State, r: Ring.State, a: nat, b: nat)
    requires Hurried(s, mid, r, a) && Hurried(mid, s', r, b)
    ensures Hurried(s, s', r, b)
  {
    hide Refines;
  }

  lemma HurriedShape(s: State, s': State, r: Ring.State, a: nat)
    requires Hurried(s, s', r, a)
    ensures Shape(s) && Refines(s', r) && Shape(s') && s'.lasts[0].retrans == a
  {
  }

  /** The leader's timeout fires until its copies carry the last number. */
  lemma {:induction false} HurryOn(s: State, r: Ring.State, m: nat) returns (run: seq<Action>)
    requires Refines(s, r) && RingSafety.Running(r)
    ensures |run| == m + 1 && run[0] == Hurry
    ensures Shape(s) && Hurried(s, Exec(s, run), r, Later(s.lasts[0].retrans, m + 1))
    decreases m
  {
    HurryStep(s, r);
    HurriedShape(s, Step(s, Hurry), r, Later(s.lasts[0].retrans, 1));
    hide Refines, RingSafety.Running, Step, Hurried, Exec, Later;
    if m == 0 {
      run := [Hurry];
      ExecOne(s, [], Hurry);
      ExecNone(s);
      assert [] + [Hurry] == run;
    } else {
      var before := HurryOn(s, r, m - 1);
      var mid := Exec(s, before);
      HurriedShape(s, mid, r, Later(s.lasts[0].retrans, m));
      run := before + [Hurry];
      ExecOne(s, before, Hurry);
      HurryStep(mid, r);
      HurriedTwice(s, mid, Step(mid, Hurry), r, Later(s.lasts[0].retrans, m), Later(mid.lasts[0].retrans, 1));
      LaterTwice(s.lasts[0].retrans, m);
    }
  }

  lemma ExecNone(s: State)
    requires Shape(s)
    ensures Exec(s, []) == s
  {
  }

  lemma TookFacts(s: State, r: Ring.State, k: Copy)
    requires Refines(s, r) && k in s.net && k.dest < |s.ds| && k.f.round == s.lasts[0].round && Took(k.dest, r.next)
    ensures s.lasts[k.dest].round == s.lasts[0].round && s.lasts[k.dest].arq == k.f.arq && !Takes(s, k)
  {
    hide Carries;
    assert s.lasts[k.dest].round == s.lasts[0].round;
    AgeFacts(s, r, k);
    TakesIff(s, r, k);
    hide Refines, Takes;
  }

  lemma DaemonRuns(s: State, r: Ring.State, j: nat)
    requires Refines(s, r) && RingSafety.Running(r) && j < |s.ds|
    ensures !s.ds[j].exited
  {
    hide Rounds, NetOk, Carries;
    RingSafety.RunningRest(r);
    hide RingSafety.Running;
    assert Ring.DaemonOk(r, j);
  }

  lemma AskedStep(s: State, r: Ring.State, k: Copy, c: Daemon.Choice)
    requires OnItsWay(s, r, k) && k.dest != r.next && s.lasts[k.dest].retrans < k.f.retrans
    ensures Shape(s) && Step(s, Deliver(k, c)) == Resend(s, k.dest, k.f.retrans)
    ensures s.lasts[k.dest].round == s.lasts[0].round
  {
    hide Refines, RingSafety.Running, Takes, Process, Resend;
    TookFacts(s, r, k);
    DaemonRuns(s, r, k.dest);
    OnItsWayShape(s, r, k);
  }

  lemma OnItsWayShape(s: State, r: Ring.State, k: Copy)
    requires OnItsWay(s, r, k)
    ensures Shape(s) && Ring.Shape(r) && |s.ds| == |r.ds|
  {
  }

  /** A daemon that took this round already sends its own last token again. */
  lemma AskedOnce(s: State, r: Ring.State, k: Copy, c: Daemon.Choice)
    requires OnItsWay(s, r, k) && k.dest != r.next && s.lasts[k.dest].retrans < k.f.retrans
    ensures var s' := Step(s, Deliver(k, c));
            var k' := Copy(Next(k.dest, |s.ds|), s'.lasts[k.dest]);
            && OnItsWay(s', r, k') && k'.f.token.rtr == [] && k'.f.retrans == k.f.retrans
            && s'.lasts == s.lasts[k.dest := s'.lasts[k.dest]]
            && (k'.dest == r.next || k'.dest == k.dest + 1)
  {
    hide Refines, RingSafety.Running, Step;
    OnItsWayShape(s, r, k);
    AskedStep(s, r, k, c);
    ResendRefines(s, r, k.dest, k.f.retrans);
  }

  /** How many daemons that took the round the copy still has to pass. */
  function Distance(dest: nat, next: nat, n: nat): nat {
    if dest == next then 0 else if next == 0 then (if dest < n then n - dest else 0)
    else if dest < next then next - dest else 0
  }

  /** No timeouts and nothing else but copies that arrive. */
  predicate OnlyCopies(run: seq<Action>) {
    forall i | 0 <= i < |run| :: run[i].Deliver?
  }

  /** The copy is handed from daemon to daemon until it reaches the one that waits for it. */
  lemma {:induction false} Travels(s: State, r: Ring.State, k: Copy, c: Daemon.Choice)
    returns (run: seq<Action>, k': Copy)
    requires OnItsWay(s, r, k) && Below(s.lasts, r.next, k.dest, k.f.retrans) && k.f.token.rtr == []
    ensures Shape(s) && Current(Exec(s, run), r, k') && Exec(s, run).lasts[0].round == s.lasts[0].round
    ensures OnlyCopies(run) && k'.f.token.rtr == []
    decreases Distance(k.dest, r.next, |s.ds|)
  {
    assert Shape(s) && Ring.Shape(r) && |r.ds| == |s.ds|;
    hide Refines, RingSafety.Running;
    if k.dest == r.next {
      run, k' := [], k;
    } else {
      AskedOnce(s, r, k, c);
      var mid := Step(s, Deliver(k, c));
      var rest;
      rest, k' := Travels(mid, r, Copy(Next(k.dest, |s.ds|), mid.lasts[k.dest]), c);
      run := [Deliver(k, c)] + rest;
      assert run[1..] == rest;
    }
  }

  /** The daemon that waits takes the copy. */
  lemma TakenAtLast(s: State, r: Ring.State, k: Copy, c: Daemon.Choice)
    requires Current(s, r, k)
    ensures var s' := Step(s, Deliver(k, c));
            && Refines(s', Ring.Step(r, Ring.TokenVisit(c.(hurried := k.f.token != r.t))))
            && s'.lasts[r.next].round == s.lasts[r.next].round + 1
  {
    TakesIff(s, r, k);
    ProcessRefines(s, r, k, c);
    RunningAt(r);
    VisitedAlike(s, r, k, c);
    TakenInOrder(s, r, k, c);
    hide Daemon.Visit, NetOk, Rounds, RingSafety.Running;
  }

  /** A copy that arrives again does nothing more: it is neither taken nor sent on twice. */
  lemma DuplicateIgnored(s: State, k: Copy, c: Daemon.Choice, c': Daemon.Choice)
    requires Shape(s)
    ensures var s' := Step(s, Deliver(k, c));
            Step(s', Deliver(k, c')) == s'
  {
    hide Daemon.Visit;
  }

  /** The token was lost, everywhere.  After enough timeouts of the leader that its number exceeds those on the
      way, the copies alone bring it to the daemon that waited; only the requests on it are lost. */
  lemma ReturnsAfter(s: State, r: Ring.State, c: Daemon.Choice, m: nat) returns (run: seq<Action>, hurried: bool)
    requires Refines(s, r) && RingSafety.Running(r) && Shape(s)
    requires Below(s.lasts, r.next, 1, Later(s.lasts[0].retrans, m + 1))
    ensures |run| > m && run[0] == Hurry && OnlyCopies(run[m + 1..])
    ensures var s' := Exec(Lose(s), run);
            && Refines(s', Ring.Step(r, Ring.TokenVisit(c.(hurried := hurried))))
            && s'.lasts[r.next].round == s.lasts[r.next].round + 1
    ensures hurried <==> r.t.rtr != []
  {
    assert Ring.Shape(r) && |r.ds| == |s.ds|;
    var s0 := Lose(s);
    LoseRefines(s, r);
    var asking := HurryOn(s0, r, m);
    var s1 := Exec(s0, asking);
    var k1 := Copy(Next(0, |s.ds|), s1.lasts[0]);
    Sets(s, s1, r, Later(s.lasts[0].retrans, m + 1));
    hide Refines, RingSafety.Running, Step, OnItsWay, Below, Exec, Later, Ring.Step, Current, CanBeAsked, OnlyCopies;
    var handing, k2 := Travels(s1, r, k1, c);
    var s2 := Exec(s1, handing);
    TakenAtLast(s2, r, k2, c);
    SameRounds(s, s2, r);
    run := asking + handing + [Deliver(k2, c)];
    Copies(asking, handing, k2, c);
    CurrentCarries(s2, r, k2);
    hurried := k2.f.token != r.t;
    ExecTwice(s0, asking, handing);
    ExecOne(s0, asking + handing, Deliver(k2, c));
  }

  lemma Copies(asking: seq<Action>, handing: seq<Action>, k: Copy, c: Daemon.Choice)
    requires OnlyCopies(handing) && asking != []
    ensures var run := asking + handing + [Deliver(k, c)]; OnlyCopies(run[|asking|..]) && run[0] == asking[0]
  {
    var run := asking + handing + [Deliver(k, c)];
    assert run[|asking|..] == handing + [Deliver(k, c)];
  }

  /** It comes back, whatever the leader's number, as long as nobody on the way has come to the last one. */
  lemma LostTokenReturns(s: State, r: Ring.State, c: Daemon.Choice) returns (run: seq<Action>, hurried: bool)
    requires Refines(s, r) && RingSafety.Running(r) && CanBeAsked(s.lasts, r.next)
    ensures Shape(s) && run != [] && run[0] == Hurry
    ensures var s' := Exec(Lose(s), run);
            && Refines(s', Ring.Step(r, Ring.TokenVisit(c.(hurried := hurried))))
            && s'.lasts[r.next].round == s.lasts[r.next].round + 1
    ensures hurried <==> r.t.rtr != []
  {
    assert Shape(s) && Ring.Shape(r) && |r.ds| == |s.ds|;
    hide Refines, RingSafety.Running, Ring.Step, Exec;
    var m := (2 * RETRANS_MODULUS - 2 - s.lasts[0].retrans % RETRANS_MODULUS) % RETRANS_MODULUS;
    LastNumber(s.lasts[0].retrans);
    run, hurried := ReturnsAfter(s, r, c, m);
  }

  /** Daemon j took the round and has come to the last number; only those before it are sent copies. */
  ghost predicate Stuck(s: State, lasts: seq<Frame>, j: nat) {
    && Shape(s) && |lasts| == |s.lasts| && 0 < j < |lasts| && s.lasts[j].retrans >= RETRANS_MODULUS - 1
    && (forall i | 0 <= i < |lasts| :: s.lasts[i].round == lasts[i].round && s.lasts[i].arq == lasts[i].arq)
    && (forall i | 0 <= i <= j :: lasts[i].arq == lasts[0].arq < ARQ_MODULUS)
    && (forall k | k in s.net :: 0 < k.dest <= j && k.f.arq == lasts[0].arq && k.f.retrans < RETRANS_MODULUS)
  }

  lemma StuckStep(s: State, lasts: seq<Frame>, j: nat, a: Action)
    requires Stuck(s, lasts, j)
    ensures Stuck(Step(s, a), lasts, j)
  {
    hide Process, Daemon.Receive, Daemon.Post;
  }

  lemma {:induction false} StuckForever(s: State, lasts: seq<Frame>, j: nat, run: seq<Action>)
    requires Stuck(s, lasts, j)
    ensures Stuck(Exec(s, run), lasts, j)
    decreases |run|
  {
    assert Shape(s);
    if run != [] {
      StuckStep(s, lasts, j, run[0]);
      hide Step, Stuck;
      StuckForever(Step(s, run[0]), lasts, j, run[1..]);
    }
  }

  /** In this run some daemon takes a token. */
  ghost predicate GoesOn(s: State, run: seq<Action>)
    requires Shape(s)
  {
    exists i :: 0 <= i < |s.lasts| && Exec(s, run).lasts[i].round != s.lasts[i].round
  }

  /** A token that is lost can come back exactly when nobody who sent it on has come to the last number: then
      the leader's timeout brings it back, otherwise no run whatever makes a daemon take a token again. */
  lemma LostTokenIff(s: State, r: Ring.State)
    requires Refines(s, r) && RingSafety.Running(r)
    ensures Shape(s)
    ensures (exists run: seq<Action> :: GoesOn(Lose(s), run)) <==> CanBeAsked(s.lasts, r.next)
  {
    assert Shape(s) && Ring.Shape(r) && |r.ds| == |s.ds|;
    if CanBeAsked(s.lasts, r.next) {
      var back, hurried := LostTokenReturns(s, r, Daemon.Choice(0, 0, false));
      assert GoesOn(Lose(s), back);
    } else {
      var j :| 0 <= j < |s.lasts| && Took(j, r.next) && s.lasts[j].retrans >= RETRANS_MODULUS - 1;
      assert Stuck(Lose(s), s.lasts, j);
      forall run: seq<Action>
        ensures !GoesOn(Lose(s), run)
      {
        StuckForever(Lose(s), s.lasts, j, run);
        hide Exec;
      }
    }
  }

  /** The leader's copy with a number above all on the way sets out. */
  lemma Sets(s: State, s1: State, r: Ring.State, retrans: nat)
    requires Refines(s, r) && RingSafety.Running(r) && Below(s.lasts, r.next, 1, retrans)
    requires Hurried(Lose(s), s1, r, retrans)
    ensures var k := Copy(Next(0, |s.ds|), s1.lasts[0]);
            && OnItsWay(s1, r, k) && k.f.token.rtr == [] && Below(s1.lasts, r.next, k.dest, k.f.retrans)
            && s1.lasts[0].round == s.lasts[0].round
  {
    assert |s.ds| == |r.ds| == |s.lasts|;
    hide Refines, RingSafety.Running;
  }

  lemma SameRounds(s: State, s': State, r: Ring.State)
    requires Refines(s, r) && Refines(s', r) && s'.lasts[0].round == s.lasts[0].round
    ensures s'.lasts[r.next].round == s.lasts[r.next].round
  {
  }

  lemma LastNumber(retrans: nat)
    ensures var m := (2 * RETRANS_MODULUS - 2 - retrans % RETRANS_MODULUS) % RETRANS_MODULUS;
            m >= 0 && Later(retrans, m + 1) == RETRANS_MODULUS - 1
  {
  }

  // How often the leader may try.

  /** The leader's timeouts since its token last came back, after one more action. */
  function Fired(s: State, a: Action, n: nat): nat
    requires Shape(s)
  {
    if a.Hurry? then n + 1 else if Step(s, a).lasts[0].round != s.lasts[0].round then 0 else n
  }

  /** The leader's timeout fires at most 14 times in a row before its token comes back. */
  predicate Patient(s: State, run: seq<Action>, n: nat)
    requires Shape(s)
    decreases |run|
  {
    run == [] ||
    (Fired(s, run[0], n) < RETRANS_MODULUS - 1 && Patient(Step(s, run[0]), run[1..], Fired(s, run[0], n)))
  }

  /** No token and no copy carries the last number, the leader's no more than the timeouts that fired. */
  ghost predicate Low(s: State, n: nat) {
    && Shape(s) && s.lasts[0].retrans <= n < RETRANS_MODULUS - 1
    && (forall j | 0 <= j < |s.lasts| :: s.lasts[j].retrans < RETRANS_MODULUS - 1)
    && (forall k | k in s.net :: k.f.retrans < RETRANS_MODULUS - 1)
  }

  lemma ProcessLow(s: State, k: Copy, c: Daemon.Choice, n: nat)
    requires Low(s, n) && k in s.net && k.dest < |s.ds|
    ensures Low(Process(s, k, c), if Process(s, k, c).lasts[0].round != s.lasts[0].round then 0 else n)
  {
    hide Daemon.Visit;
  }

  lemma StepLow(s: State, a: Action, n: nat)
    requires Low(s, n) && Fired(s, a, n) < RETRANS_MODULUS - 1
    ensures Low(Step(s, a), Fired(s, a, n))
  {
    hide Process, Daemon.Receive, Daemon.Post;
    if a.Deliver? && a.k in s.net && a.k.dest < |s.ds| {
      ProcessLow(s, a.k, a.c, n);
    }
  }

  lemma {:induction false} PatientLow(s: State, run: seq<Action>, n: nat) returns (m: nat)
    requires Low(s, n) && Patient(s, run, n)
    ensures Low(Exec(s, run), m)
    decreases |run|
  {
    assert Shape(s);
    if run == [] {
      m := n;
    } else {
      StepLow(s, run[0], n);
      hide Step, Low, Fired;
      m := PatientLow(Step(s, run[0]), run[1..], Fired(s, run[0], n));
    }
  }

  /** If the leader's timeout never fired more than 14 times before its token came back, a token that is lost now
      comes back: each round starts at number 0 again. */
  lemma PatientRunsRecover(s: State, start: Ring.State, run: seq<Action>, n: nat, c: Daemon.Choice)
    returns (r: Ring.State, back: seq<Action>, hurried: bool)
    requires RingSafety.Start(start) && RingSafety.GoodStart(start) && Refines(s, start)
    requires Punctual(s, run) && Low(s, n) && Patient(s, run, n)
    ensures RingTheorems.Reachable(r) && Refines(Exec(s, run), r) && back != [] && back[0] == Hurry
    ensures Refines(Exec(Lose(Exec(s, run)), back), Ring.Step(r, Ring.TokenVisit(c.(hurried := hurried))))
  {
    assert Ring.Shape(start) && Shape(s);
    hide Refines, RingSafety.Start, RingSafety.GoodStart, Punctual, Patient, Exec, Ring.Step;
    var steps := RunRefines(s, start, run);
    r := Ring.Exec(start, steps);
    assert RingTheorems.Reachable(r);
    var m := PatientLow(s, run, n);
    RingTheorems.ReachableRuns(r);
    LowAsked(Exec(s, run), m, r.next);
    back, hurried := LostTokenReturns(Exec(s, run), r, c);
  }

  lemma LowAsked(s: State, n: nat, next: nat)
    requires Low(s, n)
    ensures CanBeAsked(s.lasts, next)
  {
  }
}
