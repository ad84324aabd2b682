/** The regular token as the network carries it: copies with a 4-bit round number that may be lost,
    duplicated, delayed and reordered, and that are sent again on request.

    Daemon 0 is the leader: it takes a token that carries the number it gave last, and gives the next one.
    The others take a token that carries the number after the one they took last. */
module Arq {
  import opened Packets
  import opened Daemon
  import opened AruRule
  import Ring
  import RingDefect
  import RingInv
  import RingSafety
  import RingTheorems

  const ARQ_MODULUS: nat := 16
  const RETRANS_MODULUS: nat := 16

  /** A token with its ARQ and retransmission fields.  round is the true round, of which arq is the
      remainder; no guard reads it. */
  datatype Frame = Frame(token: Token, arq: nat, retrans: nat, round: nat)

  datatype Copy = Copy(dest: nat, f: Frame)

  /** lasts[j] is the token daemon j sent last (Last_token); net is every copy ever sent. */
  datatype State = State(ds: seq<Daemon.State>, posted: seq<seq<Message>>, sent: seq<Packet>, lasts: seq<Frame>,
      net: set<Copy>)

  datatype Action =
    | Post(who: nat, m: Message)
    | Arrive(who: nat, s: nat)
    | Deliver(k: Copy, c: Choice)     // a copy of a token arrives
    | Hurry                           // the leader's timeout

  predicate Shape(s: State) {
    |s.ds| > 0 && |s.posted| == |s.ds| && |s.lasts| == |s.ds|
  }

  function Prev(j: nat, n: nat): int {
    if j == 0 then n - 1 else j - 1
  }

  /** The test at the head of Prot_handle_token. */
  predicate Takes(s: State, k: Copy)
    requires Shape(s) && k.dest < |s.ds|
  {
    if k.dest == 0 then k.f.arq == s.lasts[0].arq else k.f.arq == (s.lasts[k.dest].arq + 1) % ARQ_MODULUS
  }

  /** Prot_token_hurry at daemon j: its last token is sent again without the requests. */
  function Resend(s: State, j: nat, retrans: nat): (s': State)
    requires Shape(s) && j < |s.ds|
    ensures Shape(s')
  {
    var f := s.lasts[j].(token := s.lasts[j].token.(rtr := []), retrans := retrans);
    s.(lasts := s.lasts[j := f], net := s.net + {Copy(Next(j, |s.ds|), f)})
  }

  /** The token sent on when a daemon took copy f. */
  function PassedFrame(j: nat, f: Frame, t: Token): Frame {
    if j == 0 then Frame(t, (f.arq + 1) % ARQ_MODULUS, 0, f.round + 1) else Frame(t, f.arq, f.retrans, f.round)
  }

  /** Prot_handle_token on a token that was taken. */
  function Process(s: State, k: Copy, c: Choice): (s': State)
    requires Shape(s) && k.dest < |s.ds|
    ensures Shape(s')
  {
    var j, f := k.dest, k.f;
    var v := Visit(s.ds[j], f.token, c.(hurried := false));
    if v.d.exited then s.(ds := s.ds[j := v.d]) else
      var g := PassedFrame(j, f, v.t);
      s.(ds := s.ds[j := v.d], sent := s.sent + v.made, lasts := s.lasts[j := g],
         net := s.net + {Copy(Next(j, |s.ds|), g)})
  }

  function Step(s: State, a: Action): (s': State)
    requires Shape(s)
    ensures Shape(s') && |s'.ds| == |s.ds|
  {
    match a
    case Post(who, m) =>
      if who < |s.ds| && MessageOk(m) && !s.ds[who].exited then
        s.(ds := s.ds[who := Daemon.Post(s.ds[who], m)], posted := s.posted[who := s.posted[who] + [m]])
      else s
    case Arrive(who, i) =>
      if who < |s.ds| && 1 <= i <= |s.sent| then s.(ds := s.ds[who := Receive(s.ds[who], s.sent[i - 1])]) else s
    case Deliver(k, c) =>
      if k !in s.net || k.dest >= |s.ds| || s.ds[k.dest].exited then s
      else if Takes(s, k) then Process(s, k, c)
      else if k.dest != 0 && k.f.arq == s.lasts[k.dest].arq && k.f.retrans > s.lasts[k.dest].retrans then
        Resend(s, k.dest, k.f.retrans)
      else s
    case Hurry =>
      if s.ds[0].exited then s else Resend(s, 0, (s.lasts[0].retrans + 1) % RETRANS_MODULUS)
  }

  function Exec(s: State, run: seq<Action>): (s': State)
    requires Shape(s)
    ensures Shape(s') && |s'.ds| == |s.ds|
    decreases |run|
  {
    if run == [] then s else Exec(Step(s, run[0]), run[1..])
  }

  /** The round a daemon waits for, and how many rounds a copy is behind it. */
  function Expected(s: State, j: nat): nat
    requires Shape(s) && j < |s.ds|
  {
    if j == 0 then s.lasts[0].round else s.lasts[j].round + 1
  }

  function Age(s: State, k: Copy): int
    requires Shape(s) && k.dest < |s.ds|
  {
    Expected(s, k.dest) - k.f.round
  }

  /** The copy is one or more whole cycles of the 4-bit number old. */
  predicate Stale(s: State, k: Copy)
    requires Shape(s) && k.dest < |s.ds|
  {
    Age(s, k) > 0 && Age(s, k) % ARQ_MODULUS == 0
  }

  /** No stale copy arrives during the run. */
  predicate Punctual(s: State, run: seq<Action>)
    requires Shape(s)
    decreases |run|
  {
    run == [] ||
    ((run[0].Deliver? && run[0].k in s.net && run[0].k.dest < |s.ds| ==> !Stale(s, run[0].k))
     && Punctual(Step(s, run[0]), run[1..]))
  }

  /** Daemons before next took the leader's current round, the others the one before it. */
  ghost predicate Rounds(lasts: seq<Frame>, next: nat) {
    forall j | 0 <= j < |lasts| ::
      && lasts[j].arq == lasts[j].round % ARQ_MODULUS
      && lasts[j].round + (if next == 0 || j < next then 0 else 1) == lasts[0].round
  }

  /** A token, whether its requests were dropped or not. */
  predicate Carries(token: Token, t: Token) {
    token == t || token == t.(rtr := [])
  }

  ghost predicate NetOk(s: State, next: nat, t: Token)
    requires Shape(s)
  {
    && (forall k | k in s.net ::
         && k.dest < |s.ds| && k.f.arq == k.f.round % ARQ_MODULUS
         && k.f.round <= s.lasts[Prev(k.dest, |s.ds|)].round
         && (k.dest == next && k.f.round == s.lasts[0].round ==> Carries(k.f.token, t)))
  }

  /** The network stands for a ring on which the token travels to r.next. */
  ghost predicate Refines(s: State, r: Ring.State) {
    && Shape(s) && Ring.Shape(r)
    && s.ds == r.ds && s.posted == r.posted && s.sent == r.sent
    && Rounds(s.lasts, r.next)
    && NetOk(s, r.next, r.t)
    && Carries(s.lasts[Prev(r.next, |s.ds|)].token, r.t)
  }

  /** No copy is ahead of the daemon it travels to. */
  lemma AgeFacts(s: State, r: Ring.State, k: Copy)
    requires Refines(s, r) && k in s.net
    ensures k.dest < |s.ds| && Age(s, k) >= 0
    ensures Age(s, k) == 0 <==> k.dest == r.next && k.f.round == s.lasts[0].round
    ensures k.f.arq == k.f.round % ARQ_MODULUS && s.lasts[k.dest].arq == s.lasts[k.dest].round % ARQ_MODULUS
  {
    hide Carries;
    var p := Prev(k.dest, |s.ds|);
    assert k.f.round <= s.lasts[p].round;
  }

  lemma SameRemainder(a: int, b: int)
    ensures a % ARQ_MODULUS == b % ARQ_MODULUS <==> (a - b) % ARQ_MODULUS == 0
  {
  }

  /** A daemon takes a copy exactly when it is the one it waits for, which only the next daemon can
      get, or is stale. */
  lemma TakesIff(s: State, r: Ring.State, k: Copy)
    requires Refines(s, r) && k in s.net
    ensures k.dest < |s.ds| && Age(s, k) >= 0
    ensures Takes(s, k) <==> Age(s, k) == 0 || Stale(s, k)
    ensures Age(s, k) == 0 <==> k.dest == r.next && k.f.round == s.lasts[0].round
  {
    AgeFacts(s, r, k);
    hide Refines;
    SameRemainder(s.lasts[k.dest].round + 1, s.lasts[k.dest].arq + 1);
    SameRemainder(Expected(s, k.dest), k.f.round);
  }

  /** A stale copy makes a daemon process a round again that it processed before. */
  lemma StaleTaken(s: State, r: Ring.State, k: Copy, c: Choice)
    requires Refines(s, r) && k in s.net && k.dest < |s.ds| && Stale(s, k) && !s.ds[k.dest].exited
    ensures var s' := Step(s, Deliver(k, c));
            && s' == Process(s, k, c)
            && (s'.ds[k.dest].exited || s'.lasts[k.dest].round + ARQ_MODULUS <= s.lasts[k.dest].round + 1)
  {
    hide Visit, NetOk, Rounds, Carries;
    TakesIff(s, r, k);
  }

  /** Any other copy that is taken is taken by the next daemon, which thereby passes to the next round. */
  lemma TakenInOrder(s: State, r: Ring.State, k: Copy, c: Choice)
    requires Refines(s, r) && k in s.net && k.dest < |s.ds| && !s.ds[k.dest].exited
    requires Takes(s, k) && !Stale(s, k)
    ensures var s' := Step(s, Deliver(k, c));
            k.dest == r.next && (s'.ds[k.dest].exited || s'.lasts[k.dest].round == s.lasts[k.dest].round + 1)
  {
    TakesIff(s, r, k);
    hide Visit;
  }

  /** The same visit, as far as anybody sees. */
  predicate Alike(v: Visited, w: Visited) {
    v.d == w.d && (!v.d.exited ==> v == w)
  }

  lemma Visit1Hurried(d: Daemon.State, t: Token, c: Choice)
    ensures Alike(Visit1(d, t.(rtr := []), c.(hurried := false)), Visit1(d, t, c.(hurried := true)))
  {
    var t', c', c'' := t.(rtr := []), c.(hurried := false), c.(hurried := true);
    assert !BadRequest(d, t', c') && !BadRequest(d, t, c'');
    hide BadRequest, BurstOf, Made, SendMany, Advance, Missing, VisitView;
  }

  /** A token whose requests were dropped is visited like one that was sent again. */
  lemma VisitHurried(d: Daemon.State, t: Token, c: Choice)
    ensures Alike(Visit(d, t.(rtr := []), c.(hurried := false)), Visit(d, t, c.(hurried := true)))
  {
    Visit1Hurried(d, t, c);
    ExitStays(Visit1(d, t, c.(hurried := true)));
    hide Visit1, Visit2;
  }

  lemma ExitStays(v: Visited)
    ensures v.d.exited ==> Visit2(v.d, v.counted).exited
    ensures v.d.exited ==> forall n: nat :: Visit2(v.d, n) == v.d
  {
  }

  lemma ResendRefines(s: State, r: Ring.State, j: nat, retrans: nat)
    requires Refines(s, r) && j < |s.ds|
    ensures Refines(Resend(s, j, retrans), r)
  {
    assert Prev(Next(j, |s.ds|), |s.ds|) == j;
  }

  lemma PassedOn(s: State, next: nat, t: Token, g: Frame)
    requires Shape(s) && next < |s.ds| && Rounds(s.lasts, next) && NetOk(s, next, t)
    requires g.round == s.lasts[0].round + (if next == 0 then 1 else 0) && g.arq == g.round % ARQ_MODULUS
    ensures var n := Next(next, |s.ds|);
            var s' := s.(lasts := s.lasts[next := g], net := s.net + {Copy(n, g)});
            Rounds(s'.lasts, n) && NetOk(s', n, g.token) && s'.lasts[Prev(n, |s.ds|)].token == g.token
  {
    var n := Next(next, |s.ds|);
    assert Prev(n, |s.ds|) == next;
  }

  lemma NetFramed(s: State, s': State, next: nat, t: Token)
    requires Shape(s) && Shape(s') && NetOk(s, next, t)
    requires s'.net == s.net && s'.lasts == s.lasts && |s'.ds| == |s.ds|
    ensures NetOk(s', next, t)
  {
  }

  lemma ProcessMoves(s: State, r: Ring.State, k: Copy, c: Choice, v: Visited)
    requires Refines(s, r) && k in s.net && k.dest == r.next && k.f.round == s.lasts[0].round
    requires !v.d.exited
    ensures var g := PassedFrame(k.dest, k.f, v.t);
            var next := Next(k.dest, |s.ds|);
            Refines(
              s.(ds := s.ds[k.dest := v.d], sent := s.sent + v.made, lasts := s.lasts[k.dest := g],
                 net := s.net + {Copy(next, g)}),
              Ring.State(r.ds[r.next := v.d], r.posted, r.sent + v.made, v.t, next))
  {
    AgeFacts(s, r, k);
    hide Rounds, NetOk, Carries;
    var j, f, next := k.dest, k.f, Next(k.dest, |s.ds|);
    var g := PassedFrame(j, f, v.t);
    SameRemainder(f.arq + 1, f.round + 1);
    PassedOn(s, j, r.t, g);
    CarriesSelf(v.t);
    var m := s.(lasts := s.lasts[j := g], net := s.net + {Copy(next, g)});
    NetFramed(m, m.(ds := s.ds[j := v.d], sent := s.sent + v.made), next, v.t);
  }

  lemma ProcessExits(s: State, r: Ring.State, j: nat, d: Daemon.State)
    requires Refines(s, r) && j == r.next
    ensures Refines(s.(ds := s.ds[j := d]), r.(ds := r.ds[r.next := d]))
  {
    NetFramed(s, s.(ds := s.ds[j := d]), r.next, r.t);
    hide NetOk, Rounds, Carries;
  }

  lemma ProcessRefines(s: State, r: Ring.State, k: Copy, c: Choice)
    requires Refines(s, r) && k in s.net && k.dest == r.next && k.f.round == s.lasts[0].round
    ensures var c' := c.(hurried := k.f.token != r.t);
            Refines(Process(s, k, c), Ring.Step(r, Ring.TokenVisit(c')))
  {
    var c' := c.(hurried := k.f.token != r.t);
    VisitSame(r.ds[k.dest], k.f.token, r.t, c);
    hide Visit, NetOk, Rounds, Carries, PassedFrame;
    var v := Visit(s.ds[k.dest], k.f.token, c.(hurried := false));
    if v.d.exited {
      ProcessExits(s, r, k.dest, v.d);
    } else {
      ProcessMoves(s, r, k, c, v);
      RingInv.VisitStep(r, c');
      assert |s.ds| == |r.ds|;
      hide Refines, Ring.Step;
    }
  }

  lemma CarriesSelf(t: Token)
    ensures Carries(t, t)
  {
  }

  lemma VisitSame(d: Daemon.State, token: Token, t: Token, c: Choice)
    requires Carries(token, t)
    ensures Alike(Visit(d, token, c.(hurried := false)), Visit(d, t, c.(hurried := token != t)))
  {
    hide Visit;
    if token != t {
      VisitHurried(d, t, c);
    }
  }

  lemma PostRefines(s: State, r: Ring.State, who: nat, m: Message)
    requires Refines(s, r)
    ensures Refines(Step(s, Post(who, m)), Ring.Step(r, Ring.Post(who, m)))
  {
    NetFramed(s, Step(s, Post(who, m)), r.next, r.t);
    hide NetOk, Rounds, Carries;
  }

  lemma ArriveRefines(s: State, r: Ring.State, who: nat, i: nat)
    requires Refines(s, r)
    ensures Refines(Step(s, Arrive(who, i)), Ring.Step(r, Ring.Arrive(who, i)))
  {
    NetFramed(s, Step(s, Arrive(who, i)), r.next, r.t);
    hide NetOk, Rounds, Carries, Receive;
  }

  lemma OneRingStep(r: Ring.State, a: Ring.Action)
    requires Ring.Shape(r)
    ensures Ring.Exec(r, [a]) == Ring.Step(r, a) && Ring.Exec(r, []) == r
  {
    assert [a][1..] == [];
  }

  lemma StepRefines(s: State, r: Ring.State, a: Action) returns (steps: seq<Ring.Action>)
    requires Refines(s, r)
    requires a.Deliver? && a.k in s.net && a.k.dest < |s.ds| ==> !Stale(s, a.k)
    ensures Refines(Step(s, a), Ring.Exec(r, steps))
  {
    assert Ring.Shape(r) && Shape(s);
    hide Stale, Age, Refines, Ring.Step, Ring.Exec, Process, Resend, Takes;
    match a
    case Post(who, m) =>
      PostRefines(s, r, who, m);
      steps := [Ring.Post(who, m)];
      OneRingStep(r, steps[0]);
    case Arrive(who, i) =>
      ArriveRefines(s, r, who, i);
      steps := [Ring.Arrive(who, i)];
      OneRingStep(r, steps[0]);
    case Hurry =>
      steps := [];
      OneRingStep(r, Ring.Arrive(0, 0));
      ResendRefines(s, r, 0, (s.lasts[0].retrans + 1) % RETRANS_MODULUS);
    case Deliver(k, c) =>
      steps := [];
      OneRingStep(r, Ring.Arrive(0, 0));
      if k in s.net && k.dest < |s.ds| && !s.ds[k.dest].exited {
        TakesIff(s, r, k);
        if Takes(s, k) {
          ProcessRefines(s, r, k, c);
          steps := [Ring.TokenVisit(c.(hurried := k.f.token != r.t))];
          OneRingStep(r, steps[0]);
        } else {
          ResendRefines(s, r, k.dest, k.f.retrans);
        }
      }
  }

  lemma RingConcat(r: Ring.State, a: seq<Ring.Action>, b: seq<Ring.Action>)
    requires Ring.Shape(r)
    ensures Ring.Exec(r, a + b) == Ring.Exec(Ring.Exec(r, a), b)
  {
    RingDefect.ExecConcat(r, a, b);
  }

  /** As long as no stale copy arrives, a run of the network is a run of the ring. */
  lemma {:induction false} RunRefines(s: State, r: Ring.State, run: seq<Action>) returns (steps: seq<Ring.Action>)
    requires Refines(s, r) && Punctual(s, run)
    ensures Refines(Exec(s, run), Ring.Exec(r, steps))
    decreases |run|
  {
    assert Ring.Shape(r);
    hide Refines, Stale, Step, Ring.Step;
    if run == [] {
      steps := [];
    } else {
      var first := StepRefines(s, r, run[0]);
      var rest := RunRefines(Step(s, run[0]), Ring.Exec(r, first), run[1..]);
      steps := first + rest;
      RingConcat(r, first, rest);
    }
  }

  /** Whatever a network state stands for that runs without stale copies from a good start: every guarantee
      of reachable ring states holds of it. */
  lemma PunctualRunsAreSafe(s: State, start: Ring.State, run: seq<Action>)
    requires RingSafety.Start(start) && RingSafety.GoodStart(start)
    requires Refines(s, start) && Punctual(s, run)
    ensures exists r :: RingTheorems.Reachable(r) && Refines(Exec(s, run), r)
  {
    assert Ring.Shape(start);
    hide Refines, RingSafety.Start, RingSafety.GoodStart, Punctual;
    var steps := RunRefines(s, start, run);
    assert RingTheorems.Reachable(Ring.Exec(start, steps));
  }

  /** The copy that the next daemon waits for is on its way, on a ring that runs. */
  ghost predicate Current(s: State, r: Ring.State, k: Copy) {
    Refines(s, r) && RingSafety.Running(r) && k in s.net && k.dest == r.next && k.f.round == s.lasts[0].round
  }

  lemma RunningAt(r: Ring.State)
    requires RingSafety.Running(r) && Ring.Shape(r)
    ensures !r.ds[r.next].exited
  {
    RingSafety.RunningRest(r);
    assert Ring.DaemonOk(r, r.next);
  }

  /** That copy is delivered, and the next one is on its way. */
  lemma DeliverCurrent(s: State, r: Ring.State, k: Copy, c: Choice) returns (r': Ring.State, k': Copy)
    requires Current(s, r, k)
    ensures var s' := Step(s, Deliver(k, c));
            && Current(s', r', k') && |s'.ds| == |s.ds| && r'.next == Next(r.next, |s.ds|) && s.net <= s'.net
            && s'.lasts[0].round == s.lasts[0].round + if r.next == 0 then 1 else 0
  {
    TakesIff(s, r, k);
    ProcessRefines(s, r, k, c);
    RunningAt(r);
    var c' := c.(hurried := k.f.token != r.t);
    r' := Ring.Step(r, Ring.TokenVisit(c'));
    RingSafety.StepKeepsRunning(r, Ring.TokenVisit(c'));
    VisitedAlike(s, r, k, c);
    hide Visit, NetOk, Rounds, RingSafety.Running;
    var v := Visit(s.ds[k.dest], k.f.token, c.(hurried := false));
    k' := Copy(Next(k.dest, |s.ds|), PassedFrame(k.dest, k.f, v.t));
  }

  lemma VisitedAlike(s: State, r: Ring.State, k: Copy, c: Choice)
    requires Current(s, r, k)
    ensures !Visit(s.ds[k.dest], k.f.token, c.(hurried := false)).d.exited
    ensures !Visit(r.ds[r.next], r.t, c.(hurried := k.f.token != r.t)).d.exited
  {
    var c' := c.(hurried := k.f.token != r.t);
    TakesIff(s, r, k);
    CurrentCarries(s, r, k);
    VisitSame(r.ds[k.dest], k.f.token, r.t, c);
    RingSafety.RunningRest(r);
    RingSafety.StepKeepsRunning(r, Ring.TokenVisit(c'));
    var r' := Ring.Step(r, Ring.TokenVisit(c'));
    RingSafety.RunningRest(r');
    hide Visit, NetOk, Rounds, RingSafety.Running;
    assert Ring.DaemonOk(r', r.next);
  }

  lemma CurrentCarries(s: State, r: Ring.State, k: Copy)
    requires Current(s, r, k)
    ensures Carries(k.f.token, r.t)
  {
  }

  lemma ExecOne(s: State, run: seq<Action>, a: Action)
    requires Shape(s)
    ensures Exec(s, run + [a]) == Step(Exec(s, run), a)
    decreases |run|
  {
    if run == [] {
      assert [] + [a] == [a] && [a][1..] == [];
    } else {
      assert (run + [a])[1..] == run[1..] + [a];
      ExecOne(Step(s, run[0]), run[1..], a);
    }
  }

  /** After m deliveries the token has gone m daemons on. */
  lemma {:induction false} Deliveries(s: State, r: Ring.State, k: Copy, c: Choice, m: nat)
    returns (run: seq<Action>, r': Ring.State, k': Copy)
    requires Current(s, r, k) && m <= |s.ds|
    ensures var s' := Exec(s, run);
            && Current(s', r', k') && s.net <= s'.net
            && r'.next == (if r.next + m < |s.ds| then r.next + m else r.next + m - |s.ds|)
            && s'.lasts[0].round == s.lasts[0].round + if (r.next == 0 && m > 0) || r.next + m > |s.ds| then 1 else 0
    decreases m
  {
    hide Current, Step;
    assert Shape(s) && Ring.Shape(r) && |r.ds| == |s.ds| by { CurrentShape(s, r, k); }
    if m == 0 {
      run, r', k' := [], r, k;
    } else {
      var before, q, h := Deliveries(s, r, k, c, m - 1);
      run := before + [Deliver(h, c)];
      ExecOne(s, before, Deliver(h, c));
      r', k' := DeliverCurrent(Exec(s, before), q, h, c);
    }
  }

  lemma CurrentShape(s: State, r: Ring.State, k: Copy)
    requires Current(s, r, k)
    ensures Shape(s) && Ring.Shape(r) && |r.ds| == |s.ds| && k in s.net
  {
  }

  lemma ExecTwice(s: State, a: seq<Action>, b: seq<Action>)
    requires Shape(s)
    ensures Exec(s, a + b) == Exec(Exec(s, a), b)
    decreases |b|
  {
    if b == [] {
      assert a + b == a;
    } else {
      var rest, z := b[..|b| - 1], b[|b| - 1];
      assert b == rest + [z] && a + b == (a + rest) + [z];
      ExecTwice(s, a, rest);
      ExecOne(s, a + rest, z);
      ExecOne(Exec(s, a), rest, z);
    }
  }

  /** After so many rounds the token is where it was. */
  lemma {:induction false} RoundTrips(s: State, r: Ring.State, k: Copy, c: Choice, rounds: nat)
    returns (run: seq<Action>, r': Ring.State, k': Copy)
    requires Current(s, r, k)
    ensures Shape(s)
    ensures var s' := Exec(s, run);
            && Current(s', r', k') && s.net <= s'.net && r'.next == r.next &&
               s'.lasts[0].round == s.lasts[0].round + rounds
    decreases rounds
  {
    hide Current, Step;
    CurrentShape(s, r, k);
    if rounds == 0 {
      run, r', k' := [], r, k;
    } else {
      var before, q, h := RoundTrips(s, r, k, c, rounds - 1);
      var mid := Exec(s, before);
      CurrentShape(mid, q, h);
      var last;
      last, r', k' := Deliveries(mid, q, h, c, |mid.ds|);
      run := before + last;
      ExecTwice(s, before, last);
    }
  }

  /** A stale copy is reached from every state in which the token is on its way: let 16 rounds pass, and the
      copy that was delivered at their beginning is taken once more. */
  lemma StaleReached(s: State, r: Ring.State, k: Copy, c: Choice) returns (run: seq<Action>)
    requires Current(s, r, k)
    ensures Shape(s) && k.dest < |s.ds|
    ensures var s' := Exec(s, run);
            && Stale(s', k) && !s'.ds[k.dest].exited
            && Step(s', Deliver(k, c)) == Process(s', k, c)
  {
    var r', k';
    run, r', k' := RoundTrips(s, r, k, c, ARQ_MODULUS);
    var s' := Exec(s, run);
    CurrentShape(s, r, k);
    CurrentShape(s', r', k');
    RunningAt(r');
    CurrentAge(s', r', k', k, s.lasts[0].round);
    hide Process, Step, Stale, RingSafety.Running;
    StaleTaken(s', r', k, c);
  }

  lemma CurrentAge(s: State, r: Ring.State, k: Copy, was: Copy, round: nat)
    requires Current(s, r, k) && was.dest == r.next && was.f.round == round && s.lasts[0].round == round + ARQ_MODULUS
    ensures was.dest < |s.ds| && Stale(s, was)
  {
  }
}
