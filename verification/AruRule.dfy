/** The all-received-up-to rule of the regular token, on the counters it reads and writes.

    A ring of n daemons is visited in the order 0, 1, .., n-1, 0, ..; daemons are named by their
    position on the ring.  `next` is the daemon the token is travelling to. */
module AruRule {

  /** What the rule needs of one daemon: My_aru, Highest_seq, Set_aru, Last_token->aru and Aru. */
  datatype View = View(my: nat, hi: nat, setAru: int, last: nat, aru: nat)

  /** The fields of the token that the rule needs: aru, aru_last_id and seq. */
  datatype Mark = Mark(aru: nat, lastId: int, seqNo: nat)

  function Min(a: int, b: int): int {
    if a < b then a else b
  }

  /** The token's new aru and aru_last_id and the daemon's new Set_aru. */
  function Rule(m: Mark, me: nat, my: nat, hi: nat, setAru: int): (nat, int, int) {
    if m.aru == setAru || m.lastId == me || m.aru == m.seqNo then
      (my, me, if my < hi then my else -1)
    else if m.aru > my then
      (my, me, my)
    else
      (m.aru, m.lastId, -1)
  }

  /** A whole token visit as the rule sees it: my and hi are the counters after new packets were sent. */
  function VisitView(v: View, m: Mark, me: nat, my: nat, hi: nat): (View, Mark) {
    var (aru, lastId, setAru) := Rule(m, me, my, hi, v.setAru);
    (View(my, hi, setAru, aru, Min(v.last, aru)), Mark(aru, lastId, hi))
  }

  /** Counters after new packets were numbered from seq+1 on and stored: having everything up to
      seq then means having everything. */
  predicate Sends(v: View, m: Mark, my: nat, hi: nat) {
    && v.my <= my <= hi && m.seqNo <= hi
    && (my >= m.seqNo ==> my == hi)
  }

  function Next(p: nat, n: nat): nat {
    if p + 1 == n then 0 else p + 1
  }

  /** 0 for the daemon visited least recently, n-1 for the daemon visited last. */
  function Rank(j: int, next: nat, n: nat): int {
    if j >= next then j - next else j - next + n
  }

  ghost predicate Bounds(v: seq<View>, m: Mark) {
    && m.aru <= m.seqNo
    && forall j | 0 <= j < |v| ::
         && v[j].aru <= v[j].last <= v[j].my <= v[j].hi <= m.seqNo
         && -1 <= v[j].setAru <= v[j].my
         && v[j].aru <= m.aru
  }

  /** Of two daemons, the one visited later let the token go with at least as high an aru,
      unless the token has come down since. */
  ghost predicate Ordered(v: seq<View>, m: Mark, next: nat) {
    forall u, k | 0 <= u < |v| && 0 <= k < |v| && Rank(u, next, |v|) < Rank(k, next, |v|) ::
      (v[u].last <= v[k].last || m.aru <= v[k].last) && v[u].aru <= v[k].aru
  }

  /** Aru never exceeds what any daemon last let go. */
  ghost predicate Below(v: seq<View>) {
    forall j, k | 0 <= j < |v| && 0 <= k < |v| :: v[j].aru <= v[k].last
  }

  /** Set_aru of the daemon that set the aru last, of those visited after it and of those before it.
      With at most two daemons a Set_aru equal to a fully caught-up aru is harmless. */
  ghost predicate SetOk(v: seq<View>, m: Mark, next: nat, j: int)
    requires 0 <= j < |v|
  {
    var n := |v|;
    if 0 <= m.lastId < n then
      var rl := Rank(m.lastId, next, n);
      var rj := Rank(j, next, n);
      && (rj >= rl ==> v[j].last == m.aru)
      && (rj > rl ==> v[j].setAru == -1)
      && (rj == rl ==> v[j].setAru == -1 || (v[j].setAru == m.aru && (m.aru < m.seqNo || n <= 2)))
      && (rj < rl ==> v[j].setAru == -1 || v[j].setAru > m.aru || (n <= 2 && m.aru == m.seqNo))
    else
      v[j].setAru == -1
  }

  ghost predicate Inv(v: seq<View>, m: Mark, next: nat) {
    && next < |v|
    && Bounds(v, m)
    && Ordered(v, m, next)
    && Below(v)
    && forall j | 0 <= j < |v| :: SetOk(v, m, next, j)
  }

  /** Once the visited daemon may raise the aru, nobody else has a Set_aru pending and everybody
      had let go at least the token's aru. */
  lemma RaiseFacts(v: seq<View>, m: Mark, next: nat)
    requires Inv(v, m, next)
    requires m.aru == v[next].setAru || m.lastId == next || m.aru == m.seqNo
    ensures |v| > 2 || m.lastId == next ==> forall k | 0 <= k < |v| && k != next :: v[k].setAru == -1
    ensures m.lastId == next || m.aru == m.seqNo
    ensures m.lastId == next ==> forall k | 0 <= k < |v| :: v[k].last == m.aru
  {
    var n := |v|;
    assert SetOk(v, m, next, next);
    forall k | 0 <= k < n && k != next && (n > 2 || m.lastId == next)
      ensures v[k].setAru == -1
    {
      assert SetOk(v, m, next, k);
      assert Rank(k, next, n) > Rank(next, next, n) == 0;
    }
    if m.lastId == next {
      forall k | 0 <= k < n
        ensures v[k].last == m.aru
      {
        assert SetOk(v, m, next, k);
        assert Rank(k, next, n) >= Rank(next, next, n) == 0;
      }
    }
  }

  /** The new Aru is at most what every other daemon last let go. */
  lemma NewAruBelow(v: seq<View>, m: Mark, next: nat, my: nat, hi: nat)
    requires Inv(v, m, next)
    requires Sends(v[next], m, my, hi)
    ensures forall k | 0 <= k < |v| && k != next :: VisitView(v[next], m, next, my, hi).0.aru <= v[k].last
    ensures forall k | 0 <= k < |v| :: v[k].aru <= VisitView(v[next], m, next, my, hi).0.aru
  {
    if m.aru == v[next].setAru || m.lastId == next || m.aru == m.seqNo {
      RaiseFacts(v, m, next);
    }
    forall k | 0 <= k < |v| && k != next
      ensures VisitView(v[next], m, next, my, hi).0.aru <= v[k].last
    {
      assert Rank(next, next, |v|) < Rank(k, next, |v|);
    }
  }

  lemma OrderedAfter(v: seq<View>, m: Mark, next: nat, my: nat, hi: nat)
    requires Inv(v, m, next)
    requires Sends(v[next], m, my, hi)
    ensures var (w, m') := VisitView(v[next], m, next, my, hi);
            Ordered(v[next := w], m', Next(next, |v|))
  {
    var n := |v|;
    var (w, m') := VisitView(v[next], m, next, my, hi);
    var v' := v[next := w];
    var next' := Next(next, n);
    if m.aru == v[next].setAru || m.lastId == next || m.aru == m.seqNo {
      RaiseFacts(v, m, next);
    }
    NewAruBelow(v, m, next, my, hi);
    forall u, k | 0 <= u < n && 0 <= k < n && Rank(u, next', n) < Rank(k, next', n)
      ensures (v'[u].last <= v'[k].last || m'.aru <= v'[k].last) && v'[u].aru <= v'[k].aru
    {
      if u != next && k != next {
        assert Rank(u, next, n) < Rank(k, next, n);
      }
    }
  }

  lemma SetOkAfter(v: seq<View>, m: Mark, next: nat, my: nat, hi: nat, j: nat)
    requires Inv(v, m, next) && j < |v|
    requires Sends(v[next], m, my, hi)
    ensures var (w, m') := VisitView(v[next], m, next, my, hi);
            SetOk(v[next := w], m', Next(next, |v|), j)
  {
    var n := |v|;
    var (w, m') := VisitView(v[next], m, next, my, hi);
    var next' := Next(next, n);
    assert Rank(next, next', n) == n - 1;
    assert SetOk(v, m, next, j);
    if m.aru == v[next].setAru || m.lastId == next || m.aru == m.seqNo {
      RaiseFacts(v, m, next);
    } else if 0 <= m.lastId < n {
      assert Rank(m.lastId, next', n) == Rank(m.lastId, next, n) - 1;
      assert j != next ==> Rank(j, next', n) == Rank(j, next, n) - 1;
    }
  }

  /** One visit keeps the invariant; the Aru computed is at most what every daemon let go and had
      received, and at least every Aru computed before it by anyone. */
  lemma VisitKeepsInv(v: seq<View>, m: Mark, next: nat, my: nat, hi: nat)
    requires Inv(v, m, next)
    requires Sends(v[next], m, my, hi)
    ensures var (w, m') := VisitView(v[next], m, next, my, hi);
            && Inv(v[next := w], m', Next(next, |v|))
            && (forall k | 0 <= k < |v| :: v[k].aru <= w.aru)
            && (forall k | 0 <= k < |v| && k != next :: w.aru <= v[k].my)
            && w.aru <= my
  {
    var (w, m') := VisitView(v[next], m, next, my, hi);
    NewAruBelow(v, m, next, my, hi);
    OrderedAfter(v, m, next, my, hi);
    var v' := v[next := w];
    forall j | 0 <= j < |v'|
      ensures SetOk(v', m', Next(next, |v|), j)
    {
      SetOkAfter(v, m, next, my, hi, j);
    }
  }

  /** Receiving packets only raises My_aru and Highest_seq of one daemon, up to what was sent. */
  lemma ReceiveKeepsInv(v: seq<View>, m: Mark, next: nat, j: nat, my: nat, hi: nat)
    requires Inv(v, m, next) && j < |v|
    requires v[j].my <= my <= hi <= m.seqNo && v[j].hi <= hi
    ensures Inv(v[j := v[j].(my := my, hi := hi)], m, next)
  {
    var v' := v[j := v[j].(my := my, hi := hi)];
    forall k | 0 <= k < |v|
      ensures SetOk(v', m, next, k)
    {
      assert SetOk(v, m, next, k);
    }
  }

  /** All daemons have just entered OP: every counter is 0 and no Set_aru is pending. */
  ghost predicate Zeroed(v: seq<View>) {
    forall j | 0 <= j < |v| :: v[j] == View(0, 0, -1, 0, 0)
  }

  /** The first visit in OP.  The token still carries an aru of the recovery phase; the rule starts
      well when that aru is 0, when the visited daemon set it, or with at most two daemons. */
  lemma FirstVisit(v: seq<View>, m: Mark, next: nat, hi: nat)
    requires next < |v| && Zeroed(v) && m.seqNo == 0
    requires m.aru == 0 || m.lastId == next || (|v| <= 2 && m.aru > hi)
    ensures var (w, m') := VisitView(v[next], m, next, hi, hi);
            Inv(v[next := w], m', Next(next, |v|)) && w.aru == 0
  {
    var n := |v|;
    var (w, m') := VisitView(v[next], m, next, hi, hi);
    var v' := v[next := w];
    assert forall j | 0 <= j < n :: Rank(j, Next(next, n), n) <= n - 1 == Rank(next, Next(next, n), n);
  }
}
