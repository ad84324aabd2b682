/** The order in which tokens travel: the sorted list of the FORM2 token, the membership that every daemon
    builds from it, and the daemon that each sends its token to. */
module Cycle {

  /** A daemon, by its segment and its place in the segment of the configuration. */
  datatype Place = Place(seg: nat, index: nat)

  predicate Less(a: Place, b: Place) {
    a.seg < b.seg || (a.seg == b.seg && a.index < b.index)
  }

  predicate Leq(a: Place, b: Place) {
    !Less(b, a)
  }

  ghost predicate Sorted(s: seq<Place>) {
    forall i, j | 0 <= i < j < |s| :: Less(s[i], s[j])
  }

  ghost predicate Distinct(s: seq<Place>) {
    forall i, j | 0 <= i < j < |s| :: s[i] != s[j]
  }

  /** Smallest_member. */
  method SmallestMember(m: seq<Place>) returns (current: nat)
    requires m != []
    ensures current < |m| && forall i | 0 <= i < |m| :: Leq(m[current], m[i])
  {
    current := 0;
    for i := 1 to |m|
      invariant current < |m| && forall k | 0 <= k < i :: Leq(m[current], m[k])
    {
      if Less(m[i], m[current]) {
        current := i;
      }
    }
  }

  /** temp without its k-th member, the last one filling the place. */
  function Without(m: seq<Place>, k: nat): seq<Place>
    requires k < |m|
  {
    if k == |m| - 1 then m[..k] else m[..k] + [m[|m| - 1]] + m[k + 1..|m| - 1]
  }

  lemma WithoutUpdates(m: seq<Place>, k: nat)
    requires k < |m|
    ensures Without(m, k) == if k == |m| - 1 then m[..|m| - 1] else m[..|m| - 1][k := m[|m| - 1]]
  {
  }

  lemma WithoutCounts(m: seq<Place>, k: nat)
    requires k < |m|
    ensures multiset(Without(m, k)) + multiset{m[k]} == multiset(m)
  {
    var a, z := m[..k], m[|m| - 1];
    if k == |m| - 1 {
      assert m == a + [z];
    } else {
      var b := m[k + 1..|m| - 1];
      assert m == a + [m[k]] + b + [z];
    }
  }

  lemma WithoutDistinct(m: seq<Place>, k: nat)
    requires k < |m| && Distinct(m)
    ensures Distinct(Without(m, k)) && m[k] !in Without(m, k)
  {
    var left := Without(m, k);
    forall i | 0 <= i < |left|
      ensures left[i] == m[if i == k then |m| - 1 else i] && left[i] != m[k]
    {
    }
  }

  /** done is sorted, temp is what is left, and nothing left is smaller than anything done. */
  ghost predicate Sorting(done: seq<Place>, temp: seq<Place>, all: multiset<Place>) {
    && Sorted(done) && Distinct(temp)
    && multiset(done) + multiset(temp) == all
    && forall i, p | 0 <= i < |done| && p in temp :: Less(done[i], p)
  }

  lemma SortingStep(done: seq<Place>, temp: seq<Place>, all: multiset<Place>, k: nat, left: seq<Place>)
    requires Sorting(done, temp, all) && k < |temp| && forall i | 0 <= i < |temp| :: Leq(temp[k], temp[i])
    requires left == (if k == |temp| - 1 then temp[..|temp| - 1] else temp[..|temp| - 1][k := temp[|temp| - 1]])
    ensures Sorting(done + [temp[k]], left, all)
  {
    hide Without, Distinct, Sorted, Less;
    WithoutUpdates(temp, k);
    WithoutCounts(temp, k);
    WithoutDistinct(temp, k);
    var p := temp[k];
    LeftAbove(temp, k, left);
    assert multiset(done + [p]) == multiset(done) + multiset{p};
    SortedMore(done, p);
    assert forall i | 0 <= i < |done + [p]| :: (done + [p])[i] == if i < |done| then done[i] else p;
  }

  lemma LeftAbove(temp: seq<Place>, k: nat, left: seq<Place>)
    requires k < |temp| && left == Without(temp, k) && forall i | 0 <= i < |temp| :: Leq(temp[k], temp[i])
    requires Distinct(temp)
    ensures temp[k] in temp && forall q | q in left :: q in temp && Less(temp[k], q)
  {
    hide Without;
    WithoutCounts(temp, k);
    WithoutDistinct(temp, k);
    forall q | q in left
      ensures q in temp && Less(temp[k], q)
    {
      assert q in multiset(left) && q in multiset(temp);
      var i :| 0 <= i < |temp| && temp[i] == q;
      assert Leq(temp[k], q) && temp[k] != q;
    }
  }

  lemma SortedMore(done: seq<Place>, p: Place)
    requires Sorted(done) && forall i | 0 <= i < |done| :: Less(done[i], p)
    ensures Sorted(done + [p])
  {
  }

  /** Sort_members: the smallest one left is taken again and again, the last one filling its place. */
  method SortMembers(m: array<Place>)
    requires Distinct(m[..])
    modifies m
    ensures Sorted(m[..]) && multiset(m[..]) == multiset(old(m[..]))
  {
    hide Sorting, Distinct, Sorted;
    var temp := m[..];
    var i := 0;
    assert m[..0] == [];
    SortingStart(temp);
    while i < m.Length
      invariant i <= m.Length && |temp| == m.Length - i
      invariant Sorting(m[..i], temp, multiset(old(m[..])))
    {
      var k := SmallestMember(temp);
      var left := if k == |temp| - 1 then temp[..|temp| - 1] else temp[..|temp| - 1][k := temp[|temp| - 1]];
      SortingStep(m[..i], temp, multiset(old(m[..])), k, left);
      ghost var before := m[..i];
      m[i] := temp[k];
      assert m[..i + 1] == before + [temp[k]];
      temp := left;
      i := i + 1;
    }
    assert m[..i] == m[..] && temp == [];
    SortingEnd(m[..], multiset(old(m[..])));
  }

  lemma SortingStart(temp: seq<Place>)
    requires Distinct(temp)
    ensures Sorting([], temp, multiset(temp))
  {
  }

  lemma SortingEnd(done: seq<Place>, all: multiset<Place>)
    requires Sorting(done, [], all)
    ensures Sorted(done) && multiset(done) == all
  {
  }

  /** A membership: the daemons of each segment, in the order of the configuration. */
  ghost predicate MembershipOk(segs: seq<seq<Place>>) {
    && (forall s, i | 0 <= s < |segs| && 0 <= i < |segs[s]| :: segs[s][i].seg == s)
    && (forall s | 0 <= s < |segs| :: Sorted(segs[s]))
  }

  ghost predicate In(segs: seq<seq<Place>>, p: Place) {
    p.seg < |segs| && p in segs[p.seg]
  }

  /** Read_form2 builds the membership by appending the members of the list to their segments. */
  method BuildMembership(list: seq<Place>, n: nat) returns (segs: seq<seq<Place>>)
    requires Sorted(list) && forall p | p in list :: p.seg < n
    ensures |segs| == n && MembershipOk(segs) && forall p :: In(segs, p) <==> p in list
  {
    segs := seq(n, _ => []);
    for k := 0 to |list|
      invariant |segs| == n && MembershipOk(segs) && forall p :: In(segs, p) <==> p in list[..k]
    {
      var p := list[k];
      assert forall q | In(segs, q) :: Less(q, p) by {
        forall q | In(segs, q)
          ensures Less(q, p)
        {
          assert q in list[..k];
        }
      }
      assert forall q | q in segs[p.seg] :: In(segs, q);
      segs := segs[p.seg := segs[p.seg] + [p]];
      assert list[..k + 1] == list[..k] + [p];
    }
    assert list[..|list|] == list;
  }

  /** x comes after me, and nobody between; or me is the last one and x the first. */
  ghost predicate IsNext(segs: seq<seq<Place>>, me: Place, x: Place) {
    && In(segs, x)
    && if exists p :: In(segs, p) && Less(me, p) then
         Less(me, x) && forall p | In(segs, p) && Less(me, p) :: Leq(x, p)
       else
         forall p | In(segs, p) :: Leq(x, p)
  }

  /** The segments, other than mine, with somebody; and how many of them come before mine. */
  ghost predicate Collected(segs: seq<seq<Place>>, mySeg: nat, i: nat, at: seq<nat>, next: nat) {
    && (forall k | 0 <= k < |at| :: at[k] < |segs| && at[k] != mySeg && segs[at[k]] != [])
    && (forall k, l | 0 <= k < l < |at| :: at[k] < at[l])
    && (forall s | 0 <= s < i <= |segs| && s != mySeg && segs[s] != [] :: s in at)
    && (forall k | 0 <= k < |at| :: at[k] < i)
    && next <= |at|
    && (i > mySeg ==> (forall k | 0 <= k < |at| :: k < next <==> at[k] < mySeg))
  }

  lemma CollectStep(segs: seq<seq<Place>>, mySeg: nat, i: nat, at: seq<nat>, next: nat)
    requires Collected(segs, mySeg, i, at, next) && i < |segs|
    ensures Collected(segs, mySeg, i + 1,
                      if i != mySeg && segs[i] != [] then at + [i] else at,
                      if i == mySeg then |at| else next)
  {
  }

  /** The loop of Net_set_membership over the segments. */
  method Addresses(segs: seq<seq<Place>>, mySeg: nat)
      returns (sendAddress: seq<Place>, myNextIndex: nat, ghost at: seq<nat>)
    requires mySeg < |segs|
    ensures Collected(segs, mySeg, |segs|, at, myNextIndex)
    ensures |at| == |sendAddress| && forall k | 0 <= k < |at| ::
            at[k] < |segs| && segs[at[k]] != [] && sendAddress[k] == segs[at[k]][0]
  {
    hide Collected;
    sendAddress, myNextIndex, at := [], 0, [];
    CollectStart(segs, mySeg);
    for i := 0 to |segs|
      invariant Collected(segs, mySeg, i, at, myNextIndex)
      invariant |at| == |sendAddress| && forall k | 0 <= k < |at| ::
                at[k] < |segs| && segs[at[k]] != [] && sendAddress[k] == segs[at[k]][0]
    {
      CollectStep(segs, mySeg, i, at, myNextIndex);
      if i == mySeg {
        myNextIndex := |sendAddress|;
      } else if |segs[i]| > 0 {
        sendAddress := sendAddress + [segs[i][0]];
        at := at + [i];
      }
    }
  }

  lemma CollectStart(segs: seq<seq<Place>>, mySeg: nat)
    ensures Collected(segs, mySeg, 0, [], 0)
  {
  }

  lemma CollectedFirst(segs: seq<seq<Place>>, mySeg: nat, at: seq<nat>)
    requires mySeg < |segs| && segs[mySeg] != [] && Collected(segs, mySeg, |segs|, at, |at|)
    ensures forall t | mySeg < t < |segs| :: segs[t] == []
    ensures var s := if at == [] then mySeg else at[0];
            s < |segs| && segs[s] != [] && forall t | 0 <= t < s :: segs[t] == []
  {
  }

  lemma CollectedNext(segs: seq<seq<Place>>, mySeg: nat, at: seq<nat>, next: nat)
    requires mySeg < |segs| && next < |at| && Collected(segs, mySeg, |segs|, at, next)
    ensures mySeg < at[next] < |segs| && segs[at[next]] != [] && forall t | mySeg < t < at[next] :: segs[t] == []
  {
  }

  /** Net_set_membership: whom a daemon sends its token to. */
  method SetMembership(segs: seq<seq<Place>>, mySeg: nat, myIndex: nat) returns (tokenAddress: Place)
    requires MembershipOk(segs) && mySeg < |segs| && myIndex < |segs[mySeg]|
    ensures IsNext(segs, segs[mySeg][myIndex], tokenAddress)
  {
    hide IsNext, MembershipOk, Collected;
    var sendAddress, myNextIndex, at := Addresses(segs, mySeg);
    CollectedBound(segs, mySeg, at, myNextIndex);
    if myIndex < |segs[mySeg]| - 1 {
      tokenAddress := segs[mySeg][myIndex + 1];
      NextInSegment(segs, mySeg, myIndex);
    } else if |sendAddress| == 0 {
      tokenAddress := segs[mySeg][0];
      CollectedFirst(segs, mySeg, at);
      FirstIsNext(segs, mySeg, myIndex, mySeg);
    } else if |sendAddress| == myNextIndex {
      tokenAddress := sendAddress[0];
      CollectedFirst(segs, mySeg, at);
      FirstIsNext(segs, mySeg, myIndex, at[0]);
    } else {
      tokenAddress := sendAddress[myNextIndex];
      CollectedNext(segs, mySeg, at, myNextIndex);
      LaterIsNext(segs, mySeg, myIndex, at[myNextIndex]);
    }
  }

  lemma CollectedBound(segs: seq<seq<Place>>, mySeg: nat, at: seq<nat>, next: nat)
    requires Collected(segs, mySeg, |segs|, at, next)
    ensures next <= |at|
  {
  }

  lemma NextInSegment(segs: seq<seq<Place>>, s: nat, i: nat)
    requires MembershipOk(segs) && s < |segs| && i + 1 < |segs[s]|
    ensures IsNext(segs, segs[s][i], segs[s][i + 1])
  {
    var me, x := segs[s][i], segs[s][i + 1];
    assert In(segs, x) && Less(me, x);
    forall p | In(segs, p) && Less(me, p)
      ensures Leq(x, p)
    {
      if p.seg == s {
        var k :| 0 <= k < |segs[s]| && segs[s][k] == p;
      }
    }
  }

  /** me is the last of its segment and nobody is in a later one; segment s is the first with somebody. */
  lemma FirstIsNext(segs: seq<seq<Place>>, mySeg: nat, i: nat, s: nat)
    requires MembershipOk(segs) && mySeg < |segs| && i + 1 == |segs[mySeg]|
    requires forall t | mySeg < t < |segs| :: segs[t] == []
    requires s < |segs| && segs[s] != [] && forall t | 0 <= t < s :: segs[t] == []
    ensures IsNext(segs, segs[mySeg][i], segs[s][0])
  {
    var me, x := segs[mySeg][i], segs[s][0];
    assert In(segs, x);
    forall p | In(segs, p)
      ensures !Less(me, p) && Leq(x, p)
    {
      var k :| 0 <= k < |segs[p.seg]| && segs[p.seg][k] == p;
    }
  }

  /** me is the last of its segment, and segment s the next one with somebody. */
  lemma LaterIsNext(segs: seq<seq<Place>>, mySeg: nat, i: nat, s: nat)
    requires MembershipOk(segs) && mySeg < s < |segs| && i + 1 == |segs[mySeg]|
    requires segs[s] != [] && forall t | mySeg < t < s :: segs[t] == []
    ensures IsNext(segs, segs[mySeg][i], segs[s][0])
  {
    var me, x := segs[mySeg][i], segs[s][0];
    assert In(segs, x) && Less(me, x);
    forall p | In(segs, p) && Less(me, p)
      ensures Leq(x, p)
    {
      var k :| 0 <= k < |segs[p.seg]| && segs[p.seg][k] == p;
    }
  }

  /** Everybody's token address together: the token goes through the sorted list from its first member to its
      last, and back. */
  lemma OneCycle(list: seq<Place>, segs: seq<seq<Place>>, k: nat, x: Place)
    requires Sorted(list) && k < |list| && forall p :: In(segs, p) <==> p in list
    requires IsNext(segs, list[k], x)
    ensures x == list[if k + 1 == |list| then 0 else k + 1]
  {
    assert x in list;
    var j :| 0 <= j < |list| && list[j] == x;
    if k + 1 < |list| {
      assert In(segs, list[k + 1]) && Less(list[k], list[k + 1]);
    } else {
      forall p | In(segs, p)
        ensures !Less(list[k], p)
      {
        var i :| 0 <= i < |list| && list[i] == p;
      }
      assert In(segs, list[0]);
    }
  }

  /** Conf_leader: the first of the first segment with somebody. */
  method ConfLeader(segs: seq<seq<Place>>) returns (leader: Place)
    requires MembershipOk(segs) && exists p :: In(segs, p)
    ensures In(segs, leader) && forall p | In(segs, p) :: Leq(leader, p)
  {
    ghost var q :| In(segs, q);
    var i := 0;
    while i < |segs|
      invariant i <= q.seg && forall t | 0 <= t < i :: segs[t] == []
    {
      if |segs[i]| > 0 {
        leader := segs[i][0];
        LeastOf(segs, i);
        return;
      }
      i := i + 1;
    }
  }

  lemma LeastOf(segs: seq<seq<Place>>, s: nat)
    requires MembershipOk(segs) && s < |segs| && segs[s] != [] && forall t | 0 <= t < s :: segs[t] == []
    ensures In(segs, segs[s][0]) && forall p | In(segs, p) :: Leq(segs[s][0], p)
  {
    forall p | In(segs, p)
      ensures Leq(segs[s][0], p)
    {
      var k :| 0 <= k < |segs[p.seg]| && segs[p.seg][k] == p;
    }
  }

  /** Conf_last: the last of the last segment with somebody. */
  method ConfLast(segs: seq<seq<Place>>) returns (last: Place)
    requires MembershipOk(segs) && exists p :: In(segs, p)
    ensures In(segs, last) && forall p | In(segs, p) :: Leq(p, last)
  {
    ghost var q :| In(segs, q);
    var i := |segs|;
    while i > 0
      invariant q.seg < i <= |segs| && forall t | i <= t < |segs| :: segs[t] == []
    {
      i := i - 1;
      if |segs[i]| > 0 {
        last := segs[i][|segs[i]| - 1];
        GreatestOf(segs, i);
        return;
      }
    }
  }

  lemma GreatestOf(segs: seq<seq<Place>>, s: nat)
    requires MembershipOk(segs) && s < |segs| && segs[s] != [] && forall t | s < t < |segs| :: segs[t] == []
    ensures var last := segs[s][|segs[s]| - 1]; In(segs, last) && forall p | In(segs, p) :: Leq(p, last)
  {
    forall p | In(segs, p)
      ensures Leq(p, segs[s][|segs[s]| - 1])
    {
      var k :| 0 <= k < |segs[p.seg]| && segs[p.seg][k] == p;
    }
  }

  /** The members of a sorted list: its first is Conf_leader, its last Conf_last. */
  lemma Ends(list: seq<Place>, segs: seq<seq<Place>>, leader: Place, last: Place)
    requires Sorted(list) && list != [] && forall p :: In(segs, p) <==> p in list
    requires In(segs, leader) && forall p | In(segs, p) :: Leq(leader, p)
    requires In(segs, last) && forall p | In(segs, p) :: Leq(p, last)
    ensures leader == list[0] && last == list[|list| - 1]
  {
    assert In(segs, list[0]) && In(segs, list[|list| - 1]);
    var i :| 0 <= i < |list| && list[i] == leader;
    var j :| 0 <= j < |list| && list[j] == last;
  }

  /** The members that the FORM2 token carries: all of them, the first num of which it has visited. */
  datatype Form2 = Form2(members: seq<Place>, num: nat, pending: int)

  /** What a daemon does with a FORM2 token: nothing, or it builds the membership and sends the token on, or, as
      the last one, the first regular token. */
  datatype Sent = Ignored | FormOn(m: Form2, to: Place) | Regular(to: Place)

  ghost predicate Form2Ok(m: Form2) {
    Sorted(m.members) && m.num + m.pending == |m.members|
  }

  /** What the daemon ought to do: only the member whose turn it is takes the token. */
  function Hop(me: Place, m: Form2): Sent
    requires m.num + m.pending == |m.members|
  {
    if m.pending <= 0 || m.members[m.num] != me then Ignored
    else if m.pending == 1 then Regular(m.members[0])
    else FormOn(Form2(m.members, m.num + 1, m.pending - 1), m.members[m.num + 1])
  }

  /** Read_form2 as far as the members go, with the address that the membership gives; n is the number of
      segments. */
  method ReadForm2(me: Place, m: Form2, n: nat) returns (segs: seq<seq<Place>>, s: Sent)
    requires Form2Ok(m) && forall p | p in m.members :: p.seg < n
    ensures s == Hop(me, m)
    ensures !s.Ignored? ==> |segs| == n && MembershipOk(segs) && forall p :: In(segs, p) <==> p in m.members
  {
    hide IsNext, MembershipOk, Sorted, In;
    segs := [];
    if m.pending <= 0 || m.members[m.num] != me {
      return segs, Ignored;
    }
    segs := BuildMembership(m.members, n);
    var myIndex := IndexInSeg(segs, me);
    var to := SetMembership(segs, me.seg, myIndex);
    OneCycle(m.members, segs, m.num, to);
    var leader := ConfLeader(segs);
    var last := ConfLast(segs);
    Ends(m.members, segs, leader, last);
    LastIs(m.members, m.num);
    if last != me {
      s := FormOn(Form2(m.members, m.num + 1, m.pending - 1), to);
    } else {
      s := Regular(to);
    }
  }

  lemma LastIs(list: seq<Place>, k: nat)
    requires Sorted(list) && k < |list|
    ensures list[k] == list[|list| - 1] <==> k + 1 == |list|
  {
  }

  /** Conf_id_in_seg. */
  method IndexInSeg(segs: seq<seq<Place>>, me: Place) returns (i: nat)
    requires In(segs, me)
    ensures i < |segs[me.seg]| && segs[me.seg][i] == me
  {
    i := 0;
    while segs[me.seg][i] != me
      invariant i < |segs[me.seg]| && me in segs[me.seg][i..]
      decreases |segs[me.seg]| - i
    {
      assert segs[me.seg][i..] == [segs[me.seg][i]] + segs[me.seg][i + 1..];
      i := i + 1;
    }
  }

  lemma SortedPlaces(s: seq<Place>)
    requires Sorted(s) && s != []
    ensures forall p :: p in s[..|s| - 1] <==> p in s && Less(p, s[|s| - 1])
  {
    assert s == s[..|s| - 1] + [s[|s| - 1]];
  }

  lemma {:induction false} PlacesUnique(a: seq<Place>, b: seq<Place>)
    requires Sorted(a) && Sorted(b) && forall p :: p in a <==> p in b
    ensures a == b
  {
    if a == [] || b == [] {
      FirstIn(a);
      FirstIn(b);
    } else {
      var a', x, b', y := a[..|a| - 1], a[|a| - 1], b[..|b| - 1], b[|b| - 1];
      assert x in a && y in b;
      SortedPlaces(a);
      SortedPlaces(b);
      assert x == y;
      forall p
        ensures p in a' <==> p in b'
      {
        assert p in a <==> p in b;
      }
      PlacesUnique(a', b');
      assert a == a' + [x] && b == b' + [y];
    }
  }

  lemma FirstIn(s: seq<Place>)
    ensures s == [] || s[0] in s
  {
  }

  /** A membership is determined by who is in it. */
  lemma MembershipUnique(a: seq<seq<Place>>, b: seq<seq<Place>>)
    requires |a| == |b| && MembershipOk(a) && MembershipOk(b) && forall p :: In(a, p) <==> In(b, p)
    ensures a == b
  {
    forall s | 0 <= s < |a|
      ensures a[s] == b[s]
    {
      forall p
        ensures p in a[s] <==> p in b[s]
      {
        assert p in a[s] ==> In(a, p);
        assert p in b[s] ==> In(b, p);
      }
      PlacesUnique(a[s], b[s]);
    }
  }

  /** The daemons that take the token from this one on, and whom the last one of them sends the regular token. */
  function Hops(to: Place, m: Form2): (seq<Place>, seq<Place>)
    requires m.num + m.pending == |m.members|
    decreases |m.members| - m.num
  {
    match Hop(to, m)
    case Ignored => ([], [])
    case Regular(next) => ([to], [next])
    case FormOn(m', next) =>
      var (rest, last) := Hops(next, m');
      ([to] + rest, last)
  }

  lemma {:induction false} HopsFrom(list: seq<Place>, k: nat)
    requires k < |list|
    ensures Hops(list[k], Form2(list, k, |list| - k)) == (list[k..], [list[0]])
    decreases |list| - k
  {
    assert list[k..] == [list[k]] + list[k + 1..];
    if k + 1 < |list| {
      HopsFrom(list, k + 1);
      assert Hop(list[k], Form2(list, k, |list| - k)) == FormOn(Form2(list, k + 1, |list| - (k + 1)), list[k + 1]);
    } else {
      assert list[k..] == [list[k]];
      assert Hop(list[k], Form2(list, k, |list| - k)) == Regular(list[0]);
    }
  }

  /** The FORM2 token that leaves for the first member passes every member, each in its turn with the check
      passed and nobody else; the last one sends the first regular token, and sends it to the first.  A daemon whose
      turn it is not ignores the token. */
  lemma Form2Walk(list: seq<Place>, k: nat, other: Place)
    requires k < |list|
    ensures Hops(list[0], Form2(list, 0, |list|)) == (list, [list[0]])
    ensures Hop(other, Form2(list, k, |list| - k)).Ignored? <==> other != list[k]
  {
    HopsFrom(list, 0);
    assert list[0..] == list;
  }
}
