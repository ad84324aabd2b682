/** G_handle_groups: the gathering of the GROUPS messages of all synced sets after a membership change, and how
    the count of the daemons represented tells when the last message is in. */
module GroupsGather {
  import opened GroupsBuf
  import opened GroupsMerge

  /** A GROUPS message: the membership it is of, its sender (a place in the configuration, or negative if the
      sender is not in it), whether it is AGREED, the size of the sender's synced set, and its buffer. */
  datatype Mess = Mess(memb: MembId, rep: int, agreed: bool, size: nat, buf: Buf)

  /** The messages of one representative, the latest first. */
  datatype Link = Link(rep: int, msgs: seq<Buf>, complete: bool)

  /** gathering is false in GOP. */
  datatype State = State(table: Table, synced: seq<int>, links: seq<Link>, own: bool, numMess: nat, numDaemons: nat,
      gathering: bool, exited: bool)

  /** The index of the representative's messages, or the number of links. */
  function Find(links: seq<Link>, rep: int): (k: nat)
    ensures k <= |links| && (k < |links| ==> links[k].rep == rep)
  {
    if links == [] then 0
    else if links[0].rep == rep then 0
    else Find(links[1..], rep) + 1
  }

  function AddTo(links: seq<Link>, m: Mess): seq<Link> {
    var k := Find(links, m.rep);
    if k == |links| then [Link(m.rep, [m.buf], m.agreed)] + links
    else links[k := Link(m.rep, [m.buf] + links[k].msgs, links[k].complete || m.agreed)]
  }

  /** A message of this membership is counted; those of the own set are not kept. */
  function Gather(s: State, m: Mess): State {
    var t := s.(numMess := s.numMess + 1, numDaemons := if m.agreed then s.numDaemons + m.size else s.numDaemons);
    if s.synced != [] && m.rep == s.synced[0] then t.(own := s.own || m.agreed) else t.(links := AddTo(s.links, m))
  }

  /** The synced set that the messages bring: that of the last one with the first-message flag. */
  function SsetOf(msgs: seq<Buf>, sset: seq<int>): seq<int> {
    if msgs == [] then sset else
      var last := msgs[|msgs| - 1];
      if last.first then last.synced else SsetOf(msgs[..|msgs| - 1], sset)
  }

  /** Two sorted lists merged. */
  function Merged(a: seq<int>, b: seq<int>): seq<int>
    decreases |a| + |b|
  {
    if a == [] then b
    else if b == [] then a
    else if a[|a| - 1] > b[|b| - 1] then Merged(a[..|a| - 1], b) + [a[|a| - 1]]
    else Merged(a, b[..|b| - 1]) + [b[|b| - 1]]
  }

  /** A daemon's table and synced set while the links are read, the synced set last read, and the fatal exit on
      synced sets that meet. */
  datatype Reading = Reading(table: Table, synced: seq<int>, sset: seq<int>, exited: bool)

  function ReadLink(a: Reading, l: Link): Reading {
    if a.exited then a else
      var sset := SsetOf(l.msgs, a.sset);
      var meet := !Disjoint(a.synced, sset);
      Reading(AddRecs(a.table, AllGroups(l.msgs)), if meet then a.synced else Merged(a.synced, sset), sset, meet)
  }

  function ReadLinks(a: Reading, links: seq<Link>): Reading {
    if links == [] then a else ReadLink(ReadLinks(a, links[..|links| - 1]), links[|links| - 1])
  }

  /** G_compute_and_notify. */
  function Computed(s: State, reg: MembId): State {
    var a := ReadLinks(Reading(s.table, s.synced, [], false), s.links);
    if a.exited then s.(exited := true) else State(Notify(a.table, reg), a.synced, [], false, 0, 0, false, false)
  }

  /** G_handle_groups; size is the size of the membership. */
  function Handled(s: State, m: Mess, reg: MembId, size: nat): State {
    if s.exited then s
    else if !s.gathering then s.(exited := true)
    else if m.memb != reg || m.rep < 0 then s
    else
      var t := Gather(s, m);
      if t.numDaemons != size then t else Computed(t, reg)
  }

  lemma {:induction false} MergedIs(a: seq<int>, b: seq<int>)
    requires Sorted(a) && Sorted(b) && Disjoint(a, b)
    ensures Sorted(Merged(a, b)) && forall x :: x in Merged(a, b) <==> x in a || x in b
    decreases |a| + |b|
  {
    if a != [] && b != [] {
      var x, y := a[|a| - 1], b[|b| - 1];
      SortedLast(a);
      SortedLast(b);
      if x > y {
        MergedIs(a[..|a| - 1], b);
        MergedAppend(Merged(a[..|a| - 1], b), x);
      } else {
        assert x in a && y in b;
        MergedIs(a, b[..|b| - 1]);
        MergedAppend(Merged(a, b[..|b| - 1]), y);
      }
    }
  }

  lemma MergedAppend(s: seq<int>, x: int)
    requires Sorted(s) && forall y | y in s :: y < x
    ensures Sorted(s + [x])
  {
    assert s != [] ==> s[|s| - 1] in s;
    SortedAppend(s, x);
  }

  /** A synced set as its leader sends it: its daemons, its table and the buffers made of the table, of which the
      first made is sent last, AGREED, and holds the synced set. */
  datatype Side = Side(sset: seq<int>, table: seq<Group>, bufs: seq<Buf>)

  predicate Placed(sset: seq<int>) {
    sset != [] && Sorted(sset) && forall x | x in sset :: x >= 0
  }

  ghost predicate SideOk(d: Side) {
    Placed(d.sset) && d.bufs != [] && BufsOf(d.bufs, d.table) && BufsOk(d.bufs, d.sset)
  }

  ghost predicate InSome(sides: seq<Side>, n: nat, x: int)
    requires n <= |sides|
  {
    exists j :: 0 <= j < n && x in sides[j].sset
  }

  /** The synced sets partition the membership. */
  ghost predicate Partition(sides: seq<Side>, members: seq<int>) {
    && (forall j | 0 <= j < |sides| :: SideOk(sides[j]))
    && (forall j, k | 0 <= j < |sides| && 0 <= k < |sides| && j != k :: Disjoint(sides[j].sset, sides[k].sset))
    && Sorted(members) && forall x :: x in members <==> InSome(sides, |sides|, x)
  }

  function Rep(sides: seq<Side>, j: nat): int
    requires j < |sides|
  {
    if sides[j].sset == [] then -1 else sides[j].sset[0]
  }

  lemma RepsDiffer(sides: seq<Side>, members: seq<int>, j: nat, k: nat)
    requires Partition(sides, members) && j < |sides| && k < |sides|
    ensures Rep(sides, j) in sides[j].sset && Rep(sides, j) >= 0
    ensures Rep(sides, j) == Rep(sides, k) ==> j == k
  {
    hide BufsOf, BufsOk;
    assert SideOk(sides[j]) && SideOk(sides[k]);
    assert sides[j].sset[0] in sides[j].sset && sides[k].sset[0] in sides[k].sset;
  }

  /** What a daemon gets: buffer b of set j, or a message that is not of this membership or from nobody in the
      configuration. */
  datatype Arrival = Sent(j: nat, b: nat) | Stale(m: Mess)

  predicate Valid(a: Arrival, sides: seq<Side>, reg: MembId) {
    match a
    case Sent(j, b) => j < |sides| && b < |sides[j].bufs|
    case Stale(m) => m.memb != reg || m.rep < 0
  }

  function MessOf(a: Arrival, sides: seq<Side>, reg: MembId): Mess
    requires Valid(a, sides, reg)
  {
    match a
    case Sent(j, b) => Mess(reg, Rep(sides, j), b == 0, |sides[j].sset|, sides[j].bufs[b])
    case Stale(m) => m
  }

  /** The messages of a set other than its AGREED one are in. */
  ghost predicate OthersIn(arr: seq<Arrival>, sides: seq<Side>, j: nat)
    requires j < |sides|
  {
    forall b: nat | 1 <= b < |sides[j].bufs| :: Sent(j, b) in arr
  }

  /** What may arrive next: every message comes once, and the AGREED message of a set after its others. */
  ghost predicate MayCome(arr: seq<Arrival>, a: Arrival, sides: seq<Side>, reg: MembId) {
    && Valid(a, sides, reg)
    && (a.Sent? ==> a !in arr)
    && (a.Sent? && a.b == 0 ==> OthersIn(arr, sides, a.j))
  }

  ghost predicate Stream(arr: seq<Arrival>, sides: seq<Side>, reg: MembId) {
    arr == [] || (Stream(arr[..|arr| - 1], sides, reg) && MayCome(arr[..|arr| - 1], arr[|arr| - 1], sides, reg))
  }

  ghost predicate AllIn(arr: seq<Arrival>, sides: seq<Side>) {
    forall j: nat, b: nat | j < |sides| && b < |sides[j].bufs| :: Sent(j, b) in arr
  }

  /** Num_daemons_gathered, as the AGREED messages of the first n sets add up. */
  function CountIn(sides: seq<Side>, arr: seq<Arrival>, n: nat): nat
    requires n <= |sides|
  {
    if n == 0 then 0 else CountIn(sides, arr, n - 1) + if Sent(n - 1, 0) in arr then |sides[n - 1].sset| else 0
  }

  function CountAll(sides: seq<Side>, n: nat): nat
    requires n <= |sides|
  {
    if n == 0 then 0 else CountAll(sides, n - 1) + |sides[n - 1].sset|
  }

  lemma {:induction false} CountNext(sides: seq<Side>, arr: seq<Arrival>, a: Arrival, n: nat)
    requires n <= |sides| && (a.Sent? ==> a !in arr)
    ensures CountIn(sides, arr + [a], n) ==
            CountIn(sides, arr, n) + if a.Sent? && a.b == 0 && a.j < n then |sides[a.j].sset| else 0
  {
    if n > 0 {
      CountNext(sides, arr, a, n - 1);
      assert Sent(n - 1, 0) in arr + [a] <==> Sent(n - 1, 0) in arr || a == Sent(n - 1, 0);
    }
  }

  lemma {:induction false} CountTells(sides: seq<Side>, arr: seq<Arrival>, n: nat)
    requires n <= |sides| && forall j | 0 <= j < n :: sides[j].sset != []
    ensures CountIn(sides, arr, n) <= CountAll(sides, n)
    ensures CountIn(sides, arr, n) == CountAll(sides, n) <==> forall j: nat | j < n :: Sent(j, 0) in arr
  {
    if n > 0 {
      CountTells(sides, arr, n - 1);
    }
  }

  function Elements(s: seq<int>): set<int> {
    set x | x in s
  }

  lemma {:induction false} SortedSize(s: seq<int>)
    requires Sorted(s)
    ensures |Elements(s)| == |s|
  {
    if s == [] {
      assert Elements(s) == {};
    } else {
      var r, x := s[..|s| - 1], s[|s| - 1];
      SortedLast(s);
      SortedSize(r);
      assert Elements(s) == Elements(r) + {x} && x !in Elements(r);
    }
  }

  lemma LastApart(sides: seq<Side>, members: seq<int>, n: nat, x: int)
    requires Partition(sides, members) && 1 <= n <= |sides|
    ensures Sorted(sides[n - 1].sset)
    ensures InSome(sides, n - 1, x) ==> x !in sides[n - 1].sset
  {
    hide BufsOf, BufsOk;
    assert SideOk(sides[n - 1]);
    if InSome(sides, n - 1, x) {
      var j :| 0 <= j < n - 1 && x in sides[j].sset;
      assert Disjoint(sides[j].sset, sides[n - 1].sset);
    }
  }

  /** The elements of the first n sets, counted. */
  lemma {:induction false} UnionSize(sides: seq<Side>, members: seq<int>, n: nat, all: set<int>)
    requires Partition(sides, members) && n <= |sides| && forall x :: x in all <==> InSome(sides, n, x)
    ensures |all| == CountAll(sides, n)
  {
    hide Partition, InSome, Sorted;
    if n == 0 {
      assert all == {} by { NoneSome(sides, all); }
    } else {
      var last := Elements(sides[n - 1].sset);
      LastApart(sides, members, n, 0);
      SortedSize(sides[n - 1].sset);
      var rest := all - last;
      forall x
        ensures x in rest <==> InSome(sides, n - 1, x)
        ensures x in last ==> x in all
      {
        InSomeNext(sides, n, x);
        LastApart(sides, members, n, x);
      }
      UnionSize(sides, members, n - 1, rest);
      assert all == rest + last;
    }
  }

  lemma NoneSome(sides: seq<Side>, all: set<int>)
    requires forall x :: x in all <==> InSome(sides, 0, x)
    ensures all == {}
  {
    assert forall x :: !InSome(sides, 0, x);
    assert forall x :: x !in all;
  }

  lemma InSomeNext(sides: seq<Side>, n: nat, x: int)
    requires 1 <= n <= |sides|
    ensures InSome(sides, n, x) <==> InSome(sides, n - 1, x) || x in sides[n - 1].sset
  {
  }

  /** The synced sets together are as many daemons as the membership has. */
  lemma MembersCounted(sides: seq<Side>, members: seq<int>)
    requires Partition(sides, members)
    ensures CountAll(sides, |sides|) == |members|
  {
    hide InSome, SideOk;
    SortedSize(members);
    assert forall x :: x in Elements(members) <==> x in members;
    UnionSize(sides, members, |sides|, Elements(members));
  }

  lemma {:induction false} AgreedAfter(arr: seq<Arrival>, sides: seq<Side>, reg: MembId, j: nat)
    requires Stream(arr, sides, reg) && j < |sides| && Sent(j, 0) in arr
    ensures OthersIn(arr, sides, j)
  {
    var r, a := arr[..|arr| - 1], arr[|arr| - 1];
    assert arr == r + [a];
    if a != Sent(j, 0) {
      AgreedAfter(r, sides, reg, j);
    }
  }

  /** The count equals the size of the membership exactly when every message of every set is in. */
  lemma CountIffAllIn(arr: seq<Arrival>, sides: seq<Side>, members: seq<int>, reg: MembId)
    requires Partition(sides, members) && Stream(arr, sides, reg)
    ensures CountIn(sides, arr, |sides|) == |members| <==> AllIn(arr, sides)
  {
    MembersCounted(sides, members);
    forall j | 0 <= j < |sides|
      ensures sides[j].sset != [] && |sides[j].bufs| > 0
    {
      assert SideOk(sides[j]);
    }
    hide Partition, InSome, SideOk;
    CountTells(sides, arr, |sides|);
    if forall j: nat | j < |sides| :: Sent(j, 0) in arr {
      forall j: nat, b: nat | j < |sides| && b < |sides[j].bufs|
        ensures Sent(j, b) in arr
      {
        AgreedAfter(arr, sides, reg, j);
      }
    }
  }

  /** The messages kept of one representative. */
  function MsgsOf(links: seq<Link>, rep: int): seq<Buf> {
    var k := Find(links, rep);
    if k < |links| then links[k].msgs else []
  }

  ghost predicate DistinctReps(links: seq<Link>) {
    forall k, l | 0 <= k < l < |links| :: links[k].rep != links[l].rep
  }

  lemma {:induction false} FindNone(links: seq<Link>, rep: int)
    ensures Find(links, rep) == |links| <==> forall l | 0 <= l < |links| :: links[l].rep != rep
  {
    if links != [] && links[0].rep != rep {
      FindNone(links[1..], rep);
      assert forall l | 1 <= l < |links| :: links[l] == links[1..][l - 1];
    }
  }

  lemma FindAt(links: seq<Link>, k: nat)
    requires DistinctReps(links) && k < |links|
    ensures Find(links, links[k].rep) == k && MsgsOf(links, links[k].rep) == links[k].msgs
  {
    FindNone(links, links[k].rep);
  }

  lemma FindPrepended(l: Link, links: seq<Link>, rep: int)
    ensures Find([l] + links, rep) == if l.rep == rep then 0 else Find(links, rep) + 1
  {
    assert ([l] + links)[1..] == links;
  }

  lemma {:induction false} FindUpdated(links: seq<Link>, k: nat, l: Link, rep: int)
    requires k < |links| && links[k].rep == l.rep
    ensures Find(links[k := l], rep) == Find(links, rep)
  {
    if links[0].rep != rep && k > 0 {
      assert links[k := l][1..] == links[1..][k - 1 := l];
      FindUpdated(links[1..], k - 1, l, rep);
    } else if links[0].rep != rep {
      assert links[k := l][1..] == links[1..];
    }
  }

  lemma AddToMsgs(links: seq<Link>, m: Mess, rep: int)
    ensures MsgsOf(AddTo(links, m), rep) == (if rep == m.rep then [m.buf] else []) + MsgsOf(links, rep)
  {
    hide Find;
    var k := Find(links, m.rep);
    if k == |links| {
      FindPrepended(Link(m.rep, [m.buf], m.agreed), links, rep);
      assert [m.buf] + [] == [m.buf];
    } else {
      FindUpdated(links, k, AddTo(links, m)[k], rep);
    }
    assert [] + MsgsOf(links, rep) == MsgsOf(links, rep);
  }

  lemma AddToReps(links: seq<Link>, m: Mess)
    requires DistinctReps(links)
    ensures var after := AddTo(links, m);
            && DistinctReps(after)
            && forall k | 0 <= k < |after| ::
                 after[k].rep == m.rep || exists l :: 0 <= l < |links| && links[l].rep == after[k].rep
  {
    hide Find;
    FindNone(links, m.rep);
    var k := Find(links, m.rep);
    var after := AddTo(links, m);
    if k == |links| {
      assert forall l | 1 <= l < |after| :: after[l] == links[l - 1];
    } else {
      assert forall l | 0 <= l < |after| :: after[l].rep == links[l].rep;
    }
  }

  lemma {:induction false} TallyConcat(a: seq<Group>, b: seq<Group>, name: string)
    ensures Tally(a + b, name) == Tally(a, name) + Tally(b, name)
  {
    if b == [] {
      assert a + b == a;
    } else {
      TallyConcat(a, b[..|b| - 1], name);
      assert (a + b)[..|a + b| - 1] == a + b[..|b| - 1];
    }
  }

  lemma {:induction false} AllGroupsPrepend(b: Buf, msgs: seq<Buf>)
    ensures AllGroups([b] + msgs) == b.groups + AllGroups(msgs)
  {
    if msgs == [] {
      assert [b] + msgs == [b] && [b][..0] == [];
    } else {
      var rest, last := msgs[..|msgs| - 1], msgs[|msgs| - 1];
      AllGroupsPrepend(b, rest);
      assert ([b] + msgs)[..|[b] + msgs| - 1] == [b] + rest && ([b] + msgs)[|[b] + msgs| - 1] == last;
      assert AllGroups([b] + msgs) == AllGroups([b] + rest) + last.groups;
      assert (b.groups + AllGroups(rest)) + last.groups == b.groups + (AllGroups(rest) + last.groups);
    }
  }

  /** How many members of a group the kept messages bring. */
  function LinksTally(links: seq<Link>, name: string): nat {
    if links == [] then 0 else LinksTally(links[..|links| - 1], name) + Tally(AllGroups(links[|links| - 1].msgs), name)
  }

  lemma {:induction false} LinksTallyUpdate(links: seq<Link>, k: nat, l: Link, name: string)
    requires k < |links|
    ensures LinksTally(links[k := l], name) + Tally(AllGroups(links[k].msgs), name) ==
            LinksTally(links, name) + Tally(AllGroups(l.msgs), name)
  {
    var n := |links| - 1;
    if k == n {
      assert links[k := l][..n] == links[..n];
    } else {
      assert links[k := l][..n] == links[..n][k := l];
      LinksTallyUpdate(links[..n], k, l, name);
    }
  }

  lemma {:induction false} LinksTallyPrepend(l: Link, links: seq<Link>, name: string)
    ensures LinksTally([l] + links, name) == Tally(AllGroups(l.msgs), name) + LinksTally(links, name)
  {
    if links == [] {
      assert [l] + links == [l] && [l][..0] == [];
    } else {
      LinksTallyPrepend(l, links[..|links| - 1], name);
      assert ([l] + links)[..|[l] + links| - 1] == [l] + links[..|links| - 1];
    }
  }

  lemma AddToTally(links: seq<Link>, m: Mess, name: string)
    ensures LinksTally(AddTo(links, m), name) == LinksTally(links, name) + Tally(m.buf.groups, name)
  {
    hide Tally, LinksTally, AllGroups;
    var k := Find(links, m.rep);
    if k == |links| {
      LinksTallyPrepend(Link(m.rep, [m.buf], m.agreed), links, name);
      AllGroupsOne(m.buf);
    } else {
      LinksTallyUpdate(links, k, AddTo(links, m)[k], name);
      AllGroupsPrepend(m.buf, links[k].msgs);
      TallyConcat(m.buf.groups, AllGroups(links[k].msgs), name);
    }
  }

  lemma AllGroupsOne(b: Buf)
    ensures AllGroups([b]) == b.groups
  {
    AllGroupsPrepend(b, []);
    assert [b] + [] == [b];
  }

  /** How many members of a group the first m buffers of set j bring, as far as they are in. */
  function SideTally(bufs: seq<Buf>, arr: seq<Arrival>, j: nat, m: nat, name: string): nat
    requires m <= |bufs|
  {
    if m == 0 then 0 else
      SideTally(bufs, arr, j, m - 1, name) + if Sent(j, m - 1) in arr then Tally(bufs[m - 1].groups, name) else 0
  }

  /** The same for the first n sets but i. */
  function OthersTally(sides: seq<Side>, arr: seq<Arrival>, i: nat, n: nat, name: string): nat
    requires n <= |sides|
  {
    if n == 0 then 0 else
      OthersTally(sides, arr, i, n - 1, name) +
      if n - 1 == i then 0 else SideTally(sides[n - 1].bufs, arr, n - 1, |sides[n - 1].bufs|, name)
  }

  lemma {:induction false} SideTallyNext(bufs: seq<Buf>, arr: seq<Arrival>, a: Arrival, j: nat, m: nat, name: string)
    requires m <= |bufs| && (a.Sent? ==> a !in arr)
    ensures SideTally(bufs, arr + [a], j, m, name) ==
            SideTally(bufs, arr, j, m, name) +
            if a.Sent? && a.j == j && a.b < m then Tally(bufs[a.b].groups, name) else 0
  {
    if m > 0 {
      SideTallyNext(bufs, arr, a, j, m - 1, name);
      assert Sent(j, m - 1) in arr + [a] <==> Sent(j, m - 1) in arr || a == Sent(j, m - 1);
    }
  }

  lemma {:induction false} OthersTallyNext(sides: seq<Side>, arr: seq<Arrival>, a: Arrival, i: nat, n: nat,
      reg: MembId, name: string)
    requires n <= |sides| && Valid(a, sides, reg) && (a.Sent? ==> a !in arr)
    ensures OthersTally(sides, arr + [a], i, n, name) ==
            OthersTally(sides, arr, i, n, name) +
            if a.Sent? && a.j != i && a.j < n then Tally(sides[a.j].bufs[a.b].groups, name) else 0
  {
    if n > 0 {
      OthersTallyNext(sides, arr, a, i, n - 1, reg, name);
      SideTallyNext(sides[n - 1].bufs, arr, a, n - 1, |sides[n - 1].bufs|, name);
    }
  }

  /** Buffer x of set j is in. */
  ghost predicate Came(arr: seq<Arrival>, sides: seq<Side>, j: nat, x: Buf)
    requires j < |sides|
  {
    exists b: nat :: b < |sides[j].bufs| && Sent(j, b) in arr && x == sides[j].bufs[b]
  }

  /** The links hold what came of every set but the own one. */
  ghost predicate Linked(links: seq<Link>, arr: seq<Arrival>, sides: seq<Side>, i: nat) {
    && DistinctReps(links)
    && (forall k | 0 <= k < |links| :: exists j: nat :: j < |sides| && j != i && links[k].rep == Rep(sides, j))
    && (forall j: nat, x | j < |sides| && j != i :: x in MsgsOf(links, Rep(sides, j)) <==> Came(arr, sides, j, x))
  }

  /** The messages of this membership that came. */
  function SentIn(arr: seq<Arrival>): nat {
    if arr == [] then 0 else SentIn(arr[..|arr| - 1]) + if arr[|arr| - 1].Sent? then 1 else 0
  }

  predicate CompleteOf(links: seq<Link>, rep: int) {
    var k := Find(links, rep);
    k < |links| && links[k].complete
  }

  /** A set counts as complete, the own one too, exactly when its AGREED message came; all messages are counted. */
  ghost predicate Tracked(s: State, arr: seq<Arrival>, sides: seq<Side>, i: nat)
    requires i < |sides|
  {
    && (s.own <==> Sent(i, 0) in arr)
    && (forall j: nat | j < |sides| && j != i :: CompleteOf(s.links, Rep(sides, j)) <==> Sent(j, 0) in arr)
    && s.numMess == SentIn(arr)
  }

  lemma AddToComplete(links: seq<Link>, m: Mess, rep: int)
    ensures CompleteOf(AddTo(links, m), rep) <==> CompleteOf(links, rep) || (rep == m.rep && m.agreed)
  {
    hide Find;
    var k := Find(links, m.rep);
    if k == |links| {
      FindPrepended(Link(m.rep, [m.buf], m.agreed), links, rep);
    } else {
      FindUpdated(links, k, AddTo(links, m)[k], rep);
    }
  }

  lemma TrackedNext(s: State, arr: seq<Arrival>, a: Arrival, sides: seq<Side>, members: seq<int>, i: nat, reg: MembId)
    requires i < |sides| && Partition(sides, members) && Tracked(s, arr, sides, i) && Valid(a, sides, reg)
    requires s.synced == sides[i].sset
    ensures if a.Sent? then Tracked(Gather(s, MessOf(a, sides, reg)), arr + [a], sides, i)
            else Tracked(s, arr + [a], sides, i)
  {
    hide Partition, AddTo, CompleteOf, Rep;
    assert (arr + [a])[..|arr|] == arr;
    if a.Sent? {
      var m := MessOf(a, sides, reg);
      RepsDiffer(sides, members, a.j, i);
      RepIs(sides, i);
      RepsDiffer(sides, members, i, i);
      forall j: nat | j < |sides| && j != i
        ensures CompleteOf(AddTo(s.links, m), Rep(sides, j)) <==>
                CompleteOf(s.links, Rep(sides, j)) || (j == a.j && a.b == 0)
      {
        AddToComplete(s.links, m, Rep(sides, j));
        RepsDiffer(sides, members, j, a.j);
      }
    }
  }

  /** A daemon of set i that gathers. */
  ghost predicate Inv(s: State, arr: seq<Arrival>, sides: seq<Side>, i: nat)
    requires i < |sides|
  {
    && s.gathering && !s.exited && s.table == AddRecs(map[], sides[i].table) && s.synced == sides[i].sset
    && s.numDaemons == CountIn(sides, arr, |sides|)
    && Linked(s.links, arr, sides, i)
    && (forall name :: LinksTally(s.links, name) == OthersTally(sides, arr, i, |sides|, name))
    && Tracked(s, arr, sides, i)
  }

  lemma CameNext(arr: seq<Arrival>, a: Arrival, sides: seq<Side>, reg: MembId, j: nat, x: Buf)
    requires j < |sides| && Valid(a, sides, reg)
    ensures Came(arr + [a], sides, j, x) <==> Came(arr, sides, j, x) || (a.Sent? && a.j == j && x == sides[j].bufs[a.b])
  {
    if Came(arr, sides, j, x) {
      var b: nat :| b < |sides[j].bufs| && Sent(j, b) in arr && x == sides[j].bufs[b];
      assert Sent(j, b) in arr + [a];
    }
    if a.Sent? && a.j == j && x == sides[j].bufs[a.b] {
      assert a == Sent(j, a.b) && a in arr + [a];
    }
  }

  lemma LinkedNext(links: seq<Link>, arr: seq<Arrival>, a: Arrival, sides: seq<Side>, members: seq<int>, i: nat,
      reg: MembId)
    requires Partition(sides, members) && Linked(links, arr, sides, i) && Valid(a, sides, reg)
    ensures if a.Sent? && a.j != i then Linked(AddTo(links, MessOf(a, sides, reg)), arr + [a], sides, i)
            else Linked(links, arr + [a], sides, i)
  {
    hide Partition, MsgsOf, AddTo, DistinctReps, Rep, Came;
    var m := MessOf(a, sides, reg);
    if a.Sent? && a.j != i {
      AddToReps(links, m);
      forall j: nat, x | j < |sides| && j != i
        ensures x in MsgsOf(AddTo(links, m), Rep(sides, j)) <==> Came(arr + [a], sides, j, x)
      {
        AddToMsgs(links, m, Rep(sides, j));
        CameNext(arr, a, sides, reg, j, x);
        RepsDiffer(sides, members, j, a.j);
      }
    } else {
      forall j: nat, x | j < |sides| && j != i
        ensures x in MsgsOf(links, Rep(sides, j)) <==> Came(arr + [a], sides, j, x)
      {
        CameNext(arr, a, sides, reg, j, x);
      }
      assert (forall k | 0 <= k < |links| :: exists j: nat :: j < |sides| && j != i && links[k].rep == Rep(sides, j));
      assert (forall j: nat, x | j < |sides| && j != i :: x in MsgsOf(links, Rep(sides, j)) <==>
          Came(arr + [a], sides, j, x));
      assert Linked(links, arr + [a], sides, i);
    }
  }

  lemma TallyNext(s: State, arr: seq<Arrival>, a: Arrival, sides: seq<Side>, i: nat, reg: MembId)
    requires i < |sides| && Valid(a, sides, reg) && (a.Sent? ==> a !in arr)
    requires forall name :: LinksTally(s.links, name) == OthersTally(sides, arr, i, |sides|, name)
    ensures var links := if a.Sent? && a.j != i then AddTo(s.links, MessOf(a, sides, reg)) else s.links;
            forall name :: LinksTally(links, name) == OthersTally(sides, arr + [a], i, |sides|, name)
  {
    hide LinksTally, OthersTally, AddTo, Tally, Rep;
    forall name
      ensures var links := if a.Sent? && a.j != i then AddTo(s.links, MessOf(a, sides, reg)) else s.links;
              LinksTally(links, name) == OthersTally(sides, arr + [a], i, |sides|, name)
    {
      OthersTallyNext(sides, arr, a, i, |sides|, reg, name);
      if a.Sent? && a.j != i {
        AddToTally(s.links, MessOf(a, sides, reg), name);
      }
    }
  }

  /** One message more. */
  lemma GatherKeeps(s: State, arr: seq<Arrival>, a: Arrival, sides: seq<Side>, members: seq<int>, i: nat, reg: MembId)
    requires i < |sides| && Partition(sides, members) && Inv(s, arr, sides, i) && MayCome(arr, a, sides, reg)
    ensures if a.Sent? then Inv(Gather(s, MessOf(a, sides, reg)), arr + [a], sides, i) else Inv(s, arr + [a], sides, i)
  {
    hide Partition, Linked, LinksTally, OthersTally, CountIn, AddTo, OthersIn, Rep, Tracked;
    LinkedNext(s.links, arr, a, sides, members, i, reg);
    TrackedNext(s, arr, a, sides, members, i, reg);
    TallyNext(s, arr, a, sides, i, reg);
    CountNext(sides, arr, a, |sides|);
    if a.Sent? {
      RepsDiffer(sides, members, a.j, i);
      RepsDiffer(sides, members, i, i);
      RepIs(sides, i);
    }
  }

  lemma RepIs(sides: seq<Side>, i: nat)
    requires i < |sides|
    ensures Rep(sides, i) >= 0 ==> sides[i].sset != [] && Rep(sides, i) == sides[i].sset[0]
  {
  }
}
