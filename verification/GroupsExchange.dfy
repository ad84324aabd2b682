/** The state exchange after a membership change as a whole: what a daemon's table and synced set are once the
    GROUPS messages of all synced sets are in, and that all daemons end with the same. */
module GroupsExchange {
  import opened GroupsBuf
  import opened GroupsMerge
  import opened GroupsGather

  /** The records of the links, in the order in which they are read. */
  function RecsOf(links: seq<Link>): seq<Group> {
    if links == [] then [] else RecsOf(links[..|links| - 1]) + AllGroups(links[|links| - 1].msgs)
  }

  lemma {:induction false} RecsTally(links: seq<Link>, name: string)
    ensures Tally(RecsOf(links), name) == LinksTally(links, name)
  {
    if links != [] {
      RecsTally(links[..|links| - 1], name);
      TallyConcat(RecsOf(links[..|links| - 1]), AllGroups(links[|links| - 1].msgs), name);
    }
  }

  lemma {:induction false} AddRecsConcat(t: Table, a: seq<Group>, b: seq<Group>)
    ensures AddRecs(t, a + b) == AddRecs(AddRecs(t, a), b)
  {
    if b == [] {
      assert a + b == a;
    } else {
      AddRecsConcat(t, a, b[..|b| - 1]);
      assert (a + b)[..|a + b| - 1] == a + b[..|b| - 1];
    }
  }

  lemma {:induction false} RecsMember(links: seq<Link>, r: Group)
    ensures r in RecsOf(links) <==> exists k :: 0 <= k < |links| && r in AllGroups(links[k].msgs)
  {
    if links != [] {
      RecsMember(links[..|links| - 1], r);
    }
  }

  lemma {:induction false} GroupsMember(bufs: seq<Buf>, r: Group)
    ensures r in AllGroups(bufs) <==> exists x :: x in bufs && r in x.groups
  {
    if bufs != [] {
      GroupsMember(bufs[..|bufs| - 1], r);
      assert bufs == bufs[..|bufs| - 1] + [bufs[|bufs| - 1]];
    }
  }

  /** All messages of set j, and nothing else. */
  ghost predicate LinkOf(l: Link, sides: seq<Side>, j: nat) {
    && j < |sides| && l.rep == Rep(sides, j)
    && forall x :: x in l.msgs <==> x in sides[j].bufs
  }

  lemma {:induction false} SsetIs(msgs: seq<Buf>, was: seq<int>, sset: seq<int>)
    requires forall x | x in msgs :: x.first ==> x.synced == sset
    requires exists x :: x in msgs && x.first
    ensures SsetOf(msgs, was) == sset
  {
    var last := msgs[|msgs| - 1];
    assert msgs == msgs[..|msgs| - 1] + [last];
    assert last in msgs;
    if !last.first {
      SsetIs(msgs[..|msgs| - 1], was, sset);
    }
  }

  lemma LinkSset(l: Link, sides: seq<Side>, members: seq<int>, j: nat, was: seq<int>)
    requires Partition(sides, members) && LinkOf(l, sides, j)
    ensures SsetOf(l.msgs, was) == sides[j].sset
  {
    hide BufsOf, Bytes;
    assert SideOk(sides[j]);
    var bufs := sides[j].bufs;
    assert bufs[0] in bufs && bufs[0].first;
    forall x | x in l.msgs
      ensures x.first ==> x.synced == sides[j].sset
    {
      var b :| 0 <= b < |bufs| && bufs[b] == x;
    }
    SsetIs(l.msgs, was, sides[j].sset);
  }

  /** x is in the synced set whose messages are in the link. */
  ghost predicate InLink(l: Link, sides: seq<Side>, x: int) {
    exists j: nat :: j < |sides| && l.rep == Rep(sides, j) && x in sides[j].sset
  }

  ghost predicate OtherSide(l: Link, sides: seq<Side>, i: nat) {
    exists j: nat :: j != i && LinkOf(l, sides, j)
  }

  /** All messages of other sets than i, one set a link. */
  ghost predicate LinksOf(links: seq<Link>, sides: seq<Side>, i: nat) {
    DistinctReps(links) && forall k | 0 <= k < |links| :: OtherSide(links[k], sides, i)
  }

  ghost predicate HasLink(links: seq<Link>, sides: seq<Side>, j: nat) {
    exists k :: 0 <= k < |links| && LinkOf(links[k], sides, j)
  }

  /** Every set but i has a link. */
  ghost predicate EveryLinked(links: seq<Link>, sides: seq<Side>, i: nat) {
    forall j: nat | j < |sides| && j != i :: HasLink(links, sides, j)
  }

  ghost predicate ReadOk(a: Reading, t: Table, links: seq<Link>, sides: seq<Side>, i: nat)
    requires i < |sides|
  {
    && !a.exited && Sorted(a.synced) && a.table == AddRecs(t, RecsOf(links))
    && forall x :: x in a.synced <==> x in sides[i].sset || exists k :: 0 <= k < |links| && InLink(links[k], sides, x)
  }

  /** The set read next has none of the daemons read so far. */
  lemma NextApart(a: Reading, t: Table, links: seq<Link>, l: Link, sides: seq<Side>, members: seq<int>, i: nat, j: nat)
    requires i < |sides| && Partition(sides, members) && ReadOk(a, t, links, sides, i)
    requires LinkOf(l, sides, j) && j != i && forall k | 0 <= k < |links| :: links[k].rep != l.rep
    ensures Sorted(sides[j].sset) && Disjoint(a.synced, sides[j].sset)
    ensures forall x :: InLink(l, sides, x) <==> x in sides[j].sset
  {
    hide RecsOf, SideOk;
    assert SideOk(sides[j]);
    PlacedOf(sides, j);
    forall x | x in a.synced
      ensures x !in sides[j].sset
    {
      assert Disjoint(sides[i].sset, sides[j].sset);
      if x !in sides[i].sset {
        var k :| 0 <= k < |links| && InLink(links[k], sides, x);
        var h: nat :| h < |sides| && links[k].rep == Rep(sides, h) && x in sides[h].sset;
        assert Disjoint(sides[h].sset, sides[j].sset);
      }
    }
    forall x
      ensures InLink(l, sides, x) <==> x in sides[j].sset
    {
      if InLink(l, sides, x) {
        var h: nat :| h < |sides| && l.rep == Rep(sides, h) && x in sides[h].sset;
        RepsDiffer(sides, members, h, j);
      }
    }
  }

  lemma PlacedOf(sides: seq<Side>, j: nat)
    requires j < |sides| && SideOk(sides[j])
    ensures Sorted(sides[j].sset) && Placed(sides[j].sset)
  {
  }

  lemma ReadNext(a: Reading, t: Table, links: seq<Link>, l: Link, sides: seq<Side>, members: seq<int>, i: nat, j: nat)
    requires i < |sides| && Partition(sides, members) && ReadOk(a, t, links, sides, i)
    requires LinkOf(l, sides, j) && j != i && forall k | 0 <= k < |links| :: links[k].rep != l.rep
    ensures ReadOk(ReadLink(a, l), t, links + [l], sides, i)
  {
    NextApart(a, t, links, l, sides, members, i, j);
    LinkSset(l, sides, members, j, a.sset);
    hide Partition, InLink, LinkOf, Sorted, Merged, AddRecs, Disjoint, AllGroups, SsetOf;
    MergedIs(a.synced, sides[j].sset);
    assert (links + [l])[..|links|] == links;
    AddRecsConcat(t, RecsOf(links), AllGroups(l.msgs));
    var f := ReadLink(a, l);
    forall x
      ensures x in f.synced <==>
              x in sides[i].sset || exists k :: 0 <= k < |links + [l]| && InLink((links + [l])[k], sides, x)
    {
      LinksMore(links, l, sides, x);
    }
  }

  lemma LinksMore(links: seq<Link>, l: Link, sides: seq<Side>, x: int)
    ensures (exists k :: 0 <= k < |links + [l]| && InLink((links + [l])[k], sides, x)) <==>
            (exists k :: 0 <= k < |links| && InLink(links[k], sides, x)) || InLink(l, sides, x)
  {
    hide InLink;
    var more := links + [l];
    assert more[|links|] == l && forall k | 0 <= k < |links| :: more[k] == links[k];
    if k :| 0 <= k < |links| && InLink(links[k], sides, x) {
      assert InLink(more[k], sides, x);
    }
  }

  /** Reading all links adds all their records, and every set once. */
  lemma {:induction false} ReadKeeps(t: Table, links: seq<Link>, sides: seq<Side>, members: seq<int>, i: nat)
    requires i < |sides| && Partition(sides, members) && LinksOf(links, sides, i)
    ensures ReadOk(ReadLinks(Reading(t, sides[i].sset, [], false), links), t, links, sides, i)
  {
    hide Partition, ReadOk, ReadLink, LinkOf;
    if links == [] {
      NothingRead(t, sides, members, i);
    } else {
      var rest, l := links[..|links| - 1], links[|links| - 1];
      assert links == rest + [l];
      forall k | 0 <= k < |rest|
        ensures OtherSide(rest[k], sides, i)
      {
        assert rest[k] == links[k];
      }
      ReadKeeps(t, rest, sides, members, i);
      assert OtherSide(l, sides, i);
      var j: nat :| j != i && LinkOf(l, sides, j);
      ReadNext(ReadLinks(Reading(t, sides[i].sset, [], false), rest), t, rest, l, sides, members, i, j);
    }
  }

  lemma NothingRead(t: Table, sides: seq<Side>, members: seq<int>, i: nat)
    requires i < |sides| && Partition(sides, members)
    ensures ReadOk(Reading(t, sides[i].sset, [], false), t, [], sides, i)
  {
    hide BufsOf, BufsOk;
    assert SideOk(sides[i]);
  }

  lemma CameAll(arr: seq<Arrival>, sides: seq<Side>, j: nat, x: Buf)
    requires AllIn(arr, sides) && j < |sides|
    ensures Came(arr, sides, j, x) <==> x in sides[j].bufs
  {
    if x in sides[j].bufs {
      var b: nat :| b < |sides[j].bufs| && sides[j].bufs[b] == x;
      assert Sent(j, b) in arr;
    }
  }

  /** Once everything is in, every link holds one other set's messages, and every other set has a link. */
  lemma AllLinked(links: seq<Link>, arr: seq<Arrival>, sides: seq<Side>, members: seq<int>, i: nat)
    requires Partition(sides, members) && Linked(links, arr, sides, i) && AllIn(arr, sides)
    ensures LinksOf(links, sides, i)
    ensures EveryLinked(links, sides, i)
  {
    hide Partition, Came, MsgsOf, AllIn, LinkOf;
    forall k | 0 <= k < |links|
      ensures OtherSide(links[k], sides, i)
    {
      assert exists j: nat :: j < |sides| && j != i && links[k].rep == Rep(sides, j);
      var j: nat :| j < |sides| && j != i && links[k].rep == Rep(sides, j);
      LinkFull(links, arr, sides, i, k, j);
    }
    forall j: nat | j < |sides| && j != i
      ensures HasLink(links, sides, j)
    {
      var k := LinkFor(links, arr, sides, members, i, j);
      LinkFull(links, arr, sides, i, k, j);
    }
  }

  lemma LinkFull(links: seq<Link>, arr: seq<Arrival>, sides: seq<Side>, i: nat, k: nat, j: nat)
    requires Linked(links, arr, sides, i) && AllIn(arr, sides) && k < |links| && j < |sides| && j != i
    requires links[k].rep == Rep(sides, j)
    ensures LinkOf(links[k], sides, j)
  {
    hide Came, AllIn, Rep, MsgsOf;
    FindAt(links, k);
    forall x
      ensures x in links[k].msgs <==> x in sides[j].bufs
    {
      CameAll(arr, sides, j, x);
      assert x in MsgsOf(links, Rep(sides, j)) <==> Came(arr, sides, j, x);
    }
  }

  lemma LinkFor(links: seq<Link>, arr: seq<Arrival>, sides: seq<Side>, members: seq<int>, i: nat, j: nat)
      returns (k: nat)
    requires Partition(sides, members) && Linked(links, arr, sides, i) && AllIn(arr, sides) && j < |sides| && j != i
    ensures k < |links| && links[k].rep == Rep(sides, j)
  {
    assert SideOk(sides[j]);
    hide Partition, Came, Rep, SideOk, AllIn;
    var x := sides[j].bufs[0];
    CameAll(arr, sides, j, x);
    assert x in MsgsOf(links, Rep(sides, j)) <==> Came(arr, sides, j, x);
    k := Find(links, Rep(sides, j));
  }

  /** What the daemon ends with as its synced set is the membership, in the configuration's order. */
  lemma SyncedIsMembership(a: Reading, t: Table, links: seq<Link>, sides: seq<Side>, members: seq<int>, i: nat)
    requires i < |sides| && Partition(sides, members) && ReadOk(a, t, links, sides, i)
    requires LinksOf(links, sides, i) && EveryLinked(links, sides, i)
    ensures a.synced == members
  {
    hide RecsOf, SideOk;
    forall x
      ensures x in a.synced <==> x in members
    {
      if x in members {
        var j :| 0 <= j < |sides| && x in sides[j].sset;
        if j != i {
          assert HasLink(links, sides, j);
          var k :| 0 <= k < |links| && LinkOf(links[k], sides, j);
          assert InLink(links[k], sides, x);
        }
      }
      if x in a.synced && x !in sides[i].sset {
        var k :| 0 <= k < |links| && InLink(links[k], sides, x);
        var j: nat :| j < |sides| && links[k].rep == Rep(sides, j) && x in sides[j].sset;
        assert InSome(sides, |sides|, x);
      }
    }
    SortedUnique(a.synced, members);
  }

  function Tables(sides: seq<Side>): (r: seq<seq<Group>>)
    ensures |r| == |sides| && forall j | 0 <= j < |r| :: r[j] == sides[j].table
  {
    seq(|sides|, j requires 0 <= j < |sides| => sides[j].table)
  }

  function Buffers(sides: seq<Side>): (r: seq<seq<Buf>>)
    ensures |r| == |sides| && forall j | 0 <= j < |r| :: r[j] == sides[j].bufs
  {
    seq(|sides|, j requires 0 <= j < |sides| => sides[j].bufs)
  }

  /** The records read are those of the other sets' buffers. */
  lemma AllReceived(links: seq<Link>, sides: seq<Side>, i: nat)
    requires LinksOf(links, sides, i) && EveryLinked(links, sides, i)
    ensures Received(RecsOf(links), Buffers(sides), i)
  {
    hide RecsOf, AllGroups;
    var recs, bufs := RecsOf(links), Buffers(sides);
    forall r | r in recs
      ensures exists j :: 0 <= j < |bufs| && j != i && r in AllGroups(bufs[j])
    {
      RecsMember(links, r);
      var k :| 0 <= k < |links| && r in AllGroups(links[k].msgs);
      assert OtherSide(links[k], sides, i);
      var j: nat :| j != i && LinkOf(links[k], sides, j);
      GroupsMember(links[k].msgs, r);
      GroupsMember(bufs[j], r);
    }
    forall j, r | 0 <= j < |bufs| && j != i && r in AllGroups(bufs[j])
      ensures r in recs
    {
      assert HasLink(links, sides, j);
      var k :| 0 <= k < |links| && LinkOf(links[k], sides, j);
      GroupsMember(bufs[j], r);
      GroupsMember(links[k].msgs, r);
      RecsMember(links, r);
    }
  }

  /** How many members of a group the tables of the first n sets have together. */
  function Total(sides: seq<Side>, n: nat, name: string): nat
    requires n <= |sides|
  {
    if n == 0 then 0 else Total(sides, n - 1, name) + Tally(sides[n - 1].table, name)
  }

  lemma {:induction false} SideTallyAll(bufs: seq<Buf>, arr: seq<Arrival>, j: nat, m: nat, name: string)
    requires m <= |bufs| && forall b: nat | b < m :: Sent(j, b) in arr
    ensures SideTally(bufs, arr, j, m, name) == Tally(AllGroups(bufs[..m]), name)
  {
    if m > 0 {
      SideTallyAll(bufs, arr, j, m - 1, name);
      assert bufs[..m][..m - 1] == bufs[..m - 1];
      TallyConcat(AllGroups(bufs[..m - 1]), bufs[m - 1].groups, name);
    }
  }

  /** The members that a list of entries has of a group. */
  function EntriesTally(es: seq<Entry>, name: string): nat {
    if es == [] then 0 else (if es[0].name == name then |es[0].dmn.members| else 0) + EntriesTally(es[1..], name)
  }

  lemma {:induction false} EntriesTallyConcat(a: seq<Entry>, b: seq<Entry>, name: string)
    ensures EntriesTally(a + b, name) == EntriesTally(a, name) + EntriesTally(b, name)
  {
    if a == [] {
      assert a + b == b;
    } else {
      EntriesTallyConcat(a[1..], b, name);
      assert (a + b)[1..] == a[1..] + b;
    }
  }

  lemma {:induction false} MembersConcat(a: seq<Dmn>, b: seq<Dmn>)
    ensures MembersOf(a + b) == MembersOf(a) + MembersOf(b)
  {
    if b == [] {
      assert a + b == a;
    } else {
      MembersConcat(a, b[..|b| - 1]);
      assert (a + b)[..|a + b| - 1] == a + b[..|b| - 1];
    }
  }

  lemma {:induction false} GroupTally(g: Group, d: nat, name: string)
    requires d <= |g.dmns|
    ensures EntriesTally(EntriesOf(g, d), name) == if g.name == name then MembersOf(g.dmns[d..]) else 0
    decreases |g.dmns| - d
  {
    if d < |g.dmns| {
      GroupTally(g, d + 1, name);
      assert g.dmns[d..] == [g.dmns[d]] + g.dmns[d + 1..];
      MembersConcat([g.dmns[d]], g.dmns[d + 1..]);
      assert [g.dmns[d]][..0] == [];
      assert MembersOf([g.dmns[d]]) == |g.dmns[d].members|;
      assert EntriesOf(g, d)[1..] == EntriesOf(g, d + 1);
    }
  }

  lemma {:induction false} TallyOfEntries(recs: seq<Group>, name: string)
    ensures Tally(recs, name) == EntriesTally(Entries(recs), name)
  {
    if recs != [] {
      var rest, r := recs[..|recs| - 1], recs[|recs| - 1];
      assert recs == rest + [r];
      TallyOfEntries(rest, name);
      EntriesPlus(rest, [r]);
      OneGroup(r);
      EntriesTallyConcat(Entries(rest), Entries([r]), name);
      GroupTally(r, 0, name);
      assert r.dmns[0..] == r.dmns;
    }
  }

  /** The buffers of a set bring its table's members. */
  lemma SideCounted(sides: seq<Side>, members: seq<int>, arr: seq<Arrival>, j: nat, name: string)
    requires Partition(sides, members) && AllIn(arr, sides) && j < |sides|
    ensures SideTally(sides[j].bufs, arr, j, |sides[j].bufs|, name) == Tally(sides[j].table, name)
  {
    hide Entries, Tally, SideTally, EntriesTally, RecordsOf, BufsOk, AllGroups, Disjoint, Sorted, InSome;
    var d := sides[j];
    assert SideOk(d);
    SideTallyAll(d.bufs, arr, j, |d.bufs|, name);
    assert d.bufs[..|d.bufs|] == d.bufs;
    TallyOfEntries(AllGroups(d.bufs), name);
    TallyOfEntries(d.table, name);
  }

  /** Everybody counts the same members: those of all tables. */
  lemma {:induction false} AllCounted(sides: seq<Side>, members: seq<int>, arr: seq<Arrival>, i: nat, n: nat,
      name: string)
    requires Partition(sides, members) && AllIn(arr, sides) && n <= |sides|
    ensures OthersTally(sides, arr, i, n, name) + (if i < n then Tally(sides[i].table, name) else 0) ==
            Total(sides, n, name)
  {
    hide Partition, AllIn, Tally, SideTally;
    if n > 0 {
      AllCounted(sides, members, arr, i, n - 1, name);
      SideCounted(sides, members, arr, n - 1, name);
    }
  }

  /** The run of a daemon of set i from the membership change on. */
  function Begin(sides: seq<Side>, i: nat): State
    requires i < |sides|
  {
    State(AddRecs(map[], sides[i].table), sides[i].sset, [], false, 0, 0, true, false)
  }

  function RunTo(s: State, sides: seq<Side>, reg: MembId, size: nat, arr: seq<Arrival>): State
    requires forall k | 0 <= k < |arr| :: Valid(arr[k], sides, reg)
  {
    if arr == [] then s else
      Handled(RunTo(s, sides, reg, size, arr[..|arr| - 1]), MessOf(arr[|arr| - 1], sides, reg), reg, size)
  }

  lemma {:induction false} StreamValid(arr: seq<Arrival>, sides: seq<Side>, reg: MembId)
    requires Stream(arr, sides, reg)
    ensures forall k | 0 <= k < |arr| :: Valid(arr[k], sides, reg)
  {
    if arr != [] {
      StreamValid(arr[..|arr| - 1], sides, reg);
      assert forall k | 0 <= k < |arr| - 1 :: arr[k] == arr[..|arr| - 1][k];
    }
  }

  lemma {:induction false} NobodyIn(sides: seq<Side>, i: nat, n: nat, name: string)
    requires n <= |sides|
    ensures CountIn(sides, [], n) == 0 && OthersTally(sides, [], i, n, name) == 0
  {
    if n > 0 {
      NobodyIn(sides, i, n - 1, name);
      NoBuffer(sides[n - 1].bufs, n - 1, |sides[n - 1].bufs|, name);
    }
  }

  lemma {:induction false} NoBuffer(bufs: seq<Buf>, j: nat, m: nat, name: string)
    requires m <= |bufs|
    ensures SideTally(bufs, [], j, m, name) == 0
  {
    if m > 0 {
      NoBuffer(bufs, j, m - 1, name);
    }
  }

  lemma BeginOk(sides: seq<Side>, i: nat)
    requires i < |sides|
    ensures Inv(Begin(sides, i), [], sides, i)
  {
    forall name
      ensures CountIn(sides, [], |sides|) == 0 && LinksTally([], name) == OthersTally(sides, [], i, |sides|, name)
    {
      NobodyIn(sides, i, |sides|, name);
    }
    NobodyIn(sides, i, |sides|, "");
  }

  /** What is still missing earlier is missing later only if nothing came. */
  lemma AllInLater(arr: seq<Arrival>, a: Arrival, sides: seq<Side>)
    requires AllIn(arr, sides)
    ensures AllIn(arr + [a], sides)
  {
  }

  /** As long as a message is missing, the daemon gathers and takes no exit. */
  lemma {:induction false} Gathering(sides: seq<Side>, members: seq<int>, reg: MembId, i: nat, arr: seq<Arrival>)
    requires i < |sides| && Partition(sides, members) && Stream(arr, sides, reg) && !AllIn(arr, sides)
    ensures forall k | 0 <= k < |arr| :: Valid(arr[k], sides, reg)
    ensures Inv(RunTo(Begin(sides, i), sides, reg, |members|, arr), arr, sides, i)
  {
    StreamValid(arr, sides, reg);
    hide Partition, Inv, AllIn, Gather, Begin, Computed, OthersIn;
    if arr == [] {
      BeginOk(sides, i);
    } else {
      var r, a := arr[..|arr| - 1], arr[|arr| - 1];
      assert arr == r + [a];
      if AllIn(r, sides) {
        AllInLater(r, a, sides);
      }
      Gathering(sides, members, reg, i, r);
      var s := RunTo(Begin(sides, i), sides, reg, |members|, r);
      GatherKeeps(s, r, a, sides, members, i, reg);
      CountIffAllIn(arr, sides, members, reg);
      HandleIs(s, r, a, sides, members, i, reg);
    }
  }

  lemma HandleIs(s: State, arr: seq<Arrival>, a: Arrival, sides: seq<Side>, members: seq<int>, i: nat, reg: MembId)
    requires i < |sides| && Partition(sides, members) && Inv(s, arr, sides, i) && MayCome(arr, a, sides, reg)
    ensures var m := MessOf(a, sides, reg);
            Handled(s, m, reg, |members|) ==
            if a.Stale? then s
            else if CountIn(sides, arr + [a], |sides|) != |members| then Gather(s, m)
            else Computed(Gather(s, m), reg)
  {
    hide Partition, Linked, LinksTally, OthersTally, CountIn, OthersIn, Gather, Computed, Rep;
    GatherKeeps(s, arr, a, sides, members, i, reg);
    if a.Sent? {
      RepsDiffer(sides, members, a.j, i);
    }
  }

  /** Nothing of the exchange is left for the next one. */
  predicate Idle(s: State) {
    s.links == [] && !s.own && s.numMess == 0 && s.numDaemons == 0
  }

  /** The records that a daemon of set i adds to its table: those of its links. */
  ghost predicate Ended(s: State, sides: seq<Side>, members: seq<int>, i: nat, reg: MembId, recs: seq<Group>)
    requires i < |sides|
  {
    && !s.exited && !s.gathering && s.synced == members && Idle(s)
    && Received(recs, Buffers(sides), i)
    && s.table == Notify(Gathered(sides[i].table, recs), reg)
    && forall name :: NumOf(Gathered(sides[i].table, recs), name) == Total(sides, |sides|, name)
  }

  lemma ComputeKeeps(s: State, arr: seq<Arrival>, sides: seq<Side>, members: seq<int>, i: nat, reg: MembId)
    requires i < |sides| && Partition(sides, members) && Inv(s, arr, sides, i) && AllIn(arr, sides)
    ensures Ended(Computed(s, reg), sides, members, i, reg, RecsOf(s.links))
  {
    hide Tracked, Partition, Linked, AllIn, LinksOf, EveryLinked, AddRecs, RecsOf, Received, Buffers, LinksTally,
        OthersTally, Tally, Total, ReadLinks, Notify, NumOf;
    var t := AddRecs(map[], sides[i].table);
    AllLinked(s.links, arr, sides, members, i);
    ReadKeeps(t, s.links, sides, members, i);
    var a := ReadLinks(Reading(t, sides[i].sset, [], false), s.links);
    SyncedIsMembership(a, t, s.links, sides, members, i);
    AllReceived(s.links, sides, i);
    forall name
      ensures NumOf(Gathered(sides[i].table, RecsOf(s.links)), name) == Total(sides, |sides|, name)
    {
      GatheredNum(s, arr, sides, members, i, name);
    }
  }

  lemma GatheredNum(s: State, arr: seq<Arrival>, sides: seq<Side>, members: seq<int>, i: nat, name: string)
    requires i < |sides| && Partition(sides, members) && Inv(s, arr, sides, i) && AllIn(arr, sides)
    ensures NumOf(Gathered(sides[i].table, RecsOf(s.links)), name) == Total(sides, |sides|, name)
  {
    hide Tracked, Partition, Linked, AllIn, LinksOf, AddRecs, RecsOf, LinksTally, OthersTally, Tally, Total;
    AddRecsNum(map[], sides[i].table, name);
    AddRecsNum(AddRecs(map[], sides[i].table), RecsOf(s.links), name);
    RecsTally(s.links, name);
    AllCounted(sides, members, arr, i, |sides|, name);
  }

  /** Num_daemons_gathered reaches the size of the membership with the last message of all and not before: then,
      and only then, the daemon computes its groups, and everything is in. */
  lemma ExchangeEnds(sides: seq<Side>, members: seq<int>, reg: MembId, i: nat, arr: seq<Arrival>, last: Arrival)
    requires i < |sides| && Partition(sides, members) && Stream(arr + [last], sides, reg)
    requires !AllIn(arr, sides)
    ensures forall k | 0 <= k < |arr + [last]| :: Valid((arr + [last])[k], sides, reg)
    ensures var s := RunTo(Begin(sides, i), sides, reg, |members|, arr + [last]);
            && !s.exited
            && (s.gathering <==> !AllIn(arr + [last], sides))
            && (AllIn(arr + [last], sides) ==> exists recs :: Ended(s, sides, members, i, reg, recs))
  {
    var all := arr + [last];
    assert all[..|all| - 1] == arr;
    StreamValid(all, sides, reg);
    hide Partition, Inv, AllIn, Gather, Begin, Computed, OthersIn, Ended;
    Gathering(sides, members, reg, i, arr);
    var s := RunTo(Begin(sides, i), sides, reg, |members|, arr);
    GatherKeeps(s, arr, last, sides, members, i, reg);
    CountIffAllIn(all, sides, members, reg);
    HandleIs(s, arr, last, sides, members, i, reg);
    if AllIn(all, sides) {
      StaleAddsNothing(arr, last, sides);
      var g := Gather(s, MessOf(last, sides, reg));
      ComputeKeeps(g, all, sides, members, i, reg);
      EndedShape(Computed(g, reg), sides, members, i, reg, RecsOf(g.links));
    } else {
      Gathering(sides, members, reg, i, all);
      InvShape(RunTo(Begin(sides, i), sides, reg, |members|, all), all, sides, i);
    }
  }

  lemma StaleAddsNothing(arr: seq<Arrival>, last: Arrival, sides: seq<Side>)
    requires !AllIn(arr, sides) && AllIn(arr + [last], sides)
    ensures last.Sent?
  {
    var j: nat, b: nat :| j < |sides| && b < |sides[j].bufs| && Sent(j, b) !in arr;
    assert Sent(j, b) in arr + [last];
  }

  lemma EndedShape(s: State, sides: seq<Side>, members: seq<int>, i: nat, reg: MembId, recs: seq<Group>)
    requires i < |sides| && Ended(s, sides, members, i, reg, recs)
    ensures !s.exited && !s.gathering && s.synced == members
  {
  }

  lemma InvShape(s: State, arr: seq<Arrival>, sides: seq<Side>, i: nat)
    requires i < |sides| && Inv(s, arr, sides, i)
    ensures !s.exited && s.gathering
  {
  }

  // The number of members.

  /** The sets' tables are kept well, and each has groups' members at daemons of its set only. */
  ghost predicate KnownOnce(sides: seq<Side>) {
    forall j | 0 <= j < |sides| ::
      && WellKept(sides[j].table)
      && forall i, k | 0 <= i < |sides[j].table| && 0 <= k < |sides[j].table[i].dmns| ::
           sides[j].table[i].dmns[k].proc in sides[j].sset
  }

  predicate NoneTwice(ps: seq<int>) {
    forall i, k | 0 <= i < k < |ps| :: ps[i] != ps[k]
  }

  /** The members at these daemons. */
  function MembersAt(ps: seq<int>, dmns: map<int, Dm>): nat {
    if ps == [] then 0 else
      var p := ps[|ps| - 1];
      MembersAt(ps[..|ps| - 1], dmns) + if p in dmns then |dmns[p].members| else 0
  }

  lemma {:induction false} MembersAtConcat(a: seq<int>, b: seq<int>, dmns: map<int, Dm>)
    ensures MembersAt(a + b, dmns) == MembersAt(a, dmns) + MembersAt(b, dmns)
  {
    if b == [] {
      assert a + b == a;
    } else {
      assert (a + b)[..|a + b| - 1] == a + b[..|b| - 1];
      MembersAtConcat(a, b[..|b| - 1], dmns);
    }
  }

  lemma WithoutOnce(b: seq<int>, i: nat)
    requires NoneTwice(b) && i < |b|
    ensures NoneTwice(b[..i] + b[i + 1..])
    ensures forall q :: q in b[..i] + b[i + 1..] <==> q in b && q != b[i]
  {
    var b' := b[..i] + b[i + 1..];
    assert forall j | 0 <= j < |b'| :: b'[j] == b[if j < i then j else j + 1];
    forall q
      ensures q in b' <==> q in b && q != b[i]
    {
      if q in b && q != b[i] {
        var j :| 0 <= j < |b| && b[j] == q;
        assert b'[if j < i then j else j - 1] == q;
      }
    }
  }

  lemma WithoutSum(b: seq<int>, i: nat, dmns: map<int, Dm>)
    requires i < |b|
    ensures MembersAt(b, dmns) == MembersAt(b[..i] + b[i + 1..], dmns) + MembersAt([b[i]], dmns)
  {
    assert b == b[..i] + ([b[i]] + b[i + 1..]);
    MembersAtConcat(b[..i], [b[i]] + b[i + 1..], dmns);
    MembersAtConcat([b[i]], b[i + 1..], dmns);
    MembersAtConcat(b[..i], b[i + 1..], dmns);
  }

  lemma Without(b: seq<int>, p: int, dmns: map<int, Dm>) returns (b': seq<int>)
    requires NoneTwice(b) && p in b
    ensures NoneTwice(b') && forall q :: q in b' <==> q in b && q != p
    ensures MembersAt(b, dmns) == MembersAt(b', dmns) + MembersAt([p], dmns)
  {
    hide MembersAt, NoneTwice;
    var i :| 0 <= i < |b| && b[i] == p;
    b' := b[..i] + b[i + 1..];
    WithoutOnce(b, i);
    WithoutSum(b, i, dmns);
  }

  /** The sum does not depend on the order. */
  lemma {:induction false} MembersAtSame(a: seq<int>, b: seq<int>, dmns: map<int, Dm>)
    requires NoneTwice(a) && NoneTwice(b) && forall p :: p in a <==> p in b
    ensures MembersAt(a, dmns) == MembersAt(b, dmns)
    decreases |a|
  {
    if a == [] {
      HasFirst(b);
    } else {
      var a', p := a[..|a| - 1], a[|a| - 1];
      assert a == a' + [p] && p in a;
      LastOnce(a);
      var b' := Without(b, p, dmns);
      MembersAtConcat(a', [p], dmns);
      hide MembersAt;
      MembersAtSame(a', b', dmns);
    }
  }

  lemma LastOnce(a: seq<int>)
    requires NoneTwice(a) && a != []
    ensures NoneTwice(a[..|a| - 1]) && forall q :: q in a[..|a| - 1] <==> q in a && q != a[|a| - 1]
  {
    assert a == a[..|a| - 1] + [a[|a| - 1]];
  }

  /** The number of a group's members is that of its daemons' lists. */
  ghost predicate Counted(g: Grp) {
    forall ps | NoneTwice(ps) && (forall p :: p in ps <==> p in g.dmns) :: g.num == MembersAt(ps, g.dmns)
  }

  function Procs(ds: seq<Dmn>): (r: seq<int>)
    ensures |r| == |ds|
  {
    seq(|ds|, k requires 0 <= k < |ds| => ds[k].proc)
  }

  /** The daemons of a group in a table, and in the tables of the first n sets. */
  function ProcsIn(table: seq<Group>, name: string): seq<int> {
    if table == [] then [] else
      var g := table[|table| - 1];
      ProcsIn(table[..|table| - 1], name) + if g.name == name then Procs(g.dmns) else []
  }

  function AllProcs(sides: seq<Side>, n: nat, name: string): seq<int>
    requires n <= |sides|
  {
    if n == 0 then [] else AllProcs(sides, n - 1, name) + ProcsIn(sides[n - 1].table, name)
  }

  lemma ProcsAre(ds: seq<Dmn>, p: int)
    ensures p in Procs(ds) <==> exists k :: 0 <= k < |ds| && ds[k].proc == p
  {
    if k :| 0 <= k < |ds| && ds[k].proc == p {
      assert Procs(ds)[k] == p;
    }
  }

  lemma {:induction false} ProcsInAre(table: seq<Group>, name: string, p: int)
    ensures p in ProcsIn(table, name) <==>
            exists i, k :: 0 <= i < |table| && 0 <= k < |table[i].dmns| &&
                           table[i].name == name && table[i].dmns[k].proc == p
  {
    if table != [] {
      var rest, g := table[..|table| - 1], table[|table| - 1];
      ProcsInAre(rest, name, p);
      ProcsAre(g.dmns, p);
      assert forall i | 0 <= i < |rest| :: table[i] == rest[i];
    }
  }

  lemma NoneTwiceEmpty()
    ensures NoneTwice([])
  {
  }

  lemma NoneTwiceConcat(a: seq<int>, b: seq<int>)
    requires NoneTwice(a) && NoneTwice(b) && forall p | p in a :: p !in b
    ensures NoneTwice(a + b)
  {
    forall i, k | 0 <= i < k < |a + b|
      ensures (a + b)[i] != (a + b)[k]
    {
      if i < |a| <= k {
        assert a[i] in a && b[k - |a|] in b;
      }
    }
  }

  lemma {:induction false} ProcsOnce(table: seq<Group>, name: string)
    requires WellKept(table)
    ensures NoneTwice(ProcsIn(table, name))
    ensures (forall i | 0 <= i < |table| :: table[i].name != name) ==> ProcsIn(table, name) == []
  {
    if table != [] {
      var rest, g := table[..|table| - 1], table[|table| - 1];
      assert WellKept(rest);
      ProcsOnce(rest, name);
      if g.name == name {
        assert forall i | 0 <= i < |rest| :: rest[i].name != name;
        assert [] + Procs(g.dmns) == Procs(g.dmns) && ProcsDiffer(g.dmns);
      } else {
        assert ProcsIn(rest, name) + [] == ProcsIn(rest, name);
      }
    }
  }

  lemma {:induction false} AllProcsAre(sides: seq<Side>, n: nat, name: string, p: int)
    requires n <= |sides|
    ensures p in AllProcs(sides, n, name) <==> exists j :: 0 <= j < n && p in ProcsIn(sides[j].table, name)
  {
    if n > 0 {
      AllProcsAre(sides, n - 1, name, p);
    }
  }

  lemma OtherSets(sides: seq<Side>, members: seq<int>, n: nat, name: string, p: int)
    requires n < |sides| && Partition(sides, members) && KnownOnce(sides) && p in AllProcs(sides, n, name)
    ensures p !in ProcsIn(sides[n].table, name)
  {
    hide Partition, WellKept, KnownOnce;
    AllProcsAre(sides, n, name, p);
    var j :| 0 <= j < n && p in ProcsIn(sides[j].table, name);
    ProcsOfSet(sides, j, name, p);
    ProcsOfSet(sides, n, name, p);
    SetsApart(sides, members, j, n);
  }

  lemma {:induction false} AllProcsOnce(sides: seq<Side>, members: seq<int>, n: nat, name: string)
    requires n <= |sides| && Partition(sides, members) && KnownOnce(sides)
    ensures NoneTwice(AllProcs(sides, n, name))
  {
    hide Partition, WellKept, ProcsIn, NoneTwice;
    NoneTwiceEmpty();
    if n > 0 {
      var before, here := AllProcs(sides, n - 1, name), ProcsIn(sides[n - 1].table, name);
      AllProcsOnce(sides, members, n - 1, name);
      assert WellKept(sides[n - 1].table);
      ProcsOnce(sides[n - 1].table, name);
      forall p | p in before
        ensures p !in here
      {
        OtherSets(sides, members, n - 1, name, p);
      }
      NoneTwiceConcat(before, here);
    }
  }

  lemma SetsApart(sides: seq<Side>, members: seq<int>, j: nat, k: nat)
    requires Partition(sides, members) && j < |sides| && k < |sides| && j != k
    ensures Disjoint(sides[j].sset, sides[k].sset)
  {
  }

  lemma ProcsOfSet(sides: seq<Side>, j: nat, name: string, p: int)
    requires j < |sides| && KnownOnce(sides)
    ensures p in ProcsIn(sides[j].table, name) ==> p in sides[j].sset
  {
    hide WellKept;
    ProcsInAre(sides[j].table, name, p);
  }

  /** Every daemon of these lists is there with that many members. */
  ghost predicate Agrees(table: seq<Group>, name: string, dmns: map<int, Dm>) {
    forall i, k | 0 <= i < |table| && 0 <= k < |table[i].dmns| && table[i].name == name ::
      table[i].dmns[k].proc in dmns && dmns[table[i].dmns[k].proc].members == table[i].dmns[k].members
  }

  lemma {:induction false} MembersOfAt(ds: seq<Dmn>, dmns: map<int, Dm>)
    requires forall k | 0 <= k < |ds| :: ds[k].proc in dmns && dmns[ds[k].proc].members == ds[k].members
    ensures MembersOf(ds) == MembersAt(Procs(ds), dmns)
  {
    if ds != [] {
      MembersOfAt(ds[..|ds| - 1], dmns);
      assert Procs(ds)[..|ds| - 1] == Procs(ds[..|ds| - 1]);
    }
  }

  lemma {:induction false} TallyAt(table: seq<Group>, name: string, dmns: map<int, Dm>)
    requires Agrees(table, name, dmns)
    ensures Tally(table, name) == MembersAt(ProcsIn(table, name), dmns)
  {
    if table != [] {
      var rest, g := table[..|table| - 1], table[|table| - 1];
      assert forall i | 0 <= i < |rest| :: table[i] == rest[i];
      TallyAt(rest, name, dmns);
      if g.name == name {
        MembersOfAt(g.dmns, dmns);
        MembersAtConcat(ProcsIn(rest, name), Procs(g.dmns), dmns);
      } else {
        assert ProcsIn(rest, name) + [] == ProcsIn(rest, name);
      }
    }
  }

  lemma {:induction false} TotalAt(sides: seq<Side>, n: nat, name: string, dmns: map<int, Dm>)
    requires n <= |sides| && forall j | 0 <= j < n :: Agrees(sides[j].table, name, dmns)
    ensures Total(sides, n, name) == MembersAt(AllProcs(sides, n, name), dmns)
  {
    if n > 0 {
      TotalAt(sides, n - 1, name, dmns);
      TallyAt(sides[n - 1].table, name, dmns);
      MembersAtConcat(AllProcs(sides, n - 1, name), ProcsIn(sides[n - 1].table, name), dmns);
    }
  }

  lemma WrittenAt(sides: seq<Side>, name: string, p: int)
    ensures p in AllProcs(sides, |sides|, name) <==> WrittenBy(Union(Tables(sides)), name, p)
  {
    AllProcsAre(sides, |sides|, name, p);
    forall j | 0 <= j < |sides|
      ensures p in ProcsIn(sides[j].table, name) <==>
              exists i, k :: 0 <= i < |sides[j].table| && 0 <= k < |sides[j].table[i].dmns| &&
                             sides[j].table[i].name == name && sides[j].table[i].dmns[k].proc == p
    {
      ProcsInAre(sides[j].table, name, p);
    }
    hide AllProcs, ProcsIn;
    var all := Union(Tables(sides));
    if j, i, k :| 0 <= j < |sides| && 0 <= i < |sides[j].table| && 0 <= k < |sides[j].table[i].dmns| &&
                  sides[j].table[i].name == name && sides[j].table[i].dmns[k].proc == p {
      assert sides[j].table[i] in Tables(sides)[j];
      assert sides[j].table[i] in all && Writes(sides[j].table[i], p, sides[j].table[i].dmns[k].members);
    }
    if WrittenBy(all, name, p) {
      var g, ms :| g in all && g.name == name && Writes(g, p, ms);
      var j :| 0 <= j < |sides| && g in Tables(sides)[j];
      var i :| 0 <= i < |sides[j].table| && sides[j].table[i] == g;
      var k :| 0 <= k < |g.dmns| && g.dmns[k].proc == p && g.dmns[k].members == ms;
      assert sides[j].table[i].dmns[k].proc == p;
    }
  }

  lemma AgreesAll(sides: seq<Side>, h: Grp, name: string, reg: MembId, j: nat)
    requires j < |sides| && Consistent(Union(Tables(sides))) && GroupOf(h, name, Union(Tables(sides)), reg)
    ensures Agrees(sides[j].table, name, h.dmns)
  {
    var all := Union(Tables(sides));
    hide Consistent, HasChanged;
    forall i, k | 0 <= i < |sides[j].table| && 0 <= k < |sides[j].table[i].dmns| && sides[j].table[i].name == name
      ensures var d := sides[j].table[i].dmns[k]; d.proc in h.dmns && h.dmns[d.proc].members == d.members
    {
      var g := sides[j].table[i];
      var d := g.dmns[k];
      assert g in Tables(sides)[j];
      assert g in all && Writes(g, d.proc, d.members);
      assert WrittenBy(all, name, d.proc);
      var q :| q in all && q.name == name && Writes(q, d.proc, h.dmns[d.proc].members);
      SameMembers(all, q, g, d.proc, h.dmns[d.proc].members, d.members);
    }
  }

  lemma CountedIs(sides: seq<Side>, members: seq<int>, h: Grp, name: string, reg: MembId)
    requires Partition(sides, members) && KnownOnce(sides) && Consistent(Union(Tables(sides)))
    requires GroupOf(h, name, Union(Tables(sides)), reg) && h.num == Total(sides, |sides|, name)
    ensures Counted(h)
  {
    hide Partition, KnownOnce, Consistent, HasChanged, NoneTwice, WrittenBy, Union, Tables;
    forall j | 0 <= j < |sides|
      ensures Agrees(sides[j].table, name, h.dmns)
    {
      AgreesAll(sides, h, name, reg, j);
    }
    TotalAt(sides, |sides|, name, h.dmns);
    AllProcsOnce(sides, members, |sides|, name);
    var all := AllProcs(sides, |sides|, name);
    forall ps | NoneTwice(ps) && (forall p :: p in ps <==> p in h.dmns)
      ensures h.num == MembersAt(ps, h.dmns)
    {
      forall p
        ensures p in ps <==> p in all
      {
        WrittenAt(sides, name, p);
      }
      MembersAtSame(ps, all, h.dmns);
    }
  }

  /** The whole table that a daemon ends with, in terms of the sets' tables. */
  ghost predicate TableOf(t: Table, all: set<Group>, sides: seq<Side>, reg: MembId) {
    && (forall n :: n in t <==> exists g :: g in all && g.name == n)
    && (forall n | n in t :: GroupOf(t[n], n, all, reg))
    && (forall n | n in t :: t[n].num == Total(sides, |sides|, n))
    && (KnownOnce(sides) ==> forall n | n in t :: Counted(t[n]))
  }

  /** After the exchange any two daemons, of whatever sets and whatever order their messages came in, have the
      same groups with the same ids, daemons, members and counts, and the membership as their synced set. */
  lemma EverybodyAgrees(sides: seq<Side>, members: seq<int>, reg: MembId, i: nat, k: nat, s1: State, r1: seq<Group>,
      s2: State, r2: seq<Group>)
    requires i < |sides| && k < |sides| && Partition(sides, members) && Consistent(Union(Tables(sides)))
    requires Ended(s1, sides, members, i, reg, r1) && Ended(s2, sides, members, k, reg, r2)
    ensures s1.table == s2.table && s1.synced == s2.synced == members
    ensures TableOf(s1.table, Union(Tables(sides)), sides, reg)
  {
    hide Partition, Consistent, BufsOf, Received, Gathered, Union, HasChanged, WrittenBy, Total, Notify, NumOf,
        Tables, Buffers, GroupOf, Counted, KnownOnce;
    BufsOfSides(sides, members);
    SameCounts(sides, members, reg, i, k, s1, r1, s2, r2);
    GatheredAgree(Tables(sides), Buffers(sides), i, k, r1, r2, reg);
    NotifiedNum(Gathered(sides[i].table, r1), reg);
    forall n | n in s1.table
      ensures s1.table[n].num == Total(sides, |sides|, n)
    {
      assert NumOf(Gathered(sides[i].table, r1), n) == Total(sides, |sides|, n);
    }
    if KnownOnce(sides) {
      forall n | n in s1.table
        ensures Counted(s1.table[n])
      {
        CountedIs(sides, members, s1.table[n], n, reg);
      }
    }
  }

  lemma BufsOfSides(sides: seq<Side>, members: seq<int>)
    requires Partition(sides, members)
    ensures forall j | 0 <= j < |sides| :: BufsOf(Buffers(sides)[j], Tables(sides)[j])
  {
    hide BufsOf;
    forall j | 0 <= j < |sides|
      ensures BufsOf(Buffers(sides)[j], Tables(sides)[j])
    {
      assert SideOk(sides[j]);
    }
  }

  lemma SameCounts(sides: seq<Side>, members: seq<int>, reg: MembId, i: nat, k: nat, s1: State, r1: seq<Group>,
      s2: State, r2: seq<Group>)
    requires i < |sides| && k < |sides|
    requires Ended(s1, sides, members, i, reg, r1) && Ended(s2, sides, members, k, reg, r2)
    ensures forall n :: NumOf(Gathered(Tables(sides)[i], r1), n) == NumOf(Gathered(Tables(sides)[k], r2), n)
  {
    hide Received, Notify, Total, NumOf, Gathered;
  }

  lemma NotifiedNum(t: Table, reg: MembId)
    ensures var u := Notify(t, reg);
            forall n | n in u :: n in t && u[n].num == NumOf(t, n)
  {
  }

  /** The exchange of two daemons, from the membership change to the last message. */
  lemma ExchangeConverges(sides: seq<Side>, members: seq<int>, reg: MembId, i: nat, k: nat, arr1: seq<Arrival>,
      arr2: seq<Arrival>)
    requires i < |sides| && k < |sides| && Partition(sides, members) && Consistent(Union(Tables(sides)))
    requires Stream(arr1, sides, reg) && Stream(arr2, sides, reg)
    requires forall x | x in arr1 || x in arr2 :: Valid(x, sides, reg)
    requires var s1 := RunTo(Begin(sides, i), sides, reg, |members|, arr1);
             var s2 := RunTo(Begin(sides, k), sides, reg, |members|, arr2);
             !s1.gathering && !s1.exited && !s2.gathering && !s2.exited
    ensures var s1 := RunTo(Begin(sides, i), sides, reg, |members|, arr1);
            var s2 := RunTo(Begin(sides, k), sides, reg, |members|, arr2);
            && AllIn(arr1, sides) && AllIn(arr2, sides)
            && s1.table == s2.table && s1.synced == s2.synced == members &&
               TableOf(s1.table, Union(Tables(sides)), sides, reg)
  {
    hide Partition, Consistent, Stream, RunTo, Begin, AllIn, Ended, TableOf, Union, Tables, Valid;
    var r1 := LastIn(sides, members, reg, i, arr1);
    var r2 := LastIn(sides, members, reg, k, arr2);
    EverybodyAgrees(sides, members, reg, i, k, RunTo(Begin(sides, i), sides, reg, |members|, arr1), r1,
                    RunTo(Begin(sides, k), sides, reg, |members|, arr2), r2);
  }

  /** A daemon that has gone back to GOP without a fatal exit did so with the last message, and got none since. */
  lemma LastIn(sides: seq<Side>, members: seq<int>, reg: MembId, i: nat, arr: seq<Arrival>) returns (recs: seq<Group>)
    requires i < |sides| && Partition(sides, members) && Stream(arr, sides, reg) && forall x | x in arr ::
             Valid(x, sides, reg)
    requires var s := RunTo(Begin(sides, i), sides, reg, |members|, arr); !s.gathering && !s.exited
    ensures AllIn(arr, sides) && Ended(RunTo(Begin(sides, i), sides, reg, |members|, arr), sides, members, i, reg, recs)
  {
    hide Partition, Inv, AllIn, Begin, Ended, Gather, Computed, MayCome;
    recs := [];
    if !AllIn(arr, sides) {
      Gathering(sides, members, reg, i, arr);
      InvShape(RunTo(Begin(sides, i), sides, reg, |members|, arr), arr, sides, i);
    } else if arr == [] {
      NeverEmpty(sides, members, i);
    } else {
      var r, a := arr[..|arr| - 1], arr[|arr| - 1];
      assert arr == r + [a];
      StreamValid(r, sides, reg);
      if AllIn(r, sides) {
        OverOnce(sides, members, reg, i, r);
        RunMore(sides, reg, i, |members|, r, a);
      } else {
        ExchangeEnds(sides, members, reg, i, r, a);
        recs :| Ended(RunTo(Begin(sides, i), sides, reg, |members|, arr), sides, members, i, reg, recs);
      }
    }
  }

  /** Once everything is in, the daemon gathers no more: one more GROUPS message is a fatal exit. */
  lemma {:induction false} OverOnce(sides: seq<Side>, members: seq<int>, reg: MembId, i: nat, arr: seq<Arrival>)
    requires i < |sides| && Partition(sides, members) && Stream(arr, sides, reg) && AllIn(arr, sides)
    ensures forall k | 0 <= k < |arr| :: Valid(arr[k], sides, reg)
    ensures var s := RunTo(Begin(sides, i), sides, reg, |members|, arr);
            forall m: Mess :: Handled(s, m, reg, |members|).exited
  {
    hide Partition, Inv, AllIn, Begin, Ended, Gather, Computed, MayCome;
    StreamValid(arr, sides, reg);
    if arr == [] {
      NeverEmpty(sides, members, i);
    } else {
      var r, a := arr[..|arr| - 1], arr[|arr| - 1];
      assert arr == r + [a];
      if AllIn(r, sides) {
        OverOnce(sides, members, reg, i, r);
        RunMore(sides, reg, i, |members|, r, a);
      } else {
        ExchangeEnds(sides, members, reg, i, r, a);
      }
    }
  }

  lemma RunMore(sides: seq<Side>, reg: MembId, i: nat, size: nat, arr: seq<Arrival>, a: Arrival)
    requires i < |sides| && forall k | 0 <= k < |arr + [a]| :: Valid((arr + [a])[k], sides, reg)
    ensures forall k | 0 <= k < |arr| :: Valid(arr[k], sides, reg)
    ensures Valid(a, sides, reg)
    ensures RunTo(Begin(sides, i), sides, reg, size, arr + [a]) ==
            Handled(RunTo(Begin(sides, i), sides, reg, size, arr), MessOf(a, sides, reg), reg, size)
  {
    assert (arr + [a])[|arr|] == a && (arr + [a])[..|arr|] == arr;
    assert forall k | 0 <= k < |arr| :: arr[k] == (arr + [a])[k];
  }

  lemma NeverEmpty(sides: seq<Side>, members: seq<int>, i: nat)
    requires i < |sides| && Partition(sides, members)
    ensures !AllIn([], sides)
  {
    assert SideOk(sides[i]);
    assert Sent(i, 0) !in [];
  }
}
