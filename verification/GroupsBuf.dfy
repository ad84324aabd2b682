/** How a daemon's group table is cut into GROUPS messages.

    The table is walked by two iterators, over the groups and over the daemons of the current group; a
    buffer is closed when the next group or the next daemon does not fit, and the next buffer goes on from
    there.  Sizes are counted in bytes as the program counts them. */
module GroupsBuf {
  const GROUPS_BUF_SIZE: int := 100000
  const MAX_GROUP_NAME: int := 32
  const MEMBERSHIP_ID: int := 8
  const GROUP_ID: int := 12
  const PREAMBLE: int := MEMBERSHIP_ID + 1
  const GROUP_INFO: int := MAX_GROUP_NAME + GROUP_ID + 2 + 2
  const DAEMON_INFO: int := 4 + MEMBERSHIP_ID + 2
  const MESSAGE_HEADER: int := 4 + MAX_GROUP_NAME + 4 + 4 + 4

  /** The limit that joins are checked against. */
  const MAX_LOCAL_GROUP_MEMBERS: int := (GROUPS_BUF_SIZE - PREAMBLE - GROUP_INFO - DAEMON_INFO) / MAX_GROUP_NAME

  /** The most members of one daemon in one group that fit a buffer. */
  const FITTING_MEMBERS: int :=
    (GROUPS_BUF_SIZE - MESSAGE_HEADER - PREAMBLE - GROUP_INFO - DAEMON_INFO) / MAX_GROUP_NAME

  datatype MembId = MembId(proc: int, time: int)

  datatype GroupId = GroupId(memb: MembId, index: int)

  /** The members of a group at one daemon. */
  datatype Dmn = Dmn(proc: int, memb: MembId, members: seq<string>)

  /** A group in the table, or the part of one in a buffer. */
  datatype Group = Group(name: string, gid: GroupId, changed: bool, dmns: seq<Dmn>)

  /** What a buffer holds after the membership id; the synced set is in the first one only. */
  datatype Buf = Buf(first: bool, synced: seq<int>, groups: seq<Group>)

  /** The iterators over the groups and over the daemons of the current one. */
  datatype Pos = Pos(g: nat, d: nat)

  function DmnBytes(d: Dmn): int {
    DAEMON_INFO + |d.members| * MAX_GROUP_NAME
  }

  function DmnsBytes(ds: seq<Dmn>): int {
    if ds == [] then 0 else DmnBytes(ds[0]) + DmnsBytes(ds[1..])
  }

  function GroupsBytes(gs: seq<Group>): int {
    if gs == [] then 0 else GROUP_INFO + DmnsBytes(gs[0].dmns) + GroupsBytes(gs[1..])
  }

  function StartBytes(first: bool, synced: seq<int>): int {
    PREAMBLE + (if first then 4 + |synced| * 4 else 0)
  }

  /** The length of a buffer. */
  function Bytes(b: Buf): int {
    StartBytes(b.first, b.synced) + GroupsBytes(b.groups)
  }

  /** A daemon's entry as it is written: its membership id is that of the group. */
  function Written(d: Dmn, gid: GroupId): Dmn {
    d.(memb := gid.memb)
  }

  /** The entries of the daemons from d on that still fit, and where that ends. */
  function FillDmns(g: Group, d: nat, bytes: int): (r: (seq<Dmn>, nat, int))
    requires d <= |g.dmns|
    ensures d <= r.1 <= |g.dmns|
    decreases |g.dmns| - d
  {
    if d == |g.dmns| || DmnBytes(g.dmns[d]) + MESSAGE_HEADER > GROUPS_BUF_SIZE - bytes then ([], d, bytes) else
      var (ds, d', bytes') := FillDmns(g, d + 1, bytes + DmnBytes(g.dmns[d]));
      ([Written(g.dmns[d], g.gid)] + ds, d', bytes')
  }

  predicate PosOk(table: seq<Group>, p: Pos) {
    p.g <= |table| && (if p.g < |table| then p.d <= |table[p.g].dmns| else p.d == 0)
  }

  /** The records from p on that still fit, and where that ends. */
  function FillGroups(table: seq<Group>, p: Pos, bytes: int): (r: (seq<Group>, Pos))
    requires PosOk(table, p)
    ensures PosOk(table, r.1) && p.g <= r.1.g
    decreases |table| - p.g
  {
    if p.g == |table| || GROUP_INFO + MESSAGE_HEADER > GROUPS_BUF_SIZE - bytes then ([], p) else
      var g := table[p.g];
      var (ds, d, bytes') := FillDmns(g, p.d, bytes + GROUP_INFO);
      var rec := g.(dmns := ds);
      if d < |g.dmns| then ([rec], Pos(p.g, d)) else
        var (rest, p') := FillGroups(table, Pos(p.g + 1, 0), bytes');
        ([rec] + rest, p')
  }

  /** One daemon's entry for one group. */
  datatype Entry = Entry(name: string, gid: GroupId, changed: bool, dmn: Dmn)

  function EntriesOf(g: Group, d: nat): (r: seq<Entry>)
    requires d <= |g.dmns|
    decreases |g.dmns| - d
  {
    if d == |g.dmns| then [] else [Entry(g.name, g.gid, g.changed, Written(g.dmns[d], g.gid))] + EntriesOf(g, d + 1)
  }

  /** All entries of a table from a position on, as they are written. */
  function EntriesFrom(table: seq<Group>, p: Pos): seq<Entry>
    requires PosOk(table, p)
    decreases |table| - p.g
  {
    if p.g == |table| then [] else EntriesOf(table[p.g], p.d) + EntriesFrom(table, Pos(p.g + 1, 0))
  }

  function Entries(table: seq<Group>): seq<Entry> {
    EntriesFrom(table, Pos(0, 0))
  }

  lemma {:induction false} EntriesFromShift(table: seq<Group>, more: seq<Group>, k: nat)
    requires k <= |more|
    ensures EntriesFrom(table + more, Pos(|table| + k, 0)) == EntriesFrom(more, Pos(k, 0))
    decreases |more| - k
  {
    if k < |more| {
      EntriesFromShift(table, more, k + 1);
    }
  }

  /** Entries of a concatenation. */
  lemma {:induction false} EntriesConcat(a: seq<Group>, b: seq<Group>, k: nat)
    requires k <= |a|
    ensures EntriesFrom(a + b, Pos(k, 0)) == EntriesFrom(a, Pos(k, 0)) + Entries(b)
    decreases |a| - k
  {
    if k < |a| {
      EntriesConcat(a, b, k + 1);
      assert (a + b)[k] == a[k];
      assert EntriesOf(a[k], 0) + (EntriesFrom(a, Pos(k + 1, 0)) + Entries(b)) ==
          (EntriesOf(a[k], 0) + EntriesFrom(a, Pos(k + 1, 0))) + Entries(b);
    } else {
      EntriesFromShift(a, b, 0);
    }
  }

  lemma {:induction false} EntriesOfShift(g: Group, w: Dmn, ds: seq<Dmn>, k: nat)
    requires k <= |ds|
    ensures EntriesOf(g.(dmns := [w] + ds), k + 1) == EntriesOf(g.(dmns := ds), k)
    decreases |ds| - k
  {
    if k < |ds| {
      EntriesOfShift(g, w, ds, k + 1);
    }
  }

  lemma {:induction false} FillDmnsBytes(g: Group, d: nat, bytes: int)
    requires d <= |g.dmns|
    ensures var (ds, _, bytes') := FillDmns(g, d, bytes);
            && bytes' == bytes + DmnsBytes(ds)
            && (bytes + MESSAGE_HEADER <= GROUPS_BUF_SIZE ==> bytes' + MESSAGE_HEADER <= GROUPS_BUF_SIZE)
    decreases |g.dmns| - d
  {
    if d < |g.dmns| && DmnBytes(g.dmns[d]) + MESSAGE_HEADER <= GROUPS_BUF_SIZE - bytes {
      FillDmnsBytes(g, d + 1, bytes + DmnBytes(g.dmns[d]));
      var ds := FillDmns(g, d + 1, bytes + DmnBytes(g.dmns[d])).0;
      assert ([Written(g.dmns[d], g.gid)] + ds)[1..] == ds;
    }
  }

  lemma {:induction false} FillDmnsEntries(g: Group, d: nat, bytes: int)
    requires d <= |g.dmns|
    ensures var (ds, d', _) := FillDmns(g, d, bytes);
            EntriesOf(g, d) == EntriesOf(g.(dmns := ds), 0) + EntriesOf(g, d')
    decreases |g.dmns| - d
  {
    if d < |g.dmns| && DmnBytes(g.dmns[d]) + MESSAGE_HEADER <= GROUPS_BUF_SIZE - bytes {
      FillDmnsEntries(g, d + 1, bytes + DmnBytes(g.dmns[d]));
      var (ds, d', _) := FillDmns(g, d + 1, bytes + DmnBytes(g.dmns[d]));
      var w := Written(g.dmns[d], g.gid);
      var first := [Entry(g.name, g.gid, g.changed, w)];
      EntriesOfShift(g, w, ds, 0);
      EntriesOfFirst(g.(dmns := [w] + ds));
      WrittenTwice(g.dmns[d], g.gid);
      assert EntriesOf(g.(dmns := [w] + ds), 0) == first + EntriesOf(g.(dmns := ds), 0);
      assert EntriesOf(g, d) == first + EntriesOf(g, d + 1);
      assert first + (EntriesOf(g.(dmns := ds), 0) + EntriesOf(g, d')) ==
          (first + EntriesOf(g.(dmns := ds), 0)) + EntriesOf(g, d');
    } else {
      assert EntriesOf(g.(dmns := []), 0) == [];
    }
  }

  lemma WrittenTwice(d: Dmn, gid: GroupId)
    ensures Written(Written(d, gid), gid) == Written(d, gid)
  {
  }

  lemma EntriesOfFirst(g: Group)
    requires g.dmns != []
    ensures EntriesOf(g, 0) == [Entry(g.name, g.gid, g.changed, Written(g.dmns[0], g.gid))] + EntriesOf(g, 1)
  {
  }

  /** Nothing of a group is lost or written twice, and what is written fits. */
  lemma FillDmnsIs(g: Group, d: nat, bytes: int)
    requires d <= |g.dmns|
    ensures var (ds, d', bytes') := FillDmns(g, d, bytes);
            && EntriesOf(g, d) == EntriesOf(g.(dmns := ds), 0) + EntriesOf(g, d')
            && bytes' == bytes + DmnsBytes(ds)
            && (bytes + MESSAGE_HEADER <= GROUPS_BUF_SIZE ==> bytes' + MESSAGE_HEADER <= GROUPS_BUF_SIZE)
  {
    FillDmnsBytes(g, d, bytes);
    FillDmnsEntries(g, d, bytes);
  }

  /** The same for a whole buffer. */
  lemma {:induction false} FillGroupsIs(table: seq<Group>, p: Pos, bytes: int)
    requires PosOk(table, p)
    ensures var (recs, p') := FillGroups(table, p, bytes);
            && EntriesFrom(table, p) == Entries(recs) + EntriesFrom(table, p')
            && (bytes + MESSAGE_HEADER <= GROUPS_BUF_SIZE ==>
                  bytes + GroupsBytes(recs) + MESSAGE_HEADER <= GROUPS_BUF_SIZE)
    decreases |table| - p.g
  {
    if p.g == |table| || GROUP_INFO + MESSAGE_HEADER > GROUPS_BUF_SIZE - bytes {
      assert Entries([]) == [];
    } else {
      var g := table[p.g];
      FillDmnsIs(g, p.d, bytes + GROUP_INFO);
      var (ds, d, bytes') := FillDmns(g, p.d, bytes + GROUP_INFO);
      var rec := g.(dmns := ds);
      OneGroup(rec);
      if d == |g.dmns| {
        FillGroupsIs(table, Pos(p.g + 1, 0), bytes');
        var (rest, p') := FillGroups(table, Pos(p.g + 1, 0), bytes');
        EntriesConcat([rec], rest, 0);
        assert ([rec] + rest)[1..] == rest;
      }
    }
  }

  lemma {:induction false} FillDmnsFull(g: Group, d: nat, bytes: int)
    requires d <= |g.dmns|
    ensures var (ds, d', _) := FillDmns(g, d, bytes);
            d' < |g.dmns| ==> bytes + DmnsBytes(ds) + DmnBytes(g.dmns[d']) + MESSAGE_HEADER > GROUPS_BUF_SIZE
    decreases |g.dmns| - d
  {
    if d < |g.dmns| && DmnBytes(g.dmns[d]) + MESSAGE_HEADER <= GROUPS_BUF_SIZE - bytes {
      FillDmnsFull(g, d + 1, bytes + DmnBytes(g.dmns[d]));
      var ds := FillDmns(g, d + 1, bytes + DmnBytes(g.dmns[d])).0;
      assert ([Written(g.dmns[d], g.gid)] + ds)[1..] == ds;
    }
  }

  /** A buffer ends before the table does only when the next piece, a daemon of the record that was begun or else
      the head of the next group, does not fit any more. */
  lemma {:induction false} FillFull(table: seq<Group>, p: Pos, bytes: int)
    requires PosOk(table, p)
    ensures var (recs, p') := FillGroups(table, p, bytes);
            && p'.g <= p.g + |recs| <= p'.g + 1
            && (!AtEnd(table, p') ==>
                  (p'.g < p.g + |recs| ==> p'.d < |table[p'.g].dmns|)
                  && bytes + GroupsBytes(recs) + MESSAGE_HEADER +
                     (if p'.g < p.g + |recs| then DmnBytes(table[p'.g].dmns[p'.d]) else GROUP_INFO) > GROUPS_BUF_SIZE)
    decreases |table| - p.g
  {
    if p.g < |table| && GROUP_INFO + MESSAGE_HEADER <= GROUPS_BUF_SIZE - bytes {
      var g := table[p.g];
      FillDmnsBytes(g, p.d, bytes + GROUP_INFO);
      FillDmnsFull(g, p.d, bytes + GROUP_INFO);
      var (ds, d, bytes') := FillDmns(g, p.d, bytes + GROUP_INFO);
      var rec := g.(dmns := ds);
      OneGroup(rec);
      if d == |g.dmns| {
        FillFull(table, Pos(p.g + 1, 0), bytes');
        var rest := FillGroups(table, Pos(p.g + 1, 0), bytes').0;
        assert ([rec] + rest)[1..] == rest;
      }
    }
  }

  lemma OneGroup(g: Group)
    ensures Entries([g]) == EntriesOf(g, 0) && GroupsBytes([g]) == GROUP_INFO + DmnsBytes(g.dmns)
  {
    assert EntriesFrom([g], Pos(1, 0)) == [];
  }

  predicate Before(p: Pos, q: Pos) {
    p.g < q.g || (p.g == q.g && p.d < q.d)
  }

  predicate AtEnd(table: seq<Group>, p: Pos) {
    p.g == |table|
  }

  predicate Fits(table: seq<Group>) {
    forall g, d | 0 <= g < |table| && 0 <= d < |table[g].dmns| :: |table[g].dmns[d].members| <= FITTING_MEMBERS
  }

  /** A buffer without a synced set always gets on when everything fits. */
  lemma Progress(table: seq<Group>, p: Pos)
    requires PosOk(table, p) && !AtEnd(table, p) && Fits(table)
    ensures Before(p, FillGroups(table, p, PREAMBLE).1)
  {
  }

  /** A daemon with more members than fit stops the walk for good. */
  lemma {:induction false} NoProgress(table: seq<Group>, p: Pos, bytes: int, g: nat, d: nat)
    requires PosOk(table, p) && bytes >= PREAMBLE
    requires g < |table| && d < |table[g].dmns| && |table[g].dmns[d].members| > FITTING_MEMBERS
    requires !Before(Pos(g, d), p)
    ensures !Before(Pos(g, d), FillGroups(table, p, bytes).1)
    decreases |table| - p.g
  {
    if p.g < |table| && GROUP_INFO + MESSAGE_HEADER <= GROUPS_BUF_SIZE - bytes {
      FillDmnsIs(table[p.g], p.d, bytes + GROUP_INFO);
      var (ds, d', bytes') := FillDmns(table[p.g], p.d, bytes + GROUP_INFO);
      DmnsBytesPositive(ds);
      if p.g == g {
        DmnsStop(table[g], p.d, bytes + GROUP_INFO, d);
      } else if d' == |table[p.g].dmns| {
        NoProgress(table, Pos(p.g + 1, 0), bytes', g, d);
      }
    }
  }

  lemma {:induction false} DmnsBytesPositive(ds: seq<Dmn>)
    ensures DmnsBytes(ds) >= 0
  {
    if ds != [] {
      DmnsBytesPositive(ds[1..]);
    }
  }

  lemma {:induction false} DmnsStop(g: Group, from: nat, bytes: int, d: nat)
    requires from <= d < |g.dmns| && bytes >= PREAMBLE + GROUP_INFO
    requires |g.dmns[d].members| > FITTING_MEMBERS
    ensures FillDmns(g, from, bytes).1 <= d
    decreases d - from
  {
    if from < d && DmnBytes(g.dmns[from]) + MESSAGE_HEADER <= GROUPS_BUF_SIZE - bytes {
      DmnsStop(g, from + 1, bytes + DmnBytes(g.dmns[from]), d);
    }
  }

  /** The position after n buffers. */
  function PosAfter(table: seq<Group>, synced: seq<int>, n: nat): (p: Pos)
    ensures PosOk(table, p)
  {
    if n == 0 then Pos(0, 0) else FillGroups(table, PosAfter(table, synced, n - 1), StartBytes(n == 1, synced)).1
  }

  lemma {:induction false} Stuck(table: seq<Group>, synced: seq<int>, n: nat, g: nat, d: nat)
    requires g < |table| && d < |table[g].dmns| && |table[g].dmns[d].members| > FITTING_MEMBERS
    ensures !Before(Pos(g, d), PosAfter(table, synced, n))
  {
    if n > 0 {
      Stuck(table, synced, n - 1, g, d);
      NoProgress(table, PosAfter(table, synced, n - 1), StartBytes(n == 1, synced), g, d);
    }
  }

  /** How much of the walk is left. */
  function Left(table: seq<Group>, p: Pos): nat
    requires PosOk(table, p)
    decreases |table| - p.g
  {
    if p.g == |table| then 0 else |table[p.g].dmns| - p.d + 1 + Left(table, Pos(p.g + 1, 0))
  }

  lemma {:induction false} LeftDecreases(table: seq<Group>, p: Pos, q: Pos)
    requires PosOk(table, p) && PosOk(table, q) && Before(p, q)
    ensures Left(table, q) < Left(table, p)
    decreases |table| - p.g
  {
    if p.g < q.g && (p.g + 1 < q.g || q.d > 0) {
      LeftDecreases(table, Pos(p.g + 1, 0), q);
    }
  }

  lemma {:induction false} Reaches(table: seq<Group>, synced: seq<int>, n: nat)
    requires Fits(table) && n > 0
    ensures exists m :: AtEnd(table, PosAfter(table, synced, m))
    decreases Left(table, PosAfter(table, synced, n))
  {
    var p := PosAfter(table, synced, n);
    if !AtEnd(table, p) {
      Progress(table, p);
      assert PosAfter(table, synced, n + 1) == FillGroups(table, p, PREAMBLE).1;
      LeftDecreases(table, p, PosAfter(table, synced, n + 1));
      Reaches(table, synced, n + 1);
    }
  }

  /** Building the buffers ends exactly when no daemon has more than FITTING_MEMBERS members in a group. */
  lemma BuildingEndsIff(table: seq<Group>, synced: seq<int>)
    ensures (exists n :: AtEnd(table, PosAfter(table, synced, n))) <==> Fits(table)
  {
    if Fits(table) {
      Reaches(table, synced, 1);
    } else {
      var g, d :| 0 <= g < |table| && 0 <= d < |table[g].dmns| && |table[g].dmns[d].members| > FITTING_MEMBERS;
      forall n
        ensures !AtEnd(table, PosAfter(table, synced, n))
      {
        Stuck(table, synced, n, g, d);
      }
    }
  }

  /** The limit that joins are checked against is one too high: one daemon at that limit and the building
      never ends. */
  lemma LimitTooHigh(table: seq<Group>, synced: seq<int>, n: nat)
    requires |table| == 1 && |table[0].dmns| == 1 && |table[0].dmns[0].members| == MAX_LOCAL_GROUP_MEMBERS
    ensures FITTING_MEMBERS + 1 == MAX_LOCAL_GROUP_MEMBERS && !AtEnd(table, PosAfter(table, synced, n))
  {
    Stuck(table, synced, n, 0, 0);
  }

  lemma FillDmnsStep(g: Group, d: nat, bytes: int, before: seq<Dmn>)
    requires d < |g.dmns| && DmnBytes(g.dmns[d]) + MESSAGE_HEADER <= GROUPS_BUF_SIZE - bytes
    ensures var (ds, d', bytes') := FillDmns(g, d, bytes);
            var (ds', d'', bytes'') := FillDmns(g, d + 1, bytes + DmnBytes(g.dmns[d]));
            before + ds == (before + [Written(g.dmns[d], g.gid)]) + ds' && d' == d'' && bytes' == bytes''
  {
  }

  /** The loop over the daemons of a group: as many as fit. */
  method WriteDaemons(g: Group, d: nat, bytes: int) returns (ds: seq<Dmn>, d': nat, bytes': int)
    requires d <= |g.dmns|
    ensures (ds, d', bytes') == FillDmns(g, d, bytes)
  {
    hide Written, DmnBytes;
    ds, d', bytes' := [], d, bytes;
    ghost var all := FillDmns(g, d, bytes);
    assert [] + all.0 == all.0;
    while d' < |g.dmns| && DmnBytes(g.dmns[d']) + MESSAGE_HEADER <= GROUPS_BUF_SIZE - bytes'
      invariant d' <= |g.dmns|
      invariant var (r, e, b) := FillDmns(g, d', bytes'); all == (ds + r, e, b)
    {
      FillDmnsStep(g, d', bytes', ds);
      ds := ds + [Written(g.dmns[d'], g.gid)];
      bytes' := bytes' + DmnBytes(g.dmns[d']);
      d' := d' + 1;
    }
    assert FillDmns(g, d', bytes') == ([], d', bytes') && ds + [] == ds;
  }

  lemma FillGroupsStep(table: seq<Group>, p: Pos, bytes: int, before: seq<Group>)
    requires PosOk(table, p) && p.g < |table| && GROUP_INFO + MESSAGE_HEADER <= GROUPS_BUF_SIZE - bytes
    ensures var g := table[p.g];
            var (ds, d, bytes') := FillDmns(g, p.d, bytes + GROUP_INFO);
            var (recs, p') := FillGroups(table, p, bytes);
            if d < |g.dmns| then before + recs == before + [g.(dmns := ds)] && p' == Pos(p.g, d)
            else
              var (rest, q) := FillGroups(table, Pos(p.g + 1, 0), bytes');
              before + recs == (before + [g.(dmns := ds)]) + rest && p' == q
  {
    hide FillDmns;
  }

  /** G_build_groups_buf: one buffer from the iterators on. */
  method BuildGroupsBuf(table: seq<Group>, p: Pos, first: bool, synced: seq<int>) returns (b: Buf, p': Pos)
    requires PosOk(table, p)
    ensures b.first == first && b.synced == (if first then synced else [])
    ensures (b.groups, p') == FillGroups(table, p, StartBytes(first, synced))
  {
    hide FillDmns;
    var numBytes := StartBytes(first, synced);
    p' := p;
    var recs: seq<Group> := [];
    ghost var all := FillGroups(table, p, numBytes);
    assert [] + all.0 == all.0;
    while p'.g < |table| && GROUP_INFO + MESSAGE_HEADER <= GROUPS_BUF_SIZE - numBytes
      invariant PosOk(table, p')
      invariant var (r, q) := FillGroups(table, p', numBytes); all == (recs + r, q)
      decreases |table| - p'.g
    {
      FillGroupsStep(table, p', numBytes, recs);
      var g := table[p'.g];
      var ds, d, bytes := WriteDaemons(g, p'.d, numBytes + GROUP_INFO);
      recs := recs + [g.(dmns := ds)];
      if d < |g.dmns| {
        b := Buf(first, if first then synced else [], recs);
        p' := Pos(p'.g, d);
        return;
      }
      p', numBytes := Pos(p'.g + 1, 0), bytes;
    }
    assert FillGroups(table, p', numBytes) == ([], p') && recs + [] == recs;
    b := Buf(first, if first then synced else [], recs);
  }

  /** Every daemon of a record carries the record's membership id, as buffers do. */
  predicate Stamped(r: Group) {
    forall k | 0 <= k < |r.dmns| :: r.dmns[k].memb == r.gid.memb
  }

  predicate SameHead(r: Group, g: Group) {
    r.name == g.name && r.gid == g.gid && r.changed == g.changed
  }

  /** Records of the table only: each is headed like one of its groups and stamped with its membership id. */
  ghost predicate RecordsOf(recs: seq<Group>, table: seq<Group>) {
    forall k | 0 <= k < |recs| :: Stamped(recs[k]) && exists i :: 0 <= i < |table| && SameHead(recs[k], table[i])
  }

  lemma {:induction false} FillDmnsStamped(g: Group, d: nat, bytes: int)
    requires d <= |g.dmns|
    ensures forall k | 0 <= k < |FillDmns(g, d, bytes).0| :: FillDmns(g, d, bytes).0[k].memb == g.gid.memb
    decreases |g.dmns| - d
  {
    if d < |g.dmns| {
      FillDmnsStamped(g, d + 1, bytes + DmnBytes(g.dmns[d]));
    }
  }

  lemma {:induction false} FillGroupsRecords(table: seq<Group>, p: Pos, bytes: int)
    requires PosOk(table, p)
    ensures RecordsOf(FillGroups(table, p, bytes).0, table)
    decreases |table| - p.g
  {
    if p.g < |table| && GROUP_INFO + MESSAGE_HEADER <= GROUPS_BUF_SIZE - bytes {
      var g := table[p.g];
      FillDmnsStamped(g, p.d, bytes + GROUP_INFO);
      var (ds, d, bytes') := FillDmns(g, p.d, bytes + GROUP_INFO);
      assert SameHead(g.(dmns := ds), table[p.g]);
      if d == |g.dmns| {
        FillGroupsRecords(table, Pos(p.g + 1, 0), bytes');
      }
    }
  }

  lemma RecordsMore(a: seq<Group>, b: seq<Group>, table: seq<Group>)
    requires RecordsOf(a, table) && RecordsOf(b, table)
    ensures RecordsOf(a + b, table)
  {
  }

  function AllGroups(bufs: seq<Buf>): seq<Group> {
    if bufs == [] then [] else AllGroups(bufs[..|bufs| - 1]) + bufs[|bufs| - 1].groups
  }

  /** Every buffer leaves room for the message header; the first one has the synced set. */
  predicate BufsOk(bufs: seq<Buf>, synced: seq<int>) {
    forall i | 0 <= i < |bufs| ::
      && Bytes(bufs[i]) + MESSAGE_HEADER <= GROUPS_BUF_SIZE
      && bufs[i].first == (i == 0) && bufs[i].synced == (if i == 0 then synced else [])
  }

  lemma BufsOkAppend(bufs: seq<Buf>, synced: seq<int>, b: Buf)
    requires BufsOk(bufs, synced) && Bytes(b) + MESSAGE_HEADER <= GROUPS_BUF_SIZE
    requires b.first == (bufs == []) && b.synced == (if bufs == [] then synced else [])
    ensures BufsOk(bufs + [b], synced)
  {
    hide GroupsBytes;
  }

  /** What the loop keeps: what is written so far and what is left make up the table. */
  ghost predicate Accounted(table: seq<Group>, bufs: seq<Buf>, p: Pos)
    requires PosOk(table, p)
  {
    Entries(AllGroups(bufs)) + EntriesFrom(table, p) == Entries(table) && RecordsOf(AllGroups(bufs), table)
  }

  lemma NothingWritten(table: seq<Group>, synced: seq<int>)
    ensures Accounted(table, [], Pos(0, 0)) && BufsOk([], synced)
  {
    assert Entries([]) + EntriesFrom(table, Pos(0, 0)) == Entries(table);
  }

  lemma AllWritten(table: seq<Group>, bufs: seq<Buf>, p: Pos)
    requires PosOk(table, p) && Accounted(table, bufs, p) && p.g == |table|
    ensures Entries(AllGroups(bufs)) == Entries(table) && RecordsOf(AllGroups(bufs), table)
  {
    assert EntriesFrom(table, p) == [];
  }

  /** G_build_new_groups_bufs: every daemon's entry for every group is in exactly one buffer, in the order of
      the table, and every buffer leaves room for the message header. */
  method BuildNewGroupsBufs(table: seq<Group>, synced: seq<int>) returns (bufs: seq<Buf>)
    requires Fits(table) && StartBytes(true, synced) + MESSAGE_HEADER <= GROUPS_BUF_SIZE
    ensures Entries(AllGroups(bufs)) == Entries(table) && RecordsOf(AllGroups(bufs), table)
    ensures bufs != [] && BufsOk(bufs, synced)
  {
    hide FillGroups, Entries, EntriesFrom, Accounted, BufsOk, Bytes, RecordsOf, AllGroups;
    var p := Pos(0, 0);
    bufs := [];
    var first := true;
    NothingWritten(table, synced);
    while first || p.g < |table|
      invariant PosOk(table, p) && first == (bufs == [])
      invariant Accounted(table, bufs, p) && BufsOk(bufs, synced)
      decreases if first then 1 else 0, Left(table, p)
    {
      BufferKeeps(table, p, first, synced, bufs);
      if !first {
        Progress(table, p);
        LeftDecreases(table, p, FillGroups(table, p, PREAMBLE).1);
      }
      var b, p' := BuildGroupsBuf(table, p, first, synced);
      BufsOkAppend(bufs, synced, b);
      bufs, p, first := bufs + [b], p', false;
    }
    AllWritten(table, bufs, p);
  }

  lemma Assoc<T>(a: seq<T>, b: seq<T>, c: seq<T>)
    ensures (a + b) + c == a + (b + c)
  {
  }

  lemma EntriesPlus(a: seq<Group>, b: seq<Group>)
    ensures Entries(a + b) == Entries(a) + Entries(b)
  {
    EntriesConcat(a, b, 0);
  }

  lemma RecordsKeep(table: seq<Group>, p: Pos, bytes: int, before: seq<Group>)
    requires PosOk(table, p)
    ensures var (recs, p') := FillGroups(table, p, bytes);
            Entries(before + recs) + EntriesFrom(table, p') == Entries(before) + EntriesFrom(table, p)
  {
    hide *;
    var (recs, p') := FillGroups(table, p, bytes);
    FillGroupsIs(table, p, bytes);
    EntriesPlus(before, recs);
    Assoc(Entries(before), Entries(recs), EntriesFrom(table, p'));
  }

  lemma AllGroupsAppend(bufs: seq<Buf>, b: Buf)
    ensures AllGroups(bufs + [b]) == AllGroups(bufs) + b.groups
  {
    assert (bufs + [b])[..|bufs|] == bufs;
  }

  lemma BufferKeeps(table: seq<Group>, p: Pos, first: bool, synced: seq<int>, bufs: seq<Buf>)
    requires PosOk(table, p) && Accounted(table, bufs, p)
    ensures var (recs, p') := FillGroups(table, p, StartBytes(first, synced));
            var b := Buf(first, if first then synced else [], recs);
            && Accounted(table, bufs + [b], p')
            && (StartBytes(first, synced) + MESSAGE_HEADER <= GROUPS_BUF_SIZE ==>
                  Bytes(b) + MESSAGE_HEADER <= GROUPS_BUF_SIZE)
  {
    hide RecordsOf, FillGroups, Entries, EntriesFrom, GroupsBytes, AllGroups;
    var bytes := StartBytes(first, synced);
    var recs := FillGroups(table, p, bytes).0;
    FillGroupsIs(table, p, bytes);
    AllGroupsAppend(bufs, Buf(first, if first then synced else [], recs));
    RecordsKeep(table, p, bytes, AllGroups(bufs));
    FillGroupsRecords(table, p, bytes);
    RecordsMore(AllGroups(bufs), recs, table);
  }
}
