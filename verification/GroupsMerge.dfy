/** The exchange of group tables after a membership change: what a daemon makes of the GROUPS messages of the
    other synced sets, and why every daemon ends with the same table. */
module GroupsMerge {
  import opened GroupsBuf

  /** The members of a group at one daemon, in the table. */
  datatype Dm = Dm(memb: MembId, members: seq<string>)

  /** A group; num is the number of its members (num_members). */
  datatype Grp = Grp(gid: GroupId, changed: bool, dmns: map<int, Dm>, num: nat)

  type Table = map<string, Grp>

  /** A daemon's entry is put into the group; another membership id marks the group as changed. */
  function AddDmn(g: Grp, d: Dmn): Grp {
    Grp(g.gid, g.changed || d.memb != g.gid.memb, g.dmns[d.proc := Dm(d.memb, d.members)], g.num + |d.members|)
  }

  function AddDmns(g: Grp, ds: seq<Dmn>): Grp {
    if ds == [] then g else AddDmn(AddDmns(g, ds[..|ds| - 1]), ds[|ds| - 1])
  }

  /** The group of a record as it is before the record's daemons are added. */
  function Opened(t: Table, r: Group): Grp {
    var g := if r.name in t then t[r.name] else Grp(r.gid, false, map[], 0);
    g.(changed := g.changed || r.changed)
  }

  function AddRec(t: Table, r: Group): Table {
    t[r.name := AddDmns(Opened(t, r), r.dmns)]
  }

  function AddRecs(t: Table, recs: seq<Group>): Table {
    if recs == [] then t else AddRec(AddRecs(t, recs[..|recs| - 1]), recs[|recs| - 1])
  }

  /** A membership id that is known; a daemon that was partitioned away has none. */
  predicate Established(m: MembId) {
    m.proc != -1
  }

  /** The new group id of a changed group, and the membership ids of its established daemons. */
  function NotifyGroup(g: Grp, reg: MembId): Grp {
    if !g.changed then g else
      Grp(GroupId(reg, 1), false,
          map p | p in g.dmns :: if Established(g.dmns[p].memb) then Dm(reg, g.dmns[p].members) else g.dmns[p],
          g.num)
  }

  function Notify(t: Table, reg: MembId): Table {
    map n | n in t :: NotifyGroup(t[n], reg)
  }

  /** Record r writes daemon p with members ms. */
  predicate Writes(r: Group, p: int, ms: seq<string>) {
    exists k :: 0 <= k < |r.dmns| && r.dmns[k].proc == p && r.dmns[k].members == ms
  }

  /** Some record of the group writes daemon p. */
  ghost predicate WrittenBy(seen: set<Group>, name: string, p: int) {
    exists r, ms :: r in seen && r.name == name && Writes(r, p, ms)
  }

  /** Record r makes the group changed, if its id is gid. */
  predicate Changes(r: Group, gid: GroupId) {
    r.changed || (r.dmns != [] && r.gid.memb != gid.memb)
  }

  /** What a group is made of, in terms of the records seen of it. */
  ghost predicate GroupIs(g: Grp, name: string, seen: set<Group>) {
    && (exists r :: r in seen && r.name == name && r.gid == g.gid)
    && (g.changed <==> exists r :: r in seen && r.name == name && Changes(r, g.gid))
    && (forall p :: p in g.dmns <==> WrittenBy(seen, name, p))
    && (forall p | p in g.dmns :: exists r :: r in seen && r.name == name && Writes(r, p, g.dmns[p].members))
    && (!g.changed ==> forall p | p in g.dmns :: g.dmns[p].memb == g.gid.memb)
  }

  ghost predicate TableIs(t: Table, seen: set<Group>) {
    && (forall n :: n in t <==> exists r :: r in seen && r.name == n)
    && forall n | n in t :: GroupIs(t[n], n, seen)
  }

  lemma {:induction false} AddDmnsIs(g: Grp, ds: seq<Dmn>)
    ensures var r := AddDmns(g, ds);
            && r.gid == g.gid
            && (r.changed <==> g.changed || exists k :: 0 <= k < |ds| && ds[k].memb != g.gid.memb)
            && (forall p :: p in r.dmns <==> p in g.dmns || exists k :: 0 <= k < |ds| && ds[k].proc == p)
            && (forall p | p in r.dmns ::
                  (p in g.dmns && r.dmns[p] == g.dmns[p]) ||
                  (exists k :: 0 <= k < |ds| && ds[k].proc == p && r.dmns[p] == Dm(ds[k].memb, ds[k].members)))
  {
    if ds != [] {
      AddDmnsIs(g, ds[..|ds| - 1]);
      assert ds[|ds| - 1].proc == ds[|ds| - 1].proc;
    }
  }

  lemma WrittenMore(seen: set<Group>, r: Group, name: string, p: int)
    ensures WrittenBy(seen + {r}, name, p) <==>
            WrittenBy(seen, name, p) || (r.name == name && exists k :: 0 <= k < |r.dmns| && r.dmns[k].proc == p)
  {
    if r.name == name && exists k :: 0 <= k < |r.dmns| && r.dmns[k].proc == p {
      var k :| 0 <= k < |r.dmns| && r.dmns[k].proc == p;
      assert r in seen + {r} && Writes(r, p, r.dmns[k].members);
    }
    if WrittenBy(seen, name, p) {
      var r', ms :| r' in seen && r'.name == name && Writes(r', p, ms);
      assert r' in seen + {r};
    }
  }

  lemma NoneWritten(t: Table, seen: set<Group>, name: string, p: int)
    requires TableIs(t, seen)
    ensures name !in t ==> !WrittenBy(seen, name, p)
  {
  }

  lemma GroupAfter(t: Table, r: Group, seen: set<Group>)
    requires TableIs(t, seen) && (r.changed || Stamped(r))
    ensures GroupIs(AddDmns(Opened(t, r), r.dmns), r.name, seen + {r})
  {
    var g0, g := Opened(t, r), AddDmns(Opened(t, r), r.dmns);
    var all := seen + {r};
    AddDmnsIs(g0, r.dmns);
    forall p
      ensures p in g.dmns <==> WrittenBy(all, r.name, p)
    {
      WrittenMore(seen, r, r.name, p);
      NoneWritten(t, seen, r.name, p);
    }
    forall p | p in g.dmns
      ensures exists r' :: r' in all && r'.name == r.name && Writes(r', p, g.dmns[p].members)
    {
      if p in g0.dmns && g.dmns[p] == g0.dmns[p] {
        assert p in t[r.name].dmns;
      } else {
        assert r in all && Writes(r, p, g.dmns[p].members);
      }
    }
    assert r in all;
  }

  lemma GroupKept(g: Grp, name: string, seen: set<Group>, r: Group)
    requires GroupIs(g, name, seen) && r.name != name
    ensures GroupIs(g, name, seen + {r})
  {
    forall p
      ensures p in g.dmns <==> WrittenBy(seen + {r}, name, p)
    {
      WrittenMore(seen, r, name, p);
    }
    assert forall r' :: r' in seen ==> r' in seen + {r};
  }

  /** One record. */
  lemma AddRecKeeps(t: Table, r: Group, seen: set<Group>)
    requires TableIs(t, seen) && (r.changed || Stamped(r))
    ensures TableIs(AddRec(t, r), seen + {r})
  {
    GroupAfter(t, r, seen);
    var t' := AddRec(t, r);
    hide GroupIs, Stamped;
    forall n | n in t'
      ensures GroupIs(t'[n], n, seen + {r})
    {
      if n != r.name {
        GroupKept(t[n], n, seen, r);
      }
    }
    assert forall r' :: r' in seen + {r} <==> r' in seen || r' == r;
  }

  function SetOf(recs: seq<Group>): set<Group> {
    set r | r in recs
  }

  lemma {:induction false} AddRecsKeeps(t: Table, recs: seq<Group>, seen: set<Group>)
    requires TableIs(t, seen) && forall r | r in recs :: r.changed || Stamped(r)
    ensures TableIs(AddRecs(t, recs), seen + SetOf(recs))
  {
    hide TableIs, Stamped;
    if recs == [] {
      assert seen + SetOf(recs) == seen;
    } else {
      var rest, r := recs[..|recs| - 1], recs[|recs| - 1];
      assert recs == rest + [r];
      AddRecsKeeps(t, rest, seen);
      AddRecKeeps(AddRecs(t, rest), r, seen + SetOf(rest));
      assert seen + SetOf(rest) + {r} == seen + SetOf(recs);
    }
  }

  lemma EmptyTable()
    ensures TableIs(map[], {})
  {
  }

  ghost predicate HeadIn(all: set<Group>, r: Group) {
    exists g :: g in all && SameHead(r, g)
  }

  ghost predicate WrittenIn(all: set<Group>, r: Group, p: int, ms: seq<string>) {
    exists g :: g in all && SameHead(r, g) && Writes(g, p, ms)
  }

  /** The records say nothing but what the groups say. */
  ghost predicate From(seen: set<Group>, all: set<Group>) {
    && (forall r | r in seen :: HeadIn(all, r))
    && (forall r, p, ms | r in seen && Writes(r, p, ms) :: WrittenIn(all, r, p, ms))
  }

  /** Records that say about the groups all exactly what those groups say. */
  ghost predicate Covers(seen: set<Group>, all: set<Group>) {
    && From(seen, all)
    && (forall g, p, ms | g in all && Writes(g, p, ms) :: WrittenIn(seen, g, p, ms))
  }

  /** No daemon of the record was partitioned away: those are eliminated before the exchange. */
  predicate NobodyGone(g: Group) {
    Established(g.gid.memb) && forall k | 0 <= k < |g.dmns| :: Established(g.dmns[k].memb)
  }

  /** The tables of the synced sets: no group is empty, no daemon in it was partitioned away, the membership id of
      an unchanged group is that of its daemons, no daemon is known to two sets, and two sets that know an unchanged
      group by the same membership id know it by the same group id. */
  ghost predicate Consistent(all: set<Group>) {
    && (forall g | g in all :: g.dmns != [] && (g.changed || Stamped(g)) && NobodyGone(g))
    && (forall g, h, p, ms, ns | g in all && h in all && g.name == h.name && Writes(g, p, ms) && Writes(h, p, ns) ::
          ms == ns)
    && (forall g, h | g in all && h in all && g.name == h.name && !g.changed && !h.changed &&
          g.gid.memb == h.gid.memb :: g.gid == h.gid)
  }

  /** A group has changed if some set says so, or two sets know it by different membership ids. */
  ghost predicate HasChanged(all: set<Group>, name: string) {
    || (exists g :: g in all && g.name == name && g.changed)
    || (exists g, h :: g in all && h in all && g.name == name && h.name == name && g.gid.memb != h.gid.memb)
  }

  lemma FirstWrite(g: Group)
    requires g.dmns != []
    ensures Writes(g, g.dmns[0].proc, g.dmns[0].members)
  {
  }

  lemma HeadSeen(seen: set<Group>, all: set<Group>, g: Group) returns (r: Group)
    requires Covers(seen, all) && g in all && g.dmns != []
    ensures r in seen && SameHead(r, g) && r.dmns != []
  {
    hide From;
    FirstWrite(g);
    assert WrittenIn(seen, g, g.dmns[0].proc, g.dmns[0].members);
    r :| r in seen && SameHead(g, r) && Writes(r, g.dmns[0].proc, g.dmns[0].members);
  }

  lemma HeadFrom(seen: set<Group>, all: set<Group>, r: Group) returns (g: Group)
    requires Covers(seen, all) && r in seen
    ensures g in all && SameHead(r, g)
  {
    assert HeadIn(all, r);
    g :| g in all && SameHead(r, g);
  }

  predicate NoneEmpty(all: set<Group>) {
    forall g | g in all :: g.dmns != []
  }

  lemma NameIff(t: Table, seen: set<Group>, all: set<Group>, name: string)
    requires TableIs(t, seen) && Covers(seen, all) && NoneEmpty(all)
    ensures name in t <==> exists g :: g in all && g.name == name
  {
    hide Covers;
    if g :| g in all && g.name == name {
      var r := HeadSeen(seen, all, g);
    }
    if name in t {
      var r :| r in seen && r.name == name;
      var g := HeadFrom(seen, all, r);
    }
  }

  /** In terms of the sets' tables: when a daemon ends with the group marked, and with which id. */
  lemma ChangedIff(g: Grp, name: string, seen: set<Group>, all: set<Group>)
    requires GroupIs(g, name, seen) && Covers(seen, all) && NoneEmpty(all)
    ensures g.changed <==> HasChanged(all, name)
    ensures exists h :: h in all && h.name == name && h.gid == g.gid
  {
    hide Covers, WrittenBy, Writes;
    var r0 :| r0 in seen && r0.name == name && r0.gid == g.gid;
    var g0 := HeadFrom(seen, all, r0);
    if g.changed {
      var r :| r in seen && r.name == name && Changes(r, g.gid);
      var h := HeadFrom(seen, all, r);
      assert h.changed || h.gid.memb != g0.gid.memb;
    }
    if HasChanged(all, name) {
      if h :| h in all && h.name == name && h.changed {
        var r := HeadSeen(seen, all, h);
        assert Changes(r, g.gid);
      } else {
        var a, b :| a in all && b in all && a.name == name && b.name == name && a.gid.memb != b.gid.memb;
        var r := HeadSeen(seen, all, if a.gid.memb != g.gid.memb then a else b);
        assert Changes(r, g.gid);
      }
    }
  }

  lemma DmnsIff(g: Grp, name: string, seen: set<Group>, all: set<Group>, p: int)
    requires GroupIs(g, name, seen) && Covers(seen, all)
    ensures p in g.dmns <==> WrittenBy(all, name, p)
    ensures p in g.dmns ==> exists h :: h in all && h.name == name && Writes(h, p, g.dmns[p].members)
  {
    hide From;
    if WrittenBy(all, name, p) {
      var h, ms :| h in all && h.name == name && Writes(h, p, ms);
      assert WrittenIn(seen, h, p, ms);
      var r :| r in seen && SameHead(h, r) && Writes(r, p, ms);
      assert WrittenBy(seen, name, p);
    }
    if p in g.dmns {
      var r :| r in seen && r.name == name && Writes(r, p, g.dmns[p].members);
      WritesFrom(seen, all, r, p, g.dmns[p].members);
      var h :| h in all && SameHead(r, h) && Writes(h, p, g.dmns[p].members);
    }
  }

  lemma WritesFrom(seen: set<Group>, all: set<Group>, r: Group, p: int, ms: seq<string>)
    requires Covers(seen, all) && r in seen && Writes(r, p, ms)
    ensures WrittenIn(all, r, p, ms)
  {
  }

  lemma SameMembers(all: set<Group>, g: Group, h: Group, p: int, ms: seq<string>, ns: seq<string>)
    requires Consistent(all) && g in all && h in all && g.name == h.name && Writes(g, p, ms) && Writes(h, p, ns)
    ensures ms == ns
  {
  }

  lemma SameId(all: set<Group>, g: Group, h: Group)
    requires Consistent(all) && g in all && h in all && g.name == h.name && !HasChanged(all, g.name)
    ensures g.gid == h.gid
  {
  }

  lemma SameDmns(g1: Grp, s1: set<Group>, g2: Grp, s2: set<Group>, name: string, all: set<Group>, p: int)
    requires GroupIs(g1, name, s1) && GroupIs(g2, name, s2) && Covers(s1, all) && Covers(s2, all) && Consistent(all)
    ensures p in g1.dmns <==> p in g2.dmns
    ensures p in g1.dmns ==> g1.dmns[p].members == g2.dmns[p].members
  {
    hide GroupIs, Covers, Consistent;
    DmnsIff(g1, name, s1, all, p);
    DmnsIff(g2, name, s2, all, p);
    if p in g1.dmns {
      var h1 :| h1 in all && h1.name == name && Writes(h1, p, g1.dmns[p].members);
      var h2 :| h2 in all && h2.name == name && Writes(h2, p, g2.dmns[p].members);
      SameMembers(all, h1, h2, p, g1.dmns[p].members, g2.dmns[p].members);
    }
  }

  lemma UnchangedMemb(g: Grp, name: string, seen: set<Group>)
    requires GroupIs(g, name, seen) && !g.changed
    ensures forall p | p in g.dmns :: g.dmns[p].memb == g.gid.memb
  {
  }

  lemma NoneEmptyOf(all: set<Group>)
    requires Consistent(all)
    ensures NoneEmpty(all)
  {
  }

  /** No daemon of the group was partitioned away. */
  ghost predicate NoneGone(g: Grp) {
    forall p | p in g.dmns :: Established(g.dmns[p].memb)
  }

  lemma SameGroups(g1: Grp, s1: set<Group>, g2: Grp, s2: set<Group>, name: string, all: set<Group>, reg: MembId)
    requires GroupIs(g1, name, s1) && GroupIs(g2, name, s2) && Covers(s1, all) && Covers(s2, all) && Consistent(all)
    requires NoneGone(g1) && NoneGone(g2) && g1.num == g2.num
    ensures NotifyGroup(g1, reg) == NotifyGroup(g2, reg)
  {
    hide GroupIs, Covers, Consistent, HasChanged;
    NoneEmptyOf(all);
    ChangedIff(g1, name, s1, all);
    ChangedIff(g2, name, s2, all);
    forall p
      ensures p in g1.dmns <==> p in g2.dmns
      ensures p in g1.dmns ==> g1.dmns[p].members == g2.dmns[p].members
    {
      SameDmns(g1, s1, g2, s2, name, all, p);
    }
    if !g1.changed {
      var h1 :| h1 in all && h1.name == name && h1.gid == g1.gid;
      var h2 :| h2 in all && h2.name == name && h2.gid == g2.gid;
      SameId(all, h1, h2);
      UnchangedMemb(g1, name, s1);
      UnchangedMemb(g2, name, s2);
      forall p | p in g1.dmns
        ensures g1.dmns[p] == g2.dmns[p]
      {
        assert p in g2.dmns && g1.dmns[p].memb == g2.dmns[p].memb && g1.dmns[p].members == g2.dmns[p].members;
      }
      assert g1.dmns == g2.dmns;
    } else {
      forall p | p in g1.dmns
        ensures NotifyGroup(g1, reg).dmns[p] == NotifyGroup(g2, reg).dmns[p]
      {
        assert p in g2.dmns && Established(g1.dmns[p].memb) && Established(g2.dmns[p].memb);
      }
      assert forall p :: p in NotifyGroup(g1, reg).dmns <==> p in NotifyGroup(g2, reg).dmns;
      assert NotifyGroup(g1, reg).dmns == NotifyGroup(g2, reg).dmns;
    }
  }

  /** A group as everybody ends with it, in terms of the sets' tables: a new id if it changed and else the one its sets
      had, the daemons that some set writes, each with the members that are written and the group's membership id,
      and no mark left. */
  ghost predicate GroupOf(h: Grp, name: string, all: set<Group>, reg: MembId) {
    && !h.changed
    && (HasChanged(all, name) ==> h.gid == GroupId(reg, 1))
    && (!HasChanged(all, name) ==> forall g | g in all && g.name == name :: h.gid == g.gid)
    && (forall p :: p in h.dmns <==> WrittenBy(all, name, p))
    && (forall p | p in h.dmns :: exists g :: g in all && g.name == name && Writes(g, p, h.dmns[p].members))
    && forall p | p in h.dmns :: h.dmns[p].memb == h.gid.memb
  }

  /** Only the ids and the mark of a changed group change; a daemon that is gone keeps its mark of that. */
  lemma NotifiedParts(g: Grp, reg: MembId)
    ensures var h := NotifyGroup(g, reg);
            && !h.changed && h.num == g.num && h.gid == (if g.changed then GroupId(reg, 1) else g.gid)
            && (forall p :: p in h.dmns <==> p in g.dmns)
            && forall p | p in h.dmns ::
                 && h.dmns[p].members == g.dmns[p].members
                 && h.dmns[p].memb == if g.changed && Established(g.dmns[p].memb) then reg else g.dmns[p].memb
  {
  }

  /** A group that a daemon gathered, once everybody is notified. */
  lemma NotifiedIs(g: Grp, name: string, seen: set<Group>, all: set<Group>, reg: MembId)
    requires GroupIs(g, name, seen) && Covers(seen, all) && Consistent(all) && NoneGone(g)
    ensures GroupOf(NotifyGroup(g, reg), name, all, reg)
  {
    hide GroupIs, Covers, Consistent, HasChanged, NotifyGroup, WrittenBy, Writes;
    NoneEmptyOf(all);
    ChangedIff(g, name, seen, all);
    NotifiedParts(g, reg);
    var h := NotifyGroup(g, reg);
    if !g.changed {
      var k :| k in all && k.name == name && k.gid == g.gid;
      UnchangedMemb(g, name, seen);
      forall q | q in all && q.name == name
        ensures h.gid == q.gid
      {
        SameId(all, k, q);
      }
    }
    forall p
      ensures p in h.dmns <==> WrittenBy(all, name, p)
      ensures p in h.dmns ==> exists q :: q in all && q.name == name && Writes(q, p, h.dmns[p].members)
    {
      DmnsIff(g, name, seen, all, p);
    }
  }

  lemma TableGroup(t: Table, seen: set<Group>, name: string)
    requires TableIs(t, seen) && name in t
    ensures GroupIs(t[name], name, seen)
  {
  }

  ghost predicate NoneGoneIn(t: Table) {
    forall n | n in t :: NoneGone(t[n])
  }

  lemma {:induction false} AddDmnsEstablished(g: Grp, ds: seq<Dmn>)
    requires NoneGone(g) && forall k | 0 <= k < |ds| :: Established(ds[k].memb)
    ensures NoneGone(AddDmns(g, ds))
  {
    if ds != [] {
      AddDmnsEstablished(g, ds[..|ds| - 1]);
    }
  }

  lemma {:induction false} AddRecsEstablished(t: Table, recs: seq<Group>)
    requires NoneGoneIn(t) && forall r | r in recs :: NobodyGone(r)
    ensures NoneGoneIn(AddRecs(t, recs))
  {
    if recs != [] {
      var rest, r := recs[..|recs| - 1], recs[|recs| - 1];
      assert recs == rest + [r];
      AddRecsEstablished(t, rest);
      assert r in recs;
      AddDmnsEstablished(Opened(AddRecs(t, rest), r), r.dmns);
    }
  }

  /** How many members the daemons of a record have. */
  function MembersOf(ds: seq<Dmn>): nat {
    if ds == [] then 0 else MembersOf(ds[..|ds| - 1]) + |ds[|ds| - 1].members|
  }

  /** How many members the records say that a group has. */
  function Tally(recs: seq<Group>, name: string): nat {
    if recs == [] then 0 else
      var r := recs[|recs| - 1];
      Tally(recs[..|recs| - 1], name) + if r.name == name then MembersOf(r.dmns) else 0
  }

  function NumOf(t: Table, name: string): nat {
    if name in t then t[name].num else 0
  }

  lemma {:induction false} AddDmnsNum(g: Grp, ds: seq<Dmn>)
    ensures AddDmns(g, ds).num == g.num + MembersOf(ds)
  {
    if ds != [] {
      AddDmnsNum(g, ds[..|ds| - 1]);
    }
  }

  lemma {:induction false} AddRecsNum(t: Table, recs: seq<Group>, name: string)
    ensures NumOf(AddRecs(t, recs), name) == NumOf(t, name) + Tally(recs, name)
  {
    if recs != [] {
      var rest, r := recs[..|recs| - 1], recs[|recs| - 1];
      AddRecsNum(t, rest, name);
      AddDmnsNum(Opened(AddRecs(t, rest), r), r.dmns);
    }
  }

  /** Tables made of records that cover the same groups, and count the same members, are the same once
      everybody is notified. */
  lemma SameTables(t1: Table, s1: set<Group>, t2: Table, s2: set<Group>, all: set<Group>, reg: MembId)
    requires TableIs(t1, s1) && TableIs(t2, s2) && Covers(s1, all) && Covers(s2, all) && Consistent(all)
    requires NoneGoneIn(t1) && NoneGoneIn(t2) && forall n :: NumOf(t1, n) == NumOf(t2, n)
    ensures Notify(t1, reg) == Notify(t2, reg)
  {
    hide TableIs, GroupIs, Covers, Consistent, NotifyGroup;
    NoneEmptyOf(all);
    forall n
      ensures n in t1 <==> n in t2
      ensures n in t1 ==> NotifyGroup(t1[n], reg) == NotifyGroup(t2[n], reg)
    {
      NameIff(t1, s1, all, n);
      NameIff(t2, s2, all, n);
      if n in t1 {
        TableGroup(t1, s1, n);
        TableGroup(t2, s2, n);
        assert NumOf(t1, n) == NumOf(t2, n);
        SameGroups(t1[n], s1, t2[n], s2, n, all, reg);
      }
    }
  }

  /** The buffers that a set's leader sent hold exactly the entries of its table, and records of it only. */
  ghost predicate BufsOf(bufs: seq<Buf>, table: seq<Group>) {
    && Entries(AllGroups(bufs)) == Entries(table)
    && RecordsOf(AllGroups(bufs), table)
  }

  lemma HeadOfRecord(recs: seq<Group>, table: seq<Group>, r: Group)
    requires RecordsOf(recs, table) && r in recs
    ensures HeadIn(SetOf(table), r)
  {
    var k :| 0 <= k < |recs| && recs[k] == r;
    var i :| 0 <= i < |table| && SameHead(recs[k], table[i]);
    assert table[i] in SetOf(table);
  }

  function Made(r: Group, k: nat): Entry
    requires k < |r.dmns|
  {
    Entry(r.name, r.gid, r.changed, Written(r.dmns[k], r.gid))
  }

  lemma {:induction false} EntriesOfMember(r: Group, d: nat, e: Entry)
    requires d <= |r.dmns|
    ensures e in EntriesOf(r, d) <==> exists k: nat :: d <= k < |r.dmns| && e == Made(r, k)
    decreases |r.dmns| - d
  {
    if d < |r.dmns| {
      EntriesOfMember(r, d + 1, e);
      assert EntriesOf(r, d) == [Made(r, d)] + EntriesOf(r, d + 1);
      assert e in EntriesOf(r, d) <==> e == Made(r, d) || e in EntriesOf(r, d + 1);
    }
  }

  lemma {:induction false} EntriesMember(table: seq<Group>, p: nat, e: Entry)
    requires p <= |table|
    ensures e in EntriesFrom(table, Pos(p, 0)) <==>
            exists i, k: nat :: p <= i < |table| && k < |table[i].dmns| && e == Made(table[i], k)
    decreases |table| - p
  {
    if p < |table| {
      EntriesMember(table, p + 1, e);
      EntriesOfMember(table[p], 0, e);
    }
  }

  /** What one table writes about a daemon, another with the same entries writes too. */
  lemma EntriesWrite(a: seq<Group>, b: seq<Group>, r: Group, p: int, ms: seq<string>)
    requires Entries(a) == Entries(b) && r in a && Writes(r, p, ms)
    ensures WrittenIn(SetOf(b), r, p, ms)
  {
    var i :| 0 <= i < |a| && a[i] == r;
    var k :| 0 <= k < |r.dmns| && r.dmns[k].proc == p && r.dmns[k].members == ms;
    var e := Made(r, k);
    EntriesMember(a, 0, e);
    EntriesMember(b, 0, e);
    assert e == Made(a[i], k);
    var j, l: nat :| 0 <= j < |b| && l < |b[j].dmns| && e == Made(b[j], l);
    assert b[j].dmns[l].proc == p && b[j].dmns[l].members == ms;
    assert b[j] in SetOf(b) && SameHead(r, b[j]);
  }

  function Union(tables: seq<seq<Group>>): set<Group> {
    set j, g | 0 <= j < |tables| && g in tables[j] :: g
  }

  /** The records that reach a daemon of set i: those of the other sets' buffers, in any order. */
  ghost predicate Received(recs: seq<Group>, bufs: seq<seq<Buf>>, i: nat) {
    && (forall r | r in recs :: exists j :: 0 <= j < |bufs| && j != i && r in AllGroups(bufs[j]))
    && (forall j, r | 0 <= j < |bufs| && j != i && r in AllGroups(bufs[j]) :: r in recs)
  }

  lemma HeadInMore(a: set<Group>, b: set<Group>, r: Group)
    requires HeadIn(a, r) && a <= b
    ensures HeadIn(b, r)
  {
  }

  lemma WrittenInMore(a: set<Group>, b: set<Group>, r: Group, p: int, ms: seq<string>)
    requires WrittenIn(a, r, p, ms) && a <= b
    ensures WrittenIn(b, r, p, ms)
  {
  }

  lemma TableInUnion(tables: seq<seq<Group>>, j: nat)
    requires j < |tables|
    ensures SetOf(tables[j]) <= Union(tables)
  {
  }

  lemma SelfIn(all: set<Group>, g: Group)
    requires g in all
    ensures HeadIn(all, g)
  {
    assert SameHead(g, g);
  }

  lemma SelfWritten(all: set<Group>, g: Group, p: int, ms: seq<string>)
    requires g in all && Writes(g, p, ms)
    ensures WrittenIn(all, g, p, ms)
  {
    assert SameHead(g, g);
  }

  /** A daemon of set i has seen its own set's groups and the other sets' records: that covers all. */
  lemma ReceivedCovers(tables: seq<seq<Group>>, bufs: seq<seq<Buf>>, i: nat, recs: seq<Group>)
    requires |bufs| == |tables| && i < |tables| && Received(recs, bufs, i)
    requires forall j | 0 <= j < |tables| :: BufsOf(bufs[j], tables[j])
    ensures Covers(SetOf(tables[i]) + SetOf(recs), Union(tables))
  {
    hide HeadIn, WrittenIn, Writes, Entries, AllGroups;
    var seen, all := SetOf(tables[i]) + SetOf(recs), Union(tables);
    forall r | r in seen
      ensures HeadIn(all, r)
    {
      TableInUnion(tables, i);
      if r in SetOf(tables[i]) {
        SelfIn(all, r);
      } else {
        var j :| 0 <= j < |bufs| && j != i && r in AllGroups(bufs[j]);
        TableInUnion(tables, j);
        HeadOfRecord(AllGroups(bufs[j]), tables[j], r);
        HeadInMore(SetOf(tables[j]), all, r);
      }
    }
    forall r, p, ms | r in seen && Writes(r, p, ms)
      ensures WrittenIn(all, r, p, ms)
    {
      TableInUnion(tables, i);
      if r in SetOf(tables[i]) {
        SelfWritten(all, r, p, ms);
      } else {
        var j :| 0 <= j < |bufs| && j != i && r in AllGroups(bufs[j]);
        TableInUnion(tables, j);
        EntriesWrite(AllGroups(bufs[j]), tables[j], r, p, ms);
        WrittenInMore(SetOf(tables[j]), all, r, p, ms);
      }
    }
    forall g, p, ms | g in all && Writes(g, p, ms)
      ensures WrittenIn(seen, g, p, ms)
    {
      var j :| 0 <= j < |tables| && g in tables[j];
      if j == i {
        SelfWritten(seen, g, p, ms);
      } else {
        EntriesWrite(tables[j], AllGroups(bufs[j]), g, p, ms);
        assert SetOf(AllGroups(bufs[j])) <= seen;
        WrittenInMore(SetOf(AllGroups(bufs[j])), seen, g, p, ms);
      }
    }
  }

  /** A daemon's table when all messages are in: its own set's table and the records received. */
  function Gathered(own: seq<Group>, recs: seq<Group>): Table {
    AddRecs(AddRecs(map[], own), recs)
  }

  lemma GatheredIs(tables: seq<seq<Group>>, bufs: seq<seq<Buf>>, i: nat, recs: seq<Group>)
    requires |bufs| == |tables| && i < |tables| && Received(recs, bufs, i)
    requires forall j | 0 <= j < |tables| :: BufsOf(bufs[j], tables[j])
    requires Consistent(Union(tables))
    ensures TableIs(Gathered(tables[i], recs), SetOf(tables[i]) + SetOf(recs))
  {
    OwnStamped(tables, i);
    forall r | r in recs
      ensures Stamped(r)
    {
      var j :| 0 <= j < |bufs| && j != i && r in AllGroups(bufs[j]);
      assert BufsOf(bufs[j], tables[j]);
      var k :| 0 <= k < |AllGroups(bufs[j])| && AllGroups(bufs[j])[k] == r;
    }
    hide TableIs, Consistent, BufsOf, Stamped;
    EmptyTable();
    AddRecsKeeps(map[], tables[i], {});
    assert {} + SetOf(tables[i]) == SetOf(tables[i]);
    AddRecsKeeps(AddRecs(map[], tables[i]), recs, SetOf(tables[i]));
  }

  lemma OwnStamped(tables: seq<seq<Group>>, i: nat)
    requires i < |tables| && Consistent(Union(tables))
    ensures forall r | r in tables[i] :: r.changed || Stamped(r)
  {
    hide Stamped;
    forall r | r in tables[i]
      ensures r.changed || Stamped(r)
    {
      assert r in Union(tables);
    }
  }

  lemma RecordEstablished(tables: seq<seq<Group>>, bufs: seq<seq<Buf>>, j: nat, r: Group)
    requires |bufs| == |tables| && j < |tables| && BufsOf(bufs[j], tables[j]) && Consistent(Union(tables)) &&
             r in AllGroups(bufs[j])
    ensures NobodyGone(r)
  {
    var k :| 0 <= k < |AllGroups(bufs[j])| && AllGroups(bufs[j])[k] == r;
    var h :| 0 <= h < |tables[j]| && SameHead(r, tables[j][h]);
    assert tables[j][h] in tables[j];
    assert tables[j][h] in Union(tables);
  }

  lemma GatheredEstablished(tables: seq<seq<Group>>, bufs: seq<seq<Buf>>, i: nat, recs: seq<Group>)
    requires |bufs| == |tables| && i < |tables| && Received(recs, bufs, i)
    requires forall j | 0 <= j < |tables| :: BufsOf(bufs[j], tables[j])
    requires Consistent(Union(tables))
    ensures NoneGoneIn(Gathered(tables[i], recs))
  {
    hide BufsOf, NobodyGone, Stamped;
    forall r | r in tables[i]
      ensures NobodyGone(r)
    {
      assert r in Union(tables);
    }
    hide Consistent;
    forall r | r in recs
      ensures NobodyGone(r)
    {
      var j :| 0 <= j < |bufs| && j != i && r in AllGroups(bufs[j]);
      RecordEstablished(tables, bufs, j, r);
    }
    AddRecsEstablished(map[], tables[i]);
    AddRecsEstablished(AddRecs(map[], tables[i]), recs);
  }

  /** After the exchange any two daemons, of whatever sets, have the same table, whatever order the records
      came in, and it is what the sets' tables say. */
  lemma GatheredAgree(tables: seq<seq<Group>>, bufs: seq<seq<Buf>>, i: nat, k: nat, ri: seq<Group>, rk: seq<Group>,
      reg: MembId)
    requires |bufs| == |tables| && i < |tables| && k < |tables|
    requires forall j | 0 <= j < |tables| :: BufsOf(bufs[j], tables[j])
    requires Received(ri, bufs, i) && Received(rk, bufs, k)
    requires Consistent(Union(tables))
    requires forall n :: NumOf(Gathered(tables[i], ri), n) == NumOf(Gathered(tables[k], rk), n)
    ensures Notify(Gathered(tables[i], ri), reg) == Notify(Gathered(tables[k], rk), reg)
    ensures var t := Notify(Gathered(tables[i], ri), reg);
            && (forall n :: n in t <==> exists g :: g in Union(tables) && g.name == n)
            && (forall n | n in t :: GroupOf(t[n], n, Union(tables), reg))
  {
    hide TableIs, GroupIs, Covers, Consistent, BufsOf, Received, WrittenBy, Gathered, GroupOf, NotifyGroup;
    GatheredIs(tables, bufs, i, ri);
    GatheredIs(tables, bufs, k, rk);
    ReceivedCovers(tables, bufs, i, ri);
    ReceivedCovers(tables, bufs, k, rk);
    GatheredEstablished(tables, bufs, i, ri);
    GatheredEstablished(tables, bufs, k, rk);
    var all := Union(tables);
    var si, ti := SetOf(tables[i]) + SetOf(ri), Gathered(tables[i], ri);
    SameTables(ti, si, Gathered(tables[k], rk), SetOf(tables[k]) + SetOf(rk), all, reg);
    NoneEmptyOf(all);
    forall n
      ensures n in ti <==> exists g :: g in all && g.name == n
    {
      NameIff(ti, si, all, n);
    }
    forall n | n in ti
      ensures GroupOf(NotifyGroup(ti[n], reg), n, all, reg)
    {
      TableGroup(ti, si, n);
      NotifiedIs(ti[n], n, si, all, reg);
    }
  }

  /** No two groups of the table have the same name, and no group the same daemon twice or none. */
  ghost predicate WellKept(table: seq<Group>) {
    && (forall i, k | 0 <= i < k < |table| :: table[i].name != table[k].name)
    && forall k | 0 <= k < |table| :: table[k].dmns != [] && ProcsDiffer(table[k].dmns)
  }

  ghost predicate ProcsDiffer(ds: seq<Dmn>) {
    forall i, k | 0 <= i < k < |ds| :: ds[i].proc != ds[k].proc
  }

  predicate Sorted(s: seq<int>) {
    forall i, j | 0 <= i < j < |s| :: s[i] < s[j]
  }

  predicate Disjoint(a: seq<int>, b: seq<int>) {
    forall x | x in a :: x !in b
  }

  lemma SortedAppend(s: seq<int>, x: int)
    requires Sorted(s) && (s == [] || s[|s| - 1] < x)
    ensures Sorted(s + [x])
  {
  }

  /** Sorted lists of the same daemons are the same list. */
  lemma {:induction false} SortedUnique(a: seq<int>, b: seq<int>)
    requires Sorted(a) && Sorted(b) && forall x :: x in a <==> x in b
    ensures a == b
  {
    if a == [] || b == [] {
      HasFirst(a);
      HasFirst(b);
    } else {
      var a', x, b', y := a[..|a| - 1], a[|a| - 1], b[..|b| - 1], b[|b| - 1];
      SortedLast(a);
      SortedLast(b);
      assert x == y;
      forall z
        ensures z in a' <==> z in b'
      {
        assert z in a <==> z in a' || z == x;
        assert z in b <==> z in b' || z == x;
      }
      SortedUnique(a', b');
      assert a == a' + [x] && b == b' + [y];
    }
  }

  lemma HasFirst(s: seq<int>)
    ensures s == [] || s[0] in s
  {
  }

  lemma SortedLast(s: seq<int>)
    requires Sorted(s) && s != []
    ensures var x := s[|s| - 1];
            && x in s && x !in s[..|s| - 1] && (forall z | z in s :: z <= x)
            && (forall z :: z in s <==> z in s[..|s| - 1] || z == x)
  {
    assert s == s[..|s| - 1] + [s[|s| - 1]];
  }
}
