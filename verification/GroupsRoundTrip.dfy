/** GROUPS messages carry a whole group table: read into an empty table, they give it back. */
module GroupsRoundTrip {
  import opened GroupsBuf
  import opened GroupsMerge
  import GroupsExchange

  /** Group g of a table is group h of the list, its daemons stamped with the group's membership id. */
  ghost predicate IsGroup(g: Grp, h: Group) {
    && g.gid == h.gid && g.changed == h.changed && g.num == MembersOf(h.dmns)
    && (forall p :: p in g.dmns <==> exists d :: 0 <= d < |h.dmns| && h.dmns[d].proc == p)
    && forall d | 0 <= d < |h.dmns| ::
       h.dmns[d].proc in g.dmns && g.dmns[h.dmns[d].proc] == Dm(h.gid.memb, h.dmns[d].members)
  }

  ghost predicate IsTable(t: Table, table: seq<Group>) {
    && (forall n :: n in t <==> exists k :: 0 <= k < |table| && table[k].name == n)
    && forall k | 0 <= k < |table| :: IsGroup(t[table[k].name], table[k])
  }

  lemma HeadIs(bufs: seq<Buf>, table: seq<Group>, r: Group) returns (k: nat)
    requires BufsOf(bufs, table) && r in AllGroups(bufs)
    ensures k < |table| && SameHead(r, table[k]) && Stamped(r)
  {
    var l :| 0 <= l < |AllGroups(bufs)| && AllGroups(bufs)[l] == r;
    k :| 0 <= k < |table| && SameHead(AllGroups(bufs)[l], table[k]);
  }

  /** What a record writes is in the group of its name, and the other way round. */
  lemma WritesBack(bufs: seq<Buf>, table: seq<Group>, k: nat, p: int, ms: seq<string>)
    requires BufsOf(bufs, table) && WellKept(table) && k < |table|
    ensures (exists r :: r in AllGroups(bufs) && r.name == table[k].name && Writes(r, p, ms)) <==>
            Writes(table[k], p, ms)
  {
    hide Writes, ProcsDiffer, RecordsOf, Entries, AllGroups;
    var recs := AllGroups(bufs);
    if r :| r in recs && r.name == table[k].name && Writes(r, p, ms) {
      EntriesWrite(recs, table, r, p, ms);
      var g :| g in SetOf(table) && SameHead(r, g) && Writes(g, p, ms);
      var l :| 0 <= l < |table| && table[l] == g;
      assert l == k;
    }
    if Writes(table[k], p, ms) {
      EntriesWrite(table, recs, table[k], p, ms);
    }
  }

  /** All records stamped and, by name, with one id: then so are the daemons of the table. */
  ghost predicate OneId(recs: seq<Group>) {
    && (forall r | r in recs :: Stamped(r))
    && forall r, q | r in recs && q in recs && r.name == q.name :: r.gid == q.gid
  }

  ghost predicate Idented(g: Grp) {
    forall p | p in g.dmns :: g.dmns[p].memb == g.gid.memb
  }

  lemma {:induction false} AddDmnsIdented(g: Grp, ds: seq<Dmn>)
    requires Idented(g) && forall k | 0 <= k < |ds| :: ds[k].memb == g.gid.memb
    ensures Idented(AddDmns(g, ds)) && AddDmns(g, ds).gid == g.gid
  {
    if ds != [] {
      AddDmnsIdented(g, ds[..|ds| - 1]);
    }
  }

  /** A group made of the records, with their id. */
  ghost predicate MadeOf(g: Grp, recs: seq<Group>, name: string) {
    Idented(g) && exists r :: r in recs && r.name == name && r.gid == g.gid
  }

  lemma MadeNext(t: Table, recs: seq<Group>, r: Group)
    requires OneId(recs + [r]) && (r.name in t ==> MadeOf(t[r.name], recs, r.name))
    ensures MadeOf(AddDmns(Opened(t, r), r.dmns), recs + [r], r.name)
  {
    assert r in recs + [r];
    if r.name in t {
      var q :| q in recs && q.name == r.name && q.gid == t[r.name].gid;
      assert q in recs + [r];
    }
    AddDmnsIdented(Opened(t, r), r.dmns);
  }

  lemma MadeMore(g: Grp, recs: seq<Group>, r: Group, name: string)
    requires MadeOf(g, recs, name)
    ensures MadeOf(g, recs + [r], name)
  {
    var q :| q in recs && q.name == name && q.gid == g.gid;
    assert q in recs + [r];
  }

  ghost predicate AllMade(t: Table, recs: seq<Group>) {
    forall n | n in t :: MadeOf(t[n], recs, n)
  }

  lemma AllMadeNext(t: Table, recs: seq<Group>, r: Group)
    requires OneId(recs + [r]) && AllMade(t, recs)
    ensures AllMade(AddRec(t, r), recs + [r])
  {
    hide OneId, MadeOf;
    MadeNext(t, recs, r);
    forall n | n in t
      ensures MadeOf(t[n], recs + [r], n)
    {
      MadeMore(t[n], recs, r, n);
    }
  }

  lemma {:induction false} AddRecsIdented(recs: seq<Group>)
    requires OneId(recs)
    ensures AllMade(AddRecs(map[], recs), recs)
  {
    hide Stamped, AddRec;
    if recs != [] {
      var rest, r := recs[..|recs| - 1], recs[|recs| - 1];
      assert recs == rest + [r];
      AddRecsIdented(rest);
      AllMadeNext(AddRecs(map[], rest), rest, r);
    }
  }

  lemma {:induction false} TallyOne(table: seq<Group>, k: nat, name: string)
    requires forall i, l | 0 <= i < l < |table| :: table[i].name != table[l].name
    ensures (forall i | 0 <= i < |table| :: table[i].name != name) ==> Tally(table, name) == 0
    ensures k < |table| && table[k].name == name ==> Tally(table, name) == MembersOf(table[k].dmns)
  {
    if table != [] {
      TallyOne(table[..|table| - 1], k, name);
    }
  }

  lemma CountBack(bufs: seq<Buf>, table: seq<Group>, k: nat)
    requires BufsOf(bufs, table) && WellKept(table) && k < |table|
    ensures NumOf(AddRecs(map[], AllGroups(bufs)), table[k].name) == MembersOf(table[k].dmns)
  {
    hide ProcsDiffer;
    var recs, name := AllGroups(bufs), table[k].name;
    AddRecsNum(map[], recs, name);
    GroupsExchange.TallyOfEntries(recs, name);
    GroupsExchange.TallyOfEntries(table, name);
    TallyOne(table, k, name);
  }

  lemma OneIdOf(bufs: seq<Buf>, table: seq<Group>)
    requires BufsOf(bufs, table) && WellKept(table)
    ensures OneId(AllGroups(bufs))
  {
    hide ProcsDiffer, Entries, AllGroups, BufsOf, Stamped;
    forall r | r in AllGroups(bufs)
      ensures Stamped(r)
    {
      var k := HeadIs(bufs, table, r);
    }
    forall r, q | r in AllGroups(bufs) && q in AllGroups(bufs) && r.name == q.name
      ensures r.gid == q.gid
    {
      var k := HeadIs(bufs, table, r);
      var l := HeadIs(bufs, table, q);
    }
  }

  /** One group. */
  lemma GroupBack(bufs: seq<Buf>, table: seq<Group>, t: Table, k: nat)
    requires BufsOf(bufs, table) && WellKept(table) && k < |table|
    requires t == AddRecs(map[], AllGroups(bufs)) && TableIs(t, SetOf(AllGroups(bufs)))
    requires forall n | n in t :: Idented(t[n])
    ensures table[k].name in t && IsGroup(t[table[k].name], table[k])
  {
    hide BufsOf, AllGroups, AddRecs, Stamped, WrittenBy;
    var recs, h := AllGroups(bufs), table[k];
    var seen := SetOf(recs);
    FirstWrite(h);
    WritesBack(bufs, table, k, h.dmns[0].proc, h.dmns[0].members);
    var first :| first in recs && first.name == h.name && Writes(first, h.dmns[0].proc, h.dmns[0].members);
    assert first in seen;
    var g := t[h.name];
    forall r | r in seen && r.name == h.name
      ensures r.gid == h.gid && r.changed == h.changed
    {
      var l := HeadIs(bufs, table, r);
    }
    assert g.gid == h.gid && g.changed == h.changed;
    forall p
      ensures p in g.dmns <==> exists d :: 0 <= d < |h.dmns| && h.dmns[d].proc == p
    {
      DaemonBack(bufs, table, t, k, p);
    }
    forall d | 0 <= d < |h.dmns|
      ensures h.dmns[d].proc in g.dmns && g.dmns[h.dmns[d].proc] == Dm(h.gid.memb, h.dmns[d].members)
    {
      DaemonBack(bufs, table, t, k, h.dmns[d].proc);
    }
    CountBack(bufs, table, k);
  }

  lemma DaemonBack(bufs: seq<Buf>, table: seq<Group>, t: Table, k: nat, p: int)
    requires BufsOf(bufs, table) && WellKept(table) && k < |table| && table[k].name in t
    requires TableIs(t, SetOf(AllGroups(bufs)))
    ensures p in t[table[k].name].dmns <==> exists d :: 0 <= d < |table[k].dmns| && table[k].dmns[d].proc == p
    ensures forall d | 0 <= d < |table[k].dmns| && table[k].dmns[d].proc == p ::
              p in t[table[k].name].dmns && t[table[k].name].dmns[p].members == table[k].dmns[d].members
  {
    hide BufsOf, AllGroups;
    var recs, h := AllGroups(bufs), table[k];
    var g := t[h.name];
    assert GroupIs(g, h.name, SetOf(recs));
    if d :| 0 <= d < |h.dmns| && h.dmns[d].proc == p {
      assert Writes(h, p, h.dmns[d].members);
      WritesBack(bufs, table, k, p, h.dmns[d].members);
      var r :| r in recs && r.name == h.name && Writes(r, p, h.dmns[d].members);
      assert WrittenBy(SetOf(recs), h.name, p);
    }
    if p in g.dmns {
      WritesBack(bufs, table, k, p, g.dmns[p].members);
      assert Writes(h, p, g.dmns[p].members);
      assert ProcsDiffer(h.dmns);
    }
  }

  /** The buffers that a daemon sends, read into an empty table, give back the daemon's table. */
  lemma ReadBack(table: seq<Group>, bufs: seq<Buf>)
    requires BufsOf(bufs, table) && WellKept(table)
    ensures IsTable(AddRecs(map[], AllGroups(bufs)), table)
  {
    hide BufsOf, IsGroup, AddRecs, AllGroups;
    var recs := AllGroups(bufs);
    var t := AddRecs(map[], recs);
    OneIdOf(bufs, table);
    AddRecsIdented(recs);
    assert AllMade(t, recs);
    assert forall n | n in t :: Idented(t[n]);
    EmptyTable();
    AddRecsKeeps(map[], recs, {});
    assert {} + SetOf(recs) == SetOf(recs);
    hide TableIs, WellKept;
    forall k | 0 <= k < |table|
      ensures table[k].name in t && IsGroup(t[table[k].name], table[k])
    {
      GroupBack(bufs, table, t, k);
    }
    forall n | n in t
      ensures exists k :: 0 <= k < |table| && table[k].name == n
    {
      assert MadeOf(t[n], recs, n);
      var r :| r in recs && r.name == n && r.gid == t[n].gid;
      var k := HeadIs(bufs, table, r);
    }
  }
}
