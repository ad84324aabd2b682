/** The group state of a daemon as groups.c has it, updated in place. */
module GroupsState {
  import opened GroupsBuf
  import opened GroupsMerge
  import opened GroupsGather
  import GroupsExchange

  lemma SsetFirst(b: Buf, msgs: seq<Buf>, sset: seq<int>)
    ensures SsetOf(msgs + [b], sset) == if b.first then b.synced else SsetOf(msgs, sset)
    ensures AllGroups(msgs + [b]) == AllGroups(msgs) + b.groups
  {
    assert (msgs + [b])[..|msgs|] == msgs;
  }

  lemma MergeDone(a: seq<int>, b: seq<int>, c: seq<int>)
    requires Sorted(a) && Sorted(b) && Disjoint(a, b) && Sorted(c) && forall x :: x in c <==> x in a || x in b
    ensures c == Merged(a, b) && (a != [] ==> c != [])
  {
    MergedIs(a, b);
    hide Merged, Sorted;
    SortedUnique(c, Merged(a, b));
    HasFirst(a);
  }

  /** The synced sets that messages bring are sorted. */
  ghost predicate MsgsSorted(msgs: seq<Buf>) {
    forall x | x in msgs :: x.first ==> Sorted(x.synced)
  }

  lemma {:induction false} FindSkips(links: seq<Link>, rep: int, k: nat)
    requires k < |links| && links[k].rep == rep && forall l | 0 <= l < k :: links[l].rep != rep
    ensures Find(links, rep) == k
  {
    if k > 0 {
      FindSkips(links[1..], rep, k - 1);
    }
  }

  /** The group state of a daemon; daemons are named by their place in the configuration. */
  class Groups {
    var table: Table               // GroupsList
    var synced: seq<int>           // MySyncedSet
    var links: seq<Link>           // Gathered.next
    var own: bool                  // Gathered.complete
    var numMess: nat               // Num_mess_gathered
    var numDaemons: nat            // Num_daemons_gathered
    var gathering: bool            // Gstate is not GOP
    var exited: bool

    ghost predicate Valid()
      reads this
    {
      Sorted(synced) && synced != [] && forall k | 0 <= k < |links| :: MsgsSorted(links[k].msgs)
    }

    ghost function Abs(): State
      reads this
    {
      State(table, synced, links, own, numMess, numDaemons, gathering, exited)
    }

    /** G_mess_to_groups: the synced set of a first message, and the records. */
    method MessToGroups(b: Buf, sset: seq<int>) returns (sset': seq<int>)
      modifies `table
      ensures table == AddRecs(old(table), b.groups) && sset' == if b.first then b.synced else sset
    {
      sset' := sset;
      if b.first {
        sset' := b.synced;
      }
      var recs := b.groups;
      for i := 0 to |recs|
        invariant table == AddRecs(old(table), recs[..i])
      {
        var r := recs[i];
        assert recs[..i + 1][..i] == recs[..i];
        var g := if r.name in table then table[r.name] else Grp(r.gid, false, map[], 0);
        if r.changed {
          g := g.(changed := true);
        }
        ghost var start := g;
        for k := 0 to |r.dmns|
          invariant g == AddDmns(start, r.dmns[..k])
        {
          assert r.dmns[..k + 1][..k] == r.dmns[..k];
          var d := r.dmns[k];
          g := g.(dmns := g.dmns[d.proc := Dm(d.memb, d.members)]);
          if !g.changed && d.memb != g.gid.memb {
            g := g.(changed := true);
          }
          g := g.(num := g.num + |d.members|);
        }
        assert r.dmns[..|r.dmns|] == r.dmns;
        table := table[r.name := g];
      }
      assert recs[..|recs|] == recs;
    }

    /** G_add_to_synced_set: merge two sorted lists; meeting a daemon twice is a fatal exit. */
    method AddToSyncedSet(sset: seq<int>)
      requires Sorted(synced) && Sorted(sset) && !exited
      modifies `synced, `exited
      ensures exited == !Disjoint(old(synced), sset)
      ensures synced == if exited then old(synced) else Merged(old(synced), sset)
      ensures Sorted(synced) && (old(synced) != [] ==> synced != [])
    {
      hide Merged;
      var temp: seq<int> := [];
      var i, j := 0, 0;
      while i < |synced| || j < |sset|
        invariant 0 <= i <= |synced| && 0 <= j <= |sset| && synced == old(synced) && !exited
        invariant Sorted(temp)
        invariant forall x :: x in temp <==> x in synced[..i] || x in sset[..j]
        invariant forall x | x in temp ::
                  (forall k | i <= k < |synced| :: x < synced[k]) && (forall k | j <= k < |sset| :: x < sset[k])
        invariant Disjoint(synced[..i], sset) && Disjoint(synced, sset[..j])
        decreases |synced| - i + |sset| - j
      {
        assert temp != [] ==> temp[|temp| - 1] in temp;
        if j == |sset| || (i < |synced| && synced[i] < sset[j]) {
          assert synced[..i + 1] == synced[..i] + [synced[i]];
          SortedAppend(temp, synced[i]);
          temp, i := temp + [synced[i]], i + 1;
        } else if i == |synced| || sset[j] < synced[i] {
          assert sset[..j + 1] == sset[..j] + [sset[j]];
          SortedAppend(temp, sset[j]);
          temp, j := temp + [sset[j]], j + 1;
        } else {
          assert synced[i] in synced && synced[i] in sset;
          exited := true;
          return;
        }
      }
      assert synced[..i] == synced && sset[..j] == sset;
      MergeDone(synced, sset, temp);
      synced := temp;
    }

    /** The loop of G_compute_and_notify over the messages of one representative. */
    method ReadMessages(msgs: seq<Buf>, sset: seq<int>) returns (sset': seq<int>)
      requires Sorted(sset) && MsgsSorted(msgs)
      modifies `table
      ensures table == AddRecs(old(table), AllGroups(msgs)) && sset' == SsetOf(msgs, sset) && Sorted(sset')
    {
      sset' := sset;
      for i := 0 to |msgs|
        invariant table == AddRecs(old(table), AllGroups(msgs[..i])) && sset' == SsetOf(msgs[..i], sset) &&
                  Sorted(sset')
      {
        assert msgs[..i + 1] == msgs[..i] + [msgs[i]];
        SsetFirst(msgs[i], msgs[..i], sset);
        GroupsExchange.AddRecsConcat(old(table), AllGroups(msgs[..i]), msgs[i].groups);
        sset' := MessToGroups(msgs[i], sset');
      }
      assert msgs[..|msgs|] == msgs;
    }

    /** The loop of G_compute_and_notify over the groups. */
    method NotifyChanged(reg: MembId)
      modifies `table
      ensures table == Notify(old(table), reg)
    {
      hide NotifyGroup;
      var left := table.Keys;
      while left != {}
        invariant left <= table.Keys == old(table).Keys
        invariant forall n | n in table ::
                  table[n] == if n in left then old(table)[n] else NotifyGroup(old(table)[n], reg)
        decreases |left|
      {
        var n :| n in left;
        table := table[n := NotifyGroup(table[n], reg)];
        left := left - {n};
      }
      assert table == Notify(old(table), reg);
    }

    /** G_compute_and_notify. */
    method ComputeAndNotify(reg: MembId)
      requires Valid() && !exited
      modifies this
      ensures exited == Computed(old(Abs()), reg).exited
      ensures !exited ==> Valid() && Abs() == Computed(old(Abs()), reg)
    {
      hide Notify, AddRecs, Merged, SsetOf, AllGroups, Disjoint;
      var sset: seq<int> := [];
      ghost var start := Reading(table, synced, [], false);
      for k := 0 to |links|
        invariant Valid() && !exited && Sorted(sset) && links == old(links)
        invariant ReadLinks(start, links[..k]) == Reading(table, synced, sset, false)
      {
        assert links[..k + 1] == links[..k] + [links[k]] && links[..k + 1][..k] == links[..k];
        ghost var read := ReadLinks(start, links[..k + 1]);
        sset := ReadMessages(links[k].msgs, sset);
        AddToSyncedSet(sset);
        if exited {
          ReadStops(start, links, k + 1);
          return;
        }
      }
      assert links[..|links|] == links;
      NotifyChanged(reg);
      links, own, numMess, numDaemons, gathering := [], false, 0, 0, false;
    }

    /** The message joins those of its representative. */
    method Keep(m: Mess)
      requires Valid() && (m.buf.first ==> Sorted(m.buf.synced))
      modifies `links
      ensures Valid() && links == AddTo(old(links), m)
    {
      var k := 0;
      while k < |links| && links[k].rep != m.rep
        invariant 0 <= k <= |links| && forall l | 0 <= l < k :: links[l].rep != m.rep
      {
        k := k + 1;
      }
      if k == |links| {
        FindNone(links, m.rep);
        links := [Link(m.rep, [m.buf], m.agreed)] + links;
      } else {
        FindSkips(links, m.rep, k);
        links := links[k := Link(m.rep, [m.buf] + links[k].msgs, links[k].complete || m.agreed)];
      }
    }

    /** G_handle_groups; size is Conf_num_procs of the regular membership. */
    method HandleGroups(m: Mess, reg: MembId, size: nat)
      requires Valid() && (m.buf.first ==> Sorted(m.buf.synced))
      modifies this
      ensures exited == Handled(old(Abs()), m, reg, size).exited
      ensures !exited ==> Valid() && Abs() == Handled(old(Abs()), m, reg, size)
    {
      hide Computed, AddTo;
      if exited {
        return;
      }
      if !gathering {
        exited := true;
        return;
      }
      if m.memb != reg || m.rep < 0 {
        return;
      }
      if m.rep != synced[0] {
        Keep(m);
      } else if m.agreed {
        own := true;
      }
      numMess := numMess + 1;
      if m.agreed {
        numDaemons := numDaemons + m.size;
      }
      if numDaemons != size {
        return;
      }
      ComputeAndNotify(reg);
    }
  }

  lemma {:induction false} ReadStops(a: Reading, links: seq<Link>, k: nat)
    requires k <= |links| && ReadLinks(a, links[..k]).exited
    ensures ReadLinks(a, links).exited
    decreases |links| - k
  {
    if k < |links| {
      assert links[..k + 1][..k] == links[..k];
      ReadStops(a, links, k + 1);
    } else {
      assert links[..k] == links;
    }
  }
}
