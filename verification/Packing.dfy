/** Several packets in one datagram: Net_queue_bcast and Net_flush_bcast put them there, Net_recv checks the
    datagram and Prot_handle_bcast takes them out again. */
module Packing {
  import opened Packets
  import Burst

  const HEADER: nat := Burst.PACKET_HEADER
  const DATA_LEN: nat := 30        // offset of data_len in the header

  /** A packet on the wire: its header and its body. */
  datatype Wire = Wire(head: seq<byte>, body: Body)

  /** The length of the body as the header gives it, least significant byte first. */
  function DataLen(head: seq<byte>): nat
    requires |head| == HEADER
  {
    head[DATA_LEN] as nat + 256 * head[DATA_LEN + 1] as nat
  }

  predicate WireOk(p: Wire) {
    |p.head| == HEADER && DataLen(p.head) == |p.body| && |p.body| <= Burst.MAX_BODY
  }

  predicate AllOk(ps: seq<Wire>) {
    forall i | 0 <= i < |ps| :: WireOk(ps[i])
  }

  function Bytes(p: Wire): seq<byte> {
    p.head + p.body
  }

  function Zeros(n: nat): (r: seq<byte>)
    ensures |r| == n
  {
    seq(n, _ => 0)
  }

  /** The packets one after the other, each but the last padded to a multiple of four. */
  function Packed(ps: seq<Wire>): seq<byte> {
    if ps == [] then []
    else if |ps| == 1 then Bytes(ps[0])
    else Bytes(ps[0]) + Zeros(Burst.Padding(|Bytes(ps[0])|)) + Packed(ps[1..])
  }

  lemma {:induction false} PackedAppend(ps: seq<Wire>, p: Wire)
    requires ps != []
    ensures Packed(ps + [p]) == Packed(ps) + Zeros(Burst.Padding(|Packed(ps)|)) + Bytes(p)
  {
    if |ps| == 1 {
      assert (ps + [p])[1..] == [p];
    } else {
      PackedAppend(ps[1..], p);
      assert (ps + [p])[1..] == ps[1..] + [p] && (ps + [p])[0] == ps[0];
      PaddingTail(|Bytes(ps[0])|, |Packed(ps[1..])|);
    }
  }

  lemma PaddingIs(a: nat)
    ensures var q, r := a / 4, a % 4;
            a == 4 * q + r && Burst.Padding(a) == if r == 0 then 0 else 4 - r
  {
  }

  /** Padding depends only on what follows the last aligned place. */
  lemma PaddingTail(a: nat, b: nat)
    ensures (a + Burst.Padding(a)) % 4 == 0
    ensures Burst.Padding(a + Burst.Padding(a) + b) == Burst.Padding(b)
  {
    PaddingIs(a);
    PaddingIs(b);
    hide Burst.Padding;
    var q := if a % 4 == 0 then a / 4 else a / 4 + 1;
    var c := a + Burst.Padding(a) + b;
    assert c == 4 * (q + b / 4) + b % 4;
    PaddingIs(c);
  }

  function Flatten<T>(s: seq<seq<T>>): seq<T> {
    if s == [] then [] else Flatten(s[..|s| - 1]) + s[|s| - 1]
  }

  /** The sender's queue: Queued_bytes, the scatter elements waiting, and the datagrams sent so far. */
  class BcastQueue {
    var queuedBytes: nat
    var elements: seq<seq<byte>>
    var datagrams: seq<seq<byte>>
    ghost var waiting: seq<Wire>              // the packets in the queue
    ghost var gone: seq<seq<Wire>>            // those of each datagram

    ghost predicate Valid()
      reads this
    {
      && AllOk(waiting)
      && Flatten(elements) == Packed(waiting) && queuedBytes == |Packed(waiting)| <= Burst.MAX_PACKET_SIZE
      && (waiting == [] <==> elements == [])
      && |elements| <= 3 * |waiting| && |elements| <= Burst.ARCH_SCATTER_SIZE
      && |gone| == |datagrams|
      && forall i | 0 <= i < |gone| ::
           gone[i] != [] && AllOk(gone[i]) && datagrams[i] == Packed(gone[i]) && |datagrams[i]| <= Burst.MAX_PACKET_SIZE
    }

    constructor ()
      ensures Valid() && waiting == [] && gone == []
    {
      queuedBytes, elements, datagrams, waiting, gone := 0, [], [], [], [];
    }

    /** Net_flush_bcast; sending is taken to succeed. */
    method Flush() returns (ret: bool)
      requires Valid()
      modifies this
      ensures Valid() && waiting == [] && elements == [] && queuedBytes == 0 && ret == (old(queuedBytes) > 0)
      ensures gone == if ret then old(gone) + [old(waiting)] else old(gone)
      ensures ret <==> old(waiting) != []
      ensures old(datagrams) <= datagrams && |datagrams| == |old(datagrams)| + (if ret then 1 else 0)
    {
      PackedEmpty(waiting);
      if queuedBytes == 0 {
        return false;
      }
      var all := [];
      for i := 0 to |elements|
        invariant all == Flatten(elements[..i])
      {
        assert elements[..i + 1][..i] == elements[..i];
        all := all + elements[i];
      }
      assert elements[..|elements|] == elements;
      datagrams := datagrams + [all];
      gone := gone + [waiting];
      elements, queuedBytes, waiting := [], 0, [];
      return true;
    }

    /** Net_queue_bcast on one packet: it joins the queue, which is flushed first exactly if the datagram would be too
        long with it. */
    method Enqueue(p: Wire) returns (flushed: bool)
      requires Valid() && WireOk(p)
      modifies this
      ensures Valid()
      ensures flushed <==> old(waiting) != [] && |Packed(old(waiting) + [p])| > Burst.MAX_PACKET_SIZE
      ensures waiting == if flushed then [p] else old(waiting) + [p]
      ensures gone == if flushed then old(gone) + [old(waiting)] else old(gone)
      ensures (Burst.Queue(queuedBytes, |elements|), flushed) ==
              Burst.Enqueue(Burst.Queue(old(queuedBytes), |old(elements)|), |Bytes(p)|)
    {
      hide Packed, AllOk, DataLen;
      PackedEmpty(waiting);
      PackedMore(waiting, p);
      PackedLong(waiting);
      var align := Burst.Padding(queuedBytes);
      flushed := false;
      if queuedBytes + |Bytes(p)| + align > Burst.MAX_PACKET_SIZE ||
          |elements| + 2 + (if align > 0 then 1 else 0) > Burst.ARCH_SCATTER_SIZE {
        flushed := Flush();
        align := 0;
      }
      Append(p, align);
    }

    /** The packet and the padding before it become elements of the queue. */
    method Append(p: Wire, align: nat)
      requires Valid() && WireOk(p) && align == Burst.Padding(queuedBytes)
      requires queuedBytes + |Bytes(p)| + align <= Burst.MAX_PACKET_SIZE &&
               |elements| + 2 + (if align > 0 then 1 else 0) <= Burst.ARCH_SCATTER_SIZE
      modifies `queuedBytes, `elements, `waiting
      ensures Valid() && waiting == old(waiting) + [p]
      ensures queuedBytes == old(queuedBytes) + align + |Bytes(p)| &&
              |elements| == |old(elements)| + (if align > 0 then 1 else 0) + 2
    {
      PackedMore(waiting, p);
      FlattenThree(elements, Zeros(align), p.head, p.body);
      if align > 0 {
        elements := elements + [Zeros(align)];
        queuedBytes := queuedBytes + align;
      }
      elements := elements + [p.head, p.body];
      queuedBytes := queuedBytes + |Bytes(p)|;
      waiting := waiting + [p];
    }
  }

  lemma PackedMore(ps: seq<Wire>, p: Wire)
    ensures Packed(ps + [p]) == Packed(ps) + Zeros(Burst.Padding(|Packed(ps)|)) + Bytes(p)
  {
    if ps == [] {
      assert ps + [p] == [p];
      assert [] + Zeros(0) + Bytes(p) == Bytes(p);
    } else {
      PackedAppend(ps, p);
    }
  }

  lemma {:induction false} PackedLong(ps: seq<Wire>)
    requires AllOk(ps)
    ensures |Packed(ps)| >= HEADER * |ps|
  {
    if |ps| > 1 {
      PackedLong(ps[1..]);
    }
  }

  lemma FlattenAppend<T>(s: seq<seq<T>>, x: seq<T>)
    ensures Flatten(s + [x]) == Flatten(s) + x
  {
    assert (s + [x])[..|s|] == s;
  }

  lemma FlattenThree<T>(s: seq<seq<T>>, a: seq<T>, b: seq<T>, c: seq<T>)
    ensures Flatten(s + [a] + [b, c]) == Flatten(s) + a + (b + c)
    ensures a == [] ==> Flatten(s + [b, c]) == Flatten(s) + a + (b + c)
  {
    FlattenAppend(s, a);
    FlattenAppend(s + [a], b);
    FlattenAppend(s + [a] + [b], c);
    assert s + [a] + [b] + [c] == s + [a] + [b, c];
    FlattenAppend(s, b);
    FlattenAppend(s + [b], c);
    assert s + [b] + [c] == s + [b, c];
  }

  lemma PackedEmpty(ps: seq<Wire>)
    requires AllOk(ps)
    ensures |Packed(ps)| == 0 <==> ps == []
  {
  }

  /** The first packet of a datagram, and what follows it. */
  lemma PackedFirst(ps: seq<Wire>)
    requires ps != [] && AllOk(ps)
    ensures var data, n := Packed(ps), HEADER + |ps[0].body|;
            && n <= |data| && data[..HEADER] == ps[0].head && data[HEADER..n] == ps[0].body
            && (|ps| == 1 ==> |data| == n)
            && (|ps| > 1 ==> n + Burst.Padding(n) + HEADER <= |data| && data[n + Burst.Padding(n)..] == Packed(ps[1..]))
  {
    var n := HEADER + |ps[0].body|;
    var first := Bytes(ps[0]);
    assert |first| == n && first[..HEADER] == ps[0].head && first[HEADER..] == ps[0].body;
    if |ps| > 1 {
      PackedEmptyMore(ps[1..]);
      var pad := Zeros(Burst.Padding(n));
      assert Packed(ps) == (first + pad) + Packed(ps[1..]);
    }
  }

  lemma PackedEmptyMore(ps: seq<Wire>)
    requires ps != [] && AllOk(ps)
    ensures |Packed(ps)| >= HEADER
  {
  }

  /** The same at place at of a buffer. */
  lemma PackedAt(data: seq<byte>, at: nat, ps: seq<Wire>)
    requires at <= |data| && data[at..] == Packed(ps) && ps != [] && AllOk(ps)
    ensures var n := HEADER + |ps[0].body|;
            && at + n <= |data| && data[at..at + HEADER] == ps[0].head && data[at + HEADER..at + n] == ps[0].body
            && AllOk(ps[1..]) && WireOk(ps[0])
            && (|ps| == 1 ==> |data| == at + n)
            && (|ps| > 1 ==>
                  at + n + Burst.Padding(n) + HEADER <= |data| && data[at + n + Burst.Padding(n)..] == Packed(ps[1..]))
  {
    PackedFirst(ps);
    hide Packed;
    var n := HEADER + |ps[0].body|;
    var tail := data[at..];
    assert tail[..HEADER] == data[at..at + HEADER] && tail[HEADER..n] == data[at + HEADER..at + n];
    if |ps| > 1 {
      assert tail[n + Burst.Padding(n)..] == data[at + n + Burst.Padding(n)..];
    }
  }

  lemma PaddingAligned(a: nat, n: nat)
    ensures a % 4 == 0 ==> Burst.Padding(a + n) == Burst.Padding(n)
    ensures (a + Burst.Padding(a)) % 4 == 0 && Burst.Padding(HEADER + n) == Burst.Padding(n)
  {
    PaddingTail(a, n);
    PaddingTail(HEADER, n);
    PaddingIs(a);
  }

  /** Packet w lies at place at, on a multiple of four. */
  predicate LiesAt(data: seq<byte>, at: nat, w: Wire) {
    && at % 4 == 0 && at + HEADER + |w.body| <= |data|
    && data[at..at + HEADER] == w.head && data[at + HEADER..at + HEADER + |w.body|] == w.body
  }

  /** The first packets lie at the places at, one after the other and before place end. */
  ghost predicate LieAt(data: seq<byte>, at: seq<nat>, ps: seq<Wire>, end: nat) {
    && |at| <= |ps|
    && (forall k | 0 <= k < |at| :: LiesAt(data, at[k], ps[k]) && at[k] + HEADER + |ps[k].body| <= end)
    && forall k | 0 < k < |at| :: at[k - 1] + HEADER + |ps[k - 1].body| <= at[k]
  }

  lemma LieMore(data: seq<byte>, at: seq<nat>, ps: seq<Wire>, end: nat, end': nat)
    requires LieAt(data, at, ps, end) && |at| < |ps| && LiesAt(data, end, ps[|at|]) &&
             end + HEADER + |ps[|at|].body| <= end'
    ensures LieAt(data, at + [end], ps, end')
  {
    hide LiesAt;
  }

  /** The check at the end of Net_recv: the lengths in the headers add up to the length received.  at are the
      places where the walk looks for headers: those of the packets, in order and one after the other, each on a
      multiple of four. */
  method CheckLengths(data: seq<byte>, ghost ps: seq<Wire>) returns (ok: bool, ghost at: seq<nat>)
    requires ps != [] && AllOk(ps) && data == Packed(ps)
    ensures ok && |at| == |ps|
    ensures forall k | 0 <= k < |ps| :: LiesAt(data, at[k], ps[k])
    ensures forall k | 0 < k < |ps| :: at[k - 1] + HEADER + |ps[k - 1].body| <= at[k]
  {
    hide Packed, AllOk, DataLen, Burst.Padding, LieAt;
    assert data[0..] == data;
    PackedAt(data, 0, ps);
    ghost var rest := ps[1..];
    var processed := HEADER + DataLen(data[..HEADER]);
    at := [0];
    LieFirst(data, ps, processed);
    if processed < |data| {
      processed := processed + Burst.Padding(processed);
    }
    PaddingAligned(HEADER + |ps[0].body|, 0);
    while processed < |data|
      invariant processed <= |data| && (processed < |data| <==> rest != []) && AllOk(rest)
      invariant rest != [] ==> data[processed..] == Packed(rest) && processed % 4 == 0
      invariant |at| <= |ps| && rest == ps[|at|..] && LieAt(data, at, ps, processed)
      decreases |data| - processed
    {
      PackedAt(data, processed, rest);
      PaddingAligned(processed, HEADER + |rest[0].body|);
      PaddingAligned(processed + HEADER + |rest[0].body|, 0);
      ghost var was := processed;
      processed := processed + HEADER + DataLen(data[processed..processed + HEADER]);
      if processed < |data| {
        processed := processed + Burst.Padding(processed);
      }
      LieMore(data, at, ps, was, processed);
      at := at + [was];
      rest := rest[1..];
    }
    ok := processed == |data|;
    LieAll(data, at, ps, processed);
  }

  lemma LieFirst(data: seq<byte>, ps: seq<Wire>, end: nat)
    requires ps != [] && LiesAt(data, 0, ps[0]) && HEADER + |ps[0].body| <= end
    ensures forall end': nat | end <= end' :: LieAt(data, [0], ps, end')
  {
    hide LiesAt;
  }

  lemma LieAll(data: seq<byte>, at: seq<nat>, ps: seq<Wire>, end: nat)
    requires LieAt(data, at, ps, end)
    ensures forall k | 0 <= k < |at| :: LiesAt(data, at[k], ps[k])
    ensures forall k | 0 < k < |at| :: at[k - 1] + HEADER + |ps[k - 1].body| <= at[k]
  {
    hide LiesAt;
  }

  /** The walk of Prot_handle_bcast: the packets that were queued, in their order. */
  method Unpack(data: seq<byte>, ghost ps: seq<Wire>) returns (out: seq<Wire>)
    requires ps != [] && AllOk(ps) && data == Packed(ps)
    ensures out == ps
  {
    hide Packed, AllOk, Burst.Padding;
    assert data[0..] == data;
    PackedAt(data, 0, ps);
    ghost var rest := ps[1..];
    var head, buf := data[..HEADER], data[HEADER..];
    var total := DataLen(head);
    assert buf[..total] == data[HEADER..HEADER + total];
    out := [Wire(head, buf[..total])];
    PaddingAligned(total, total);
    total := total + Burst.Padding(total);
    assert rest != [] ==> buf[total..] == data[HEADER + total..];
    while |buf| > total
      invariant out + rest == ps && (|buf| > total <==> rest != []) && AllOk(rest)
      invariant rest != [] ==> buf[total..] == Packed(rest) && total % 4 == 0
      decreases |buf| - total
    {
      PackedAt(buf, total, rest);
      head := buf[total..total + HEADER];
      var n := DataLen(head);
      out := out + [Wire(head, buf[total + HEADER..total + HEADER + n])];
      PaddingAligned(total, HEADER + n);
      PaddingAligned(total + HEADER + n, n);
      total := total + HEADER + n;
      total := total + Burst.Padding(total);
      rest := rest[1..];
    }
  }

  /** The length of a datagram with packets of these lengths. */
  function Length(sizes: seq<nat>): nat {
    if sizes == [] then 0 else
      var n := Length(sizes[..|sizes| - 1]);
      n + Burst.Padding(n) + sizes[|sizes| - 1]
  }

  lemma LengthAppend(sizes: seq<nat>, n: nat)
    ensures Length(sizes + [n]) == Length(sizes) + Burst.Padding(Length(sizes)) + n
  {
    assert (sizes + [n])[..|sizes|] == sizes;
  }

  /** Packets of these lengths, cut into datagrams each of which is as long as it can be. */
  ghost predicate Cut(groups: seq<seq<nat>>) {
    && (forall i | 0 <= i < |groups| :: groups[i] != [] && Length(groups[i]) <= Burst.MAX_PACKET_SIZE)
    && forall i | 0 < i < |groups| :: groups[i] != [] && Length(groups[i - 1] + [groups[i][0]]) > Burst.MAX_PACKET_SIZE
  }

  lemma FlattenFirst<T>(x: seq<T>, s: seq<seq<T>>)
    ensures Flatten([x] + s) == x + Flatten(s)
  {
    if s == [] {
      assert [x] + s == [] + [x];
      FlattenAppend([], x);
    } else {
      var r, y := s[..|s| - 1], s[|s| - 1];
      assert [x] + s == ([x] + r) + [y] && s == r + [y];
      FlattenFirst(x, r);
      FlattenAppend([x] + r, y);
      FlattenAppend(r, y);
    }
  }

  lemma CutFirst(g: seq<nat>, groups: seq<seq<nat>>)
    requires Cut(groups) && g != [] && Length(g) <= Burst.MAX_PACKET_SIZE
    requires groups != [] ==> groups[0] != [] && Length(g + [groups[0][0]]) > Burst.MAX_PACKET_SIZE
    ensures Cut([g] + groups)
  {
    hide Length;
    var all := [g] + groups;
    forall i | 0 < i < |all|
      ensures all[i] != [] && Length(all[i - 1] + [all[i][0]]) > Burst.MAX_PACKET_SIZE
    {
      assert all[i] == groups[i - 1] && (i > 1 ==> all[i - 1] == groups[i - 2]);
    }
  }

  /** The lengths of packets with these bodies. */
  function Sizes(lens: seq<nat>): (r: seq<nat>)
    ensures |r| == |lens|
  {
    seq(|lens|, i requires 0 <= i < |lens| => HEADER + lens[i])
  }

  /** Packets of lengths g are in the queue. */
  predicate Queued(q: Burst.Queue, g: seq<nat>) {
    q.bytes == Length(g) <= Burst.MAX_PACKET_SIZE && q.bytes >= HEADER * |g| && q.elems <= 3 * |g|
  }

  lemma LengthOne(n: nat)
    ensures Length([n]) == n && Length([]) == 0
  {
    assert [n][..0] == [];
  }

  lemma EnqueueCuts(q: Burst.Queue, g: seq<nat>, size: nat)
    requires Queued(q, g) && HEADER <= size <= Burst.MAX_PACKET_SIZE
    ensures var (q', flushed) := Burst.Enqueue(q, size);
            && (flushed <==> g != [] && Length(g + [size]) > Burst.MAX_PACKET_SIZE)
            && Queued(q', if flushed then [size] else g + [size])
  {
    hide Length, Burst.Padding;
    LengthAppend(g, size);
    LengthOne(size);
    if g == [] {
      assert Burst.Padding(0) == 0 by { PaddingIs(0); }
    }
  }

  lemma SizesFirst(lens: seq<nat>, n: nat)
    requires n < |lens|
    ensures Sizes(lens[..n + 1]) == [HEADER + lens[0]] + Sizes(lens[1..][..n])
  {
  }

  lemma TakeNext(lens: seq<nat>, allowed: nat, q: Burst.Queue, sent: nat)
    requires sent < allowed && lens != []
    ensures var (q', flushed) := Burst.Enqueue(q, HEADER + lens[0]);
            var (n, s) := Burst.Take(lens[1..], allowed, q', if flushed then sent + 1 else sent);
            Burst.Take(lens, allowed, q, sent) == (n + 1, s)
  {
  }

  lemma TakeLast(lens: seq<nat>, allowed: nat, q: Burst.Queue, sent: nat, g: seq<nat>) returns (groups: seq<seq<nat>>)
    requires (sent >= allowed || lens == []) && Queued(q, g)
    ensures var (n, s) := Burst.Take(lens, allowed, q, sent);
            Cut(groups) && Flatten(groups) == g + Sizes(lens[..n]) && s == sent + |groups|
    ensures g != [] ==> groups == [g]
  {
    groups := if g == [] then [] else [g];
    assert g + Sizes([]) == g && lens[..0] == [];
    if g != [] {
      assert [g] + [] == [g];
      FlattenFirst(g, []);
    }
  }

  /** Groups that are the packets queued and the first n of those waiting, and s - sent in number. */
  ghost predicate CutOf(groups: seq<seq<nat>>, g: seq<nat>, lens: seq<nat>, taken: (nat, nat), sent: nat) {
    && Cut(groups) && taken.0 <= |lens| && Flatten(groups) == g + Sizes(lens[..taken.0]) && taken.1 == sent + |groups|
    && (g != [] ==> groups != [] && groups[0] != [] && groups[0][0] == g[0])
  }

  lemma CutJoin(groups: seq<seq<nat>>, g: seq<nat>, lens: seq<nat>, taken: (nat, nat), sent: nat)
    requires lens != [] && CutOf(groups, g + [HEADER + lens[0]], lens[1..], taken, sent)
    ensures CutOf(groups, g, lens, (taken.0 + 1, taken.1), sent)
  {
    hide Cut, Flatten, Sizes;
    var size := HEADER + lens[0];
    SizesFirst(lens, taken.0);
    assert (g + [size]) + Sizes(lens[1..][..taken.0]) == g + ([size] + Sizes(lens[1..][..taken.0]));
  }

  lemma CutFlush(rest: seq<seq<nat>>, g: seq<nat>, lens: seq<nat>, taken: (nat, nat), sent: nat)
    requires lens != [] && CutOf(rest, [HEADER + lens[0]], lens[1..], taken, sent + 1)
    requires g != [] && Length(g) <= Burst.MAX_PACKET_SIZE && Length(g + [HEADER + lens[0]]) > Burst.MAX_PACKET_SIZE
    ensures CutOf([g] + rest, g, lens, (taken.0 + 1, taken.1), sent)
  {
    hide Cut, Flatten, Sizes, Length;
    CutFirst(g, rest);
    FlattenFirst(g, rest);
    SizesFirst(lens, taken.0);
  }

  /** The datagrams that a visit counts are those its packets make: none could have taken one packet more.  g are
      the packets queued already. */
  lemma {:induction false} TakeCuts(lens: seq<nat>, allowed: nat, q: Burst.Queue, sent: nat, g: seq<nat>)
    returns (groups: seq<seq<nat>>)
    requires (forall i | 0 <= i < |lens| :: lens[i] <= Burst.MAX_BODY) && Queued(q, g)
    ensures CutOf(groups, g, lens, Burst.Take(lens, allowed, q, sent), sent)
    decreases |lens|
  {
    if sent >= allowed || lens == [] {
      groups := TakeLast(lens, allowed, q, sent, g);
    } else {
      hide Burst.Take, Burst.Enqueue, CutOf, Queued, Length;
      var size := HEADER + lens[0];
      var (q', flushed) := Burst.Enqueue(q, size);
      EnqueueCuts(q, g, size);
      TakeNext(lens, allowed, q, sent);
      if flushed {
        var rest := TakeCuts(lens[1..], allowed, q', sent + 1, [size]);
        groups := [g] + rest;
        QueuedFits(q, g);
        CutFlush(rest, g, lens, Burst.Take(lens[1..], allowed, q', sent + 1), sent);
      } else {
        groups := TakeCuts(lens[1..], allowed, q', sent, g + [size]);
        CutJoin(groups, g, lens, Burst.Take(lens[1..], allowed, q', sent), sent);
      }
    }
  }

  lemma QueuedFits(q: Burst.Queue, g: seq<nat>)
    requires Queued(q, g)
    ensures Length(g) <= Burst.MAX_PACKET_SIZE
  {
  }
}
