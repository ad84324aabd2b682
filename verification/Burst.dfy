/** How many packets one token visit sends, and how many datagrams it counts.

    Packets wait in a queue that is flushed as one datagram when the next packet does not fit; a
    visit counts flushes, not packets. */
module Burst {
  const MAX_PACKET_SIZE: nat := 1472
  const ARCH_SCATTER_SIZE: nat := 1024
  const PACKET_HEADER: nat := 36
  const MAX_BODY: nat := MAX_PACKET_SIZE - PACKET_HEADER

  const WINDOW: int := 60
  const PERSONAL_WINDOW: int := 15
  const MAX_SEQ_GAP: nat := 1600

  /** Most packets in one datagram, and most packets in one visit. */
  const PER_DATAGRAM: nat := 40
  const MAX_BURST: nat := (PERSONAL_WINDOW + 1) * PER_DATAGRAM

  /** Queued_bytes and the number of scatter elements queued. */
  datatype Queue = Queue(bytes: nat, elems: nat)

  const EMPTY := Queue(0, 0)

  function Padding(bytes: nat): nat {
    (4 - bytes % 4) % 4
  }

  predicate Overflows(q: Queue, size: nat) {
    var pad := Padding(q.bytes);
    || q.bytes + size + pad > MAX_PACKET_SIZE
    || q.elems + 2 + (if pad > 0 then 1 else 0) > ARCH_SCATTER_SIZE
  }

  /** Queue one packet of the given size; the flag says that the packets before it were flushed. */
  function Enqueue(q: Queue, size: nat): (Queue, bool) {
    var pad := Padding(q.bytes);
    if Overflows(q, size) then
      (Queue(size, 2), q.bytes > 0)
    else
      (Queue(q.bytes + pad + size, q.elems + (if pad > 0 then 1 else 0) + 2), false)
  }

  /** The number of datagrams a visit may still send. */
  function Allowed(fc: int, hi: nat, aru: nat): (a: nat)
    ensures a <= PERSONAL_WINDOW
  {
    if hi > aru + MAX_SEQ_GAP then 0 else
      var a := WINDOW + PERSONAL_WINDOW - fc;
      var b := if a < 0 then 0 else if a > WINDOW then WINDOW else a;
      if b > PERSONAL_WINDOW then PERSONAL_WINDOW else b
  }

  /** What is allowed is all that the windows leave: with it the token's count stays within them, and with one more it
      would not, or this daemon's own window would be passed. */
  lemma AllowedIs(fc: int, hi: nat, aru: nat)
    ensures var a := Allowed(fc, hi, aru);
            && (a > 0 ==> hi <= aru + MAX_SEQ_GAP && fc + a <= WINDOW + PERSONAL_WINDOW)
            && (hi <= aru + MAX_SEQ_GAP ==> a == PERSONAL_WINDOW || fc + a + 1 > WINDOW + PERSONAL_WINDOW)
  {
  }

  /** Packets taken out of those waiting (bodies of the given lengths) and datagrams counted,
      including the last flush. */
  function Take(lens: seq<nat>, allowed: nat, q: Queue, sent: nat): (r: (nat, nat))
    ensures r.0 <= |lens|
  {
    if sent >= allowed || lens == [] then
      (0, if q.bytes > 0 then sent + 1 else sent)
    else
      var (q', flushed) := Enqueue(q, PACKET_HEADER + lens[0]);
      var (n, s) := Take(lens[1..], allowed, q', if flushed then sent + 1 else sent);
      (n + 1, s)
  }

  /** Every datagram counted holds at most PER_DATAGRAM packets (held are in the queue already), and
      at most one datagram more than allowed is sent. */
  lemma {:induction false} TakeBound(lens: seq<nat>, allowed: nat, q: Queue, sent: nat, held: nat)
    requires forall i | 0 <= i < |lens| :: lens[i] <= MAX_BODY
    requires PACKET_HEADER * held <= q.bytes <= MAX_PACKET_SIZE
    requires q.bytes > 0 ==> held > 0
    requires sent <= allowed
    ensures var (n, s) := Take(lens, allowed, q, sent);
            && n + held <= PER_DATAGRAM * (s - sent)
            && sent <= s <= allowed + 1
            && (allowed == sent ==> n == 0)
            && s - sent <= n + held
  {
    if sent < allowed && lens != [] {
      var (q', flushed) := Enqueue(q, PACKET_HEADER + lens[0]);
      TakeBound(lens[1..], allowed, q', if flushed then sent + 1 else sent,
          if flushed || q.bytes == 0 then 1 else held + 1);
    }
  }

  /** Packets are taken until the datagrams counted are as many as allowed, or none is left. */
  lemma {:induction false} TakeAll(lens: seq<nat>, allowed: nat, q: Queue, sent: nat)
    ensures var (n, s) := Take(lens, allowed, q, sent); n == |lens| || s >= allowed
  {
    if sent < allowed && lens != [] {
      var (q', flushed) := Enqueue(q, PACKET_HEADER + lens[0]);
      TakeAll(lens[1..], allowed, q', if flushed then sent + 1 else sent);
    }
  }

  /** A visit sends at most MAX_BURST packets, and none when nothing is allowed. */
  lemma VisitBound(lens: seq<nat>, allowed: nat)
    requires forall i | 0 <= i < |lens| :: lens[i] <= MAX_BODY
    requires allowed <= PERSONAL_WINDOW
    ensures var (n, s) := Take(lens, allowed, EMPTY, 0);
            && n <= PER_DATAGRAM * s && s <= n && s <= allowed + 1 && n <= MAX_BURST
            && (allowed == 0 ==> n == 0 && s == 0)
  {
    TakeBound(lens, allowed, EMPTY, 0, 0);
  }
}
