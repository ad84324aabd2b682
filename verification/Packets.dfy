/** Packets, messages and the reassembly of messages out of the packets handed up. */
module Packets {

  newtype byte = b: int | 0 <= b < 256

  type Body = seq<byte>

  /** The delivery service of a packet (one bit of its type). */
  datatype Service = Reliable | Fifo | Agreed | Safe

  /** A regular packet of one ring.  index is k for the k-th packet of a message that is not its last
      packet, and -n for the last packet of a message of n packets. */
  datatype Packet = Packet(seqNo: nat, sender: nat, service: Service, index: int, body: Body)

  /** A message as it waits in the down queue: its service and the bodies of its packets. */
  datatype Message = Message(service: Service, parts: seq<Body>)

  /** A RELIABLE message of one packet: it may overtake everything else. */
  predicate Single(p: Packet) {
    p.service.Reliable? && p.index == -1
  }

  predicate SingleMessage(m: Message) {
    m.service.Reliable? && |m.parts| == 1
  }

  /** The packets that keep the total order. */
  function Ord(s: seq<Packet>): seq<Packet> {
    if s == [] then [] else
      var p := s[|s| - 1];
      if Single(p) then Ord(s[..|s| - 1]) else Ord(s[..|s| - 1]) + [p]
  }

  lemma OrdAppend(s: seq<Packet>, p: Packet)
    ensures Ord(s + [p]) == if Single(p) then Ord(s) else Ord(s) + [p]
  {
    assert (s + [p])[..|s|] == s;
  }

  lemma {:induction false} OrdConcat(s: seq<Packet>, t: seq<Packet>)
    ensures Ord(s + t) == Ord(s) + Ord(t)
  {
    if t == [] {
      assert s + t == s;
    } else {
      assert (s + t)[..|s + t| - 1] == s + t[..|t| - 1];
      OrdConcat(s, t[..|t| - 1]);
    }
  }

  /** The packets chained in the up queue of one sender after the packets s were handed up:
      those of its last message, if that is not complete. */
  function Chain(s: seq<Packet>, sender: nat): seq<Packet> {
    if s == [] then [] else
      var p := s[|s| - 1];
      var c := Chain(s[..|s| - 1], sender);
      if Single(p) || p.sender != sender then c
      else if p.index < 0 then []
      else c + [p]
  }

  function Bodies(s: seq<Packet>): (r: seq<Body>)
    ensures |r| == |s|
  {
    if s == [] then [] else Bodies(s[..|s| - 1]) + [s[|s| - 1].body]
  }

  lemma EmptyBodies()
    ensures Bodies([]) == []
  {
  }

  lemma BodiesAppend(s: seq<Packet>, p: Packet)
    ensures Bodies(s + [p]) == Bodies(s) + [p.body]
  {
    assert (s + [p])[..|s|] == s;
  }

  /** The messages of one sender pushed up to the sessions while the packets s were handed up. */
  function Rebuilt(s: seq<Packet>, sender: nat): seq<Message> {
    if s == [] then [] else
      var p := s[|s| - 1];
      var r := Rebuilt(s[..|s| - 1], sender);
      if p.sender != sender || p.index >= 0 then r
      else if Single(p) then r + [Message(p.service, [p.body])]
      else r + [Message(p.service, Bodies(Chain(s[..|s| - 1], sender)) + [p.body])]
  }

  /** The validity check of the up queue: the packet is the next one of its sender's message. */
  predicate Accepts(s: seq<Packet>, p: Packet) {
    Single(p) || (if p.index < 0 then -p.index else p.index) == |Chain(s, p.sender)| + 1
  }

  lemma ChainAppend(s: seq<Packet>, p: Packet, sender: nat)
    ensures Chain(s + [p], sender) ==
            if Single(p) || p.sender != sender then Chain(s, sender)
            else if p.index < 0 then []
            else Chain(s, sender) + [p]
    ensures Rebuilt(s + [p], sender) ==
            if p.sender != sender || p.index >= 0 then Rebuilt(s, sender)
            else if Single(p) then Rebuilt(s, sender) + [Message(p.service, [p.body])]
            else Rebuilt(s, sender) + [Message(p.service, Bodies(Chain(s, sender)) + [p.body])]
  {
    assert (s + [p])[..|s|] == s;
  }

  /** Overtaking packets leave no trace in the up queue of their sender. */
  lemma {:induction false} ChainOfOrd(s: seq<Packet>, sender: nat)
    ensures Chain(Ord(s), sender) == Chain(s, sender)
  {
    if s != [] {
      var r, p := s[..|s| - 1], s[|s| - 1];
      assert r + [p] == s;
      ChainOfOrd(r, sender);
      OrdAppend(r, p);
      ChainAppend(r, p, sender);
      ChainAppend(Ord(r), p, sender);
    }
  }

  lemma AcceptsOfOrd(s: seq<Packet>, t: seq<Packet>, p: Packet)
    requires Ord(s) == Ord(t)
    ensures Accepts(s, p) == Accepts(t, p)
  {
    ChainOfOrd(s, p.sender);
    ChainOfOrd(t, p.sender);
  }

  predicate AcceptedAt(s: seq<Packet>, i: nat)
    requires i < |s|
  {
    Accepts(s[..i], s[i])
  }

  /** Every packet was acceptable when it was numbered. */
  ghost predicate InSequence(s: seq<Packet>) {
    forall i | 0 <= i < |s| :: AcceptedAt(s, i)
  }

  lemma InSequenceAppend(sent: seq<Packet>, p: Packet)
    requires InSequence(sent) && Accepts(sent, p)
    ensures InSequence(sent + [p])
  {
    hide Accepts;
    var s := sent + [p];
    forall i | 0 <= i < |s|
      ensures AcceptedAt(s, i)
    {
      if i < |sent| {
        assert s[..i] == sent[..i] && AcceptedAt(sent, i);
      } else {
        assert s[..i] == sent;
      }
    }
  }

  lemma InSequencePrefix(s: seq<Packet>, n: nat)
    requires InSequence(s) && n <= |s|
    ensures InSequence(s[..n])
  {
    forall i | 0 <= i < n
      ensures AcceptedAt(s[..n], i)
    {
      assert AcceptedAt(s, i) && s[..n][..i] == s[..i];
    }
  }

  lemma InSequenceLast(s: seq<Packet>, p: Packet)
    ensures InSequence(s + [p]) <==> InSequence(s) && Accepts(s, p)
  {
    var all := s + [p];
    assert all[..|s|] == s;
    if InSequence(all) {
      InSequencePrefix(all, |s|);
      assert AcceptedAt(all, |s|);
    } else if InSequence(s) && Accepts(s, p) {
      InSequenceAppend(s, p);
    }
  }

  /** Whether packets are in sequence depends on the ordered ones alone. */
  lemma {:induction false} SequenceOfOrd(s: seq<Packet>)
    ensures InSequence(s) <==> InSequence(Ord(s))
  {
    hide InSequence, Accepts;
    if s == [] {
      assert Ord(s) == s;
    } else {
      var r, p := s[..|s| - 1], s[|s| - 1];
      assert r + [p] == s;
      SequenceOfOrd(r);
      OrdAppend(r, p);
      InSequenceLast(r, p);
      InSequenceLast(Ord(r), p);
      AcceptsOfSelf(r, p);
    }
  }

  lemma AcceptsOfSelf(s: seq<Packet>, p: Packet)
    ensures Single(p) ==> Accepts(s, p)
    ensures Accepts(Ord(s), p) == Accepts(s, p)
  {
    ChainOfOrd(s, p.sender);
  }

  /** One packet that is not accepted, and what follows does not matter. */
  lemma RefusedStays(s: seq<Packet>, p: Packet, rest: seq<Packet>)
    requires !Accepts(s, p)
    ensures !InSequence((s + [p]) + rest)
  {
    var all := (s + [p]) + rest;
    assert all[..|s|] == s;
    assert !AcceptedAt(all, |s|);
  }

  /** Overtaking packets are always accepted. */
  lemma {:induction false} OvertakingAccepted(s: seq<Packet>, t: seq<Packet>)
    requires InSequence(s) && Ord(t) == []
    ensures InSequence(s + t)
  {
    if t == [] {
      assert s + t == s;
    } else {
      var r, p := t[..|t| - 1], t[|t| - 1];
      OvertakingAccepted(s, r);
      InSequenceAppend(s + r, p);
      assert (s + r) + [p] == s + t;
    }
  }

  /** Messages other than overtaking ones. */
  function Ordered(ms: seq<Message>): seq<Message> {
    if ms == [] then [] else
      var m := ms[|ms| - 1];
      if SingleMessage(m) then Ordered(ms[..|ms| - 1]) else Ordered(ms[..|ms| - 1]) + [m]
  }

  lemma OrderedAppend(ms: seq<Message>, m: Message)
    ensures Ordered(ms + [m]) == if SingleMessage(m) then Ordered(ms) else Ordered(ms) + [m]
  {
    assert (ms + [m])[..|ms|] == ms;
  }

  lemma {:induction false} OrderedPrefix(ms: seq<Message>, k: nat)
    requires k <= |ms|
    ensures Ordered(ms[..k]) <= Ordered(ms)
  {
    if k < |ms| {
      OrderedPrefix(ms[..|ms| - 1], k);
      assert ms[..|ms| - 1][..k] == ms[..k];
    } else {
      assert ms[..k] == ms;
    }
  }

  /** What one sender's ordered packets rebuild are its messages other than the overtaking ones. */
  lemma {:induction false} RebuiltOfOrd(s: seq<Packet>, sender: nat)
    requires InSequence(s)
    ensures Rebuilt(Ord(s), sender) == Ordered(Rebuilt(s, sender))
  {
    if s != [] {
      var r, p := s[..|s| - 1], s[|s| - 1];
      assert r + [p] == s;
      forall i | 0 <= i < |r|
        ensures AcceptedAt(r, i)
      {
        assert AcceptedAt(s, i) && r[..i] == s[..i];
      }
      RebuiltOfOrd(r, sender);
      OrdAppend(r, p);
      ChainAppend(r, p, sender);
      ChainAppend(Ord(r), p, sender);
      ChainOfOrd(r, sender);
      assert AcceptedAt(s, |s| - 1);
      if p.sender == sender && p.index < 0 {
        var m := if Single(p) then Message(p.service, [p.body])
            else Message(p.service, Bodies(Chain(r, sender)) + [p.body]);
        OrderedAppend(Rebuilt(r, sender), m);
      }
    }
  }
}
