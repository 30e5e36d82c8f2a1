/** The interface queue of priqueue.cc: taking out the packets bound for a lost neighbour, filtering, and routing
    packets jumping the queue. */
module InterfaceQueue {
  import opened Basics
  import opened Buffers
  import opened Nodes

  /** The packets a filter leaves, in order. */
  function Unfiltered(q: seq<Pkt>, f: Pkt -> bool): seq<Pkt> {
    if q == [] then []
    else (if f(q[0]) then [] else [q[0]]) + Unfiltered(q[1..], f)
  }

  /** Filtering removes every packet the filter accepts and no copy of any other. */
  lemma {:induction false} UnfilteredCount(q: seq<Pkt>, f: Pkt -> bool, p: Pkt)
    ensures multiset(Unfiltered(q, f))[p] == if f(p) then 0 else multiset(q)[p]
  {
    if q != [] {
      UnfilteredCount(q[1..], f, p);
      assert q == [q[0]] + q[1..];
    }
  }

  /** What is left of one part of the queue stays in front of what is left of the rest. */
  lemma {:induction false} UnfilteredConcat(a: seq<Pkt>, b: seq<Pkt>, f: Pkt -> bool)
    ensures Unfiltered(a + b, f) == Unfiltered(a, f) + Unfiltered(b, f)
  {
    if a == [] {
      assert a + b == b;
    } else {
      assert (a + b)[1..] == a[1..] + b;
      UnfilteredConcat(a[1..], b, f);
    }
  }

  /** The queue, whether the link is busy, and what has been sent and dropped. */
  datatype Link = Link(q: seq<Pkt>, blocked: bool, sent: seq<Pkt>, dropped: seq<Pkt>)

  /** What becomes of a routing packet and the queue it jumps. */
  function HighPriority(s: Link, p: Pkt, limit: nat): Link {
    var q := [p] + s.q;
    var over := |q| >= limit;
    var q1 := if over then q[..|q| - 1] else q;
    var dropped := if over then s.dropped + [q[|q| - 1]] else s.dropped;
    if s.blocked || q1 == [] then Link(q1, s.blocked, s.sent, dropped)
    else Link(q1[1..], true, s.sent + [q1[0]], dropped)
  }

  /** The queue never fills up; the packet goes out at once or waits at the head; nobody else is overtaken; and
      of everything only the last packet in line can be dropped. */
  lemma HighPriorityFair(s: Link, p: Pkt, limit: nat)
    requires |s.q| < limit
    ensures var r := HighPriority(s, p, limit);
      && |r.q| < limit
      && [p] + s.q == r.sent[|s.sent|..] + r.q + r.dropped[|s.dropped|..]
      && r.sent[..|s.sent|] == s.sent && r.dropped[..|s.dropped|] == s.dropped
      && (limit >= 2 ==> if s.blocked then r.q != [] && r.q[0] == p else r.sent == s.sent + [p])
  {
    var r := HighPriority(s, p, limit);
    var q := [p] + s.q;
    if |q| >= limit {
      assert q == q[..|q| - 1] + [q[|q| - 1]];
      assert r.dropped[|s.dropped|..] == [q[|q| - 1]];
    }
    var q1 := if |q| >= limit then q[..|q| - 1] else q;
    if !s.blocked && q1 != [] {
      assert r.sent[|s.sent|..] == [q1[0]] && [q1[0]] + q1[1..] == q1;
    }
  }

  class PriQueue {
    var q: seq<Pkt>
    var blocked: bool
    var sent: seq<Pkt>
    var dropped: seq<Pkt>
    const limit: nat

    constructor (limit: nat)
      ensures q == [] && !blocked && sent == [] && dropped == [] && this.limit == limit
    {
      q, blocked, sent, dropped := [], false, [], [];
      this.limit := limit;
    }

    ghost function State(): Link
      reads this
    {
      Link(q, blocked, sent, dropped)
    }

    /** filter(id): takes out the first packet whose next hop is `id`. */
    method FilterNextHop(id: Addr) returns (p: Option<Pkt>)
      modifies this`q
      ensures match FindNextHop(old(q), id)
        case None => p == None && q == old(q)
        case Some(k) => p == Some(old(q)[k]) && q == RemoveAt(old(q), k)
    {
      var k := 0;
      while k < |q|
        invariant 0 <= k <= |q| && q == old(q)
        invariant forall i | 0 <= i < k :: q[i].nexthop != id
      {
        if q[k].nexthop == id {
          assert FindNextHop(q, id) == Some(k);
          p := Some(q[k]);
          q := RemoveAt(q, k);
          return;
        }
        k := k + 1;
      }
      return None;
    }

    /** filter(PacketFilter): removes in place every packet the filter accepts. */
    method Filter(f: Pkt -> bool)
      modifies this`q
      ensures q == Unfiltered(old(q), f)
    {
      var i := 0;
      while i < |q|
        invariant 0 <= i <= |q|
        invariant q[..i] + Unfiltered(q[i..], f) == Unfiltered(old(q), f)
        decreases |q| - i
      {
        assert q[i..][1..] == q[i + 1..];
        if f(q[i]) {
          assert RemoveAt(q, i)[..i] == q[..i] && RemoveAt(q, i)[i..] == q[i + 1..];
          q := RemoveAt(q, i);
        } else {
          assert q[..i + 1] == q[..i] + [q[i]];
          i := i + 1;
        }
      }
      assert q[i..] == [] && q[..i] == q;
    }

    /** recvHighPriority(p): in front of the queue; the last packet goes if the queue is full. */
    method RecvHighPriority(p: Pkt)
      modifies this
      ensures State() == HighPriority(old(State()), p, limit)
    {
      q := [p] + q;
      if |q| >= limit {
        dropped := dropped + [q[|q| - 1]];
        q := q[..|q| - 1];
      }
      if !blocked && q != [] {
        blocked := true;
        sent := sent + [q[0]];
        q := q[1..];
      }
    }
  }
}
