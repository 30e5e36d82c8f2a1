/** The packet buffer of eamrp_rqueue.cc in place: an intrusive singly linked list with a head, a tail and a
    length. Every method is proved against the functions of Buffers.dfy. */
module PacketBuffer {
  import opened Basics
  import opened Buffers
  import BufferLaws

  class Packet {
    var body: Pkt
    var next: Packet?

    constructor (p: Pkt)
      ensures body == p && next == null
    {
      body, next := p, null;
    }
  }

  ghost function BodiesOf(s: seq<Packet>): (r: seq<Pkt>)
    reads s
    ensures |r| == |s|
    ensures forall k | 0 <= k < |s| :: r[k] == s[k].body
  {
    seq(|s|, k requires 0 <= k < |s| reads s => s[k].body)
  }

  // ---- Purging one packet at a time ----

  /** The position of the first aged packet. */
  ghost predicate FirstAged(q: seq<Pkt>, k: nat, now: real) {
    k < |q| && q[k].deadline < now && forall i | 0 <= i < k :: now <= q[i].deadline
  }

  lemma PurgeNothing(b: Buffer, now: real)
    requires forall i | 0 <= i < |b.q| :: now <= b.q[i].deadline
    ensures Purge(b, now) == b
  {
    BufferLaws.LiveAll(b.q, now);
  }

  lemma {:induction false} PurgeFirst(q: seq<Pkt>, k: nat, now: real)
    requires FirstAged(q, k, now)
    ensures Live(RemoveAt(q, k), now) == Live(q, now)
    ensures AgedLosses(q, now) == [Loss(q[k], AgedOut)] + AgedLosses(RemoveAt(q, k), now)
  {
    if k == 0 {
      assert RemoveAt(q, 0) == q[1..];
    } else {
      PurgeFirst(q[1..], k - 1, now);
      var r := RemoveAt(q, k);
      assert r[1..] == RemoveAt(q[1..], k - 1) && r[0] == q[0];
    }
  }

  /** Unlinking the first aged packet does not change what the whole purge comes to. */
  lemma PurgeStep(b: Buffer, k: nat, now: real)
    requires FirstAged(b.q, k, now)
    ensures Purge(Buffer(RemoveAt(b.q, k), b.lost + [Loss(b.q[k], AgedOut)]), now) == Purge(b, now)
  {
    PurgeFirst(b.q, k, now);
    var one := [Loss(b.q[k], AgedOut)];
    assert b.lost + (one + AgedLosses(RemoveAt(b.q, k), now)) == (b.lost + one) + AgedLosses(RemoveAt(b.q, k), now);
  }

  ghost function Cut<T>(s: seq<T>, k: nat): (r: seq<T>)
    requires k < |s|
    ensures |r| == |s| - 1
    ensures forall i | 0 <= i < |r| :: r[i] == if i < k then s[i] else s[i + 1]
  {
    s[..k] + s[k + 1..]
  }

  class PacketQueue {
    var head: Packet?
    var tail: Packet?
    var len: int
    ghost var lost: seq<Loss>
    ghost var spine: seq<Packet>
    ghost var repr: set<Packet>

    /** head, tail and len agree with the linked packets. */
    ghost predicate Valid()
      reads this, repr
    {
      && len == |spine|
      && (forall i, j | 0 <= i < j < |spine| :: spine[i] != spine[j])
      && (forall k | 0 <= k < |spine| :: spine[k] in repr)
      && (spine == [] ==> head == null && tail == null)
      && (spine != [] ==> head == spine[0] && tail == spine[|spine| - 1])
      && (forall k {:trigger spine[k].next} | 0 <= k < |spine| :: spine[k].next == At(k + 1))
    }

    /** The packet at position `k`, or null past the end. */
    ghost function At(k: nat): Packet?
      reads this
    {
      if k < |spine| then spine[k] else null
    }

    /** The packets as values. */
    ghost function Packets(): (r: seq<Pkt>)
      requires Valid()
      reads this, repr
      ensures |r| == |spine|
      ensures forall k | 0 <= k < |spine| :: r[k] == spine[k].body
    {
      BodiesOf(spine)
    }

    ghost function Contents(): Buffer
      requires Valid()
      reads this, repr
    {
      Buffer(Packets(), lost)
    }

    constructor ()
      ensures Valid() && fresh(repr) && Contents() == Buffer([], [])
    {
      head, tail, len := null, null, 0;
      lost, spine, repr := [], [], {};
    }

    /** A queue whose objects are untouched is as it was. */
    twostate lemma Untouched()
      requires old(Valid()) && unchanged(this) && unchanged(repr)
      ensures Valid() && Contents() == old(Contents())
    {
    }

    /** Position `k` of a search: the packet there and the one before it. */
    ghost predicate Cursor(p: Packet?, prev: Packet?, k: int)
      reads this
    {
      0 <= k <= |spine| && p == At(k) && prev == if k == 0 then null else spine[k - 1]
    }

    /** Unlinks packet `p`, whose predecessor is `prev`: the three branches of deque(dst) and purge. */
    method Unlink(p: Packet, prev: Packet?, ghost k: nat)
      requires Valid() && k < |spine| && Cursor(p, prev, k)
      modifies this, repr
      ensures Valid() && lost == old(lost) && repr == old(repr) - {p} && p.body == old(p.body)
      ensures Packets() == Cut(old(Packets()), k)
    {
      if p == head {
        var _ := RemoveHead();
      } else {
        UnlinkAfter(p, prev, k);
      }
    }

    method UnlinkAfter(p: Packet, prev: Packet, ghost k: nat)
      requires Valid() && 0 < k < |spine| && Cursor(p, prev, k)
      modifies this, prev`next
      ensures Valid() && lost == old(lost) && repr == old(repr) - {p}
      ensures spine == Cut(old(spine), k)
    {
      if p == tail {
        prev.next := null;
        tail := prev;
      } else {
        prev.next := p.next;
      }
      len := len - 1;
      spine := Cut(spine, k);
      repr := repr - {p};
    }

    /** remove_head(): null when the queue is empty. */
    method RemoveHead() returns (p: Packet?)
      requires Valid()
      modifies this
      ensures Valid() && lost == old(lost)
      ensures old(spine) == [] ==> p == null && spine == [] && repr == old(repr)
      ensures old(spine) != [] ==>
        && p == old(spine)[0] && spine == Cut(old(spine), 0)
        && repr == old(repr) - {p} && Packets() == Cut(old(Packets()), 0)
    {
      p := head;
      if head == tail {
        head, tail := null, null;
      } else {
        head := head.next;
      }
      if p != null {
        len := len - 1;
        spine := Cut(spine, 0);
        repr := repr - {p};
      }
    }

    /** findPacketWithDst: the first packet for `d` and the packet before it. */
    method FindPacketWithDst(d: Addr) returns (p: Packet?, prev: Packet?, ghost k: nat)
      requires Valid()
      ensures Cursor(p, prev, k) && FindDst(Packets(), d) == if p == null then None else Some(k)
    {
      p, prev, k := head, null, 0;
      while p != null
        invariant Cursor(p, prev, k)
        invariant forall i | 0 <= i < k :: spine[i].body.dst != d
        decreases |spine| - k
      {
        if p.body.dst == d {
          return;
        }
        prev := p;
        p := p.next;
        k := k + 1;
      }
    }

    /** What findAgedPacket finds. */
    ghost predicate AgedAt(found: bool, p: Packet?, prev: Packet?, k: int, now: real)
      requires Valid()
      reads this, repr
    {
      && Cursor(p, prev, k) && found == (p != null)
      && if found then FirstAged(Packets(), k, now) else forall i | 0 <= i < |spine| :: now <= spine[i].body.deadline
    }

    /** findAgedPacket: the first packet whose deadline has passed. */
    method FindAgedPacket(now: real) returns (found: bool, p: Packet?, prev: Packet?, ghost k: nat)
      requires Valid()
      ensures AgedAt(found, p, prev, k, now)
    {
      p, prev, k := head, null, 0;
      while p != null
        invariant Cursor(p, prev, k)
        invariant forall i | 0 <= i < k :: now <= spine[i].body.deadline
        decreases |spine| - k
      {
        if p.body.deadline < now {
          found := true;
          return;
        }
        prev := p;
        p := p.next;
        k := k + 1;
      }
      found := false;
    }

    /** purge(): rescans the list after every packet it unlinks. */
    method Purge(now: real)
      requires Valid()
      modifies this, repr
      ensures Valid() && repr <= old(repr) && Contents() == Buffers.Purge(old(Contents()), now)
    {
      ghost var goal := Buffers.Purge(Contents(), now);
      var found, p, prev, k := FindAgedPacket(now);
      while found
        invariant Valid() && repr <= old(repr) && Purging(found, p, prev, k, now, goal)
        decreases |spine|
      {
        DropAged(p, prev, k, now, goal);
        found, p, prev, k := FindAgedPacket(now);
      }
      PurgeNothing(Contents(), now);
    }

    /** The purge that comes to `goal` has found what findAgedPacket finds. */
    ghost predicate Purging(found: bool, p: Packet?, prev: Packet?, k: int, now: real, goal: Buffer)
      requires Valid()
      reads this, repr
    {
      AgedAt(found, p, prev, k, now) && Buffers.Purge(Contents(), now) == goal
    }

    method DropAged(p: Packet, prev: Packet?, ghost k: nat, now: real, ghost goal: Buffer)
      requires Valid() && Purging(true, p, prev, k, now, goal)
      modifies this, repr
      ensures Valid() && repr <= old(repr) && |spine| < |old(spine)|
      ensures Buffers.Purge(Contents(), now) == goal
    {
      PurgeStep(Contents(), k, now);
      Lose(p, prev, k);
    }

    /** Unlinks packet `p`, which is handed to nobody. */
    method Lose(p: Packet, prev: Packet?, ghost k: nat)
      requires Valid() && k < |spine| && Cursor(p, prev, k)
      modifies this, repr
      ensures Valid() && repr <= old(repr) && |spine| < |old(spine)|
      ensures var b := old(Contents()); Contents() == Buffer(RemoveAt(b.q, k), b.lost + [Loss(b.q[k], AgedOut)])
    {
      Unlink(p, prev, k);
      Record(Loss(p.body, AgedOut));
    }

    /** The history remembers one more packet. */
    ghost method Record(l: Loss)
      requires Valid()
      modifies this`lost
      ensures Valid() && Packets() == old(Packets()) && lost == old(lost) + [l]
    {
      lost := lost + [l];
    }

    /** enque(p): stamps the deadline, makes room if the queue is full, and links `p` at the tail. */
    method Enque(p: Packet, now: real)
      requires Valid() && p !in repr
      modifies this, repr, p
      ensures Valid() && repr <= old(repr) + {p}
      ensures Contents() == Buffers.Enque(old(Contents()), old(p.body), now)
    {
      Purge(now);
      Stamp(p, now);
      Insert(p, now);
    }

    /** A packet that is not in the queue gets its deadline. */
    method Stamp(p: Packet, now: real)
      requires Valid() && p !in repr
      modifies p
      ensures Valid() && Contents() == old(Contents())
      ensures p.next == null && p.body == old(p.body).(deadline := now + RTQ_TIMEOUT)
    {
      p.next := null;
      p.body := p.body.(deadline := now + RTQ_TIMEOUT);
      Untouched();
    }

    method Insert(p: Packet, now: real)
      requires Valid() && p !in repr && p.next == null
      modifies this, repr
      ensures Valid() && repr <= old(repr) + {p}
      ensures Contents() == Push(old(Contents()), p.body, now)
    {
      if len == RTQ_MAX_LEN {
        Evict(now);
      }
      Link(p);
    }

    /** The oldest packet makes room. */
    method Evict(now: real)
      requires Valid() && spine != []
      modifies this
      ensures Valid() && repr <= old(repr) && Packets() == old(Packets())[1..]
      ensures var oldest := old(Packets())[0];
        lost == old(lost) + [Loss(oldest, if oldest.deadline > now then QueueFull else QueueTimeout)]
    {
      var p0 := RemoveHead();
      Record(Loss(p0.body, if p0.body.deadline > now then QueueFull else QueueTimeout));
    }

    /** Links `p` at the tail. */
    method Link(p: Packet)
      requires Valid() && p !in repr && p.next == null
      modifies this, tail
      ensures Valid() && repr == old(repr) + {p} && lost == old(lost)
      ensures Packets() == old(Packets()) + [p.body] && p.body == old(p.body)
    {
      if head == null {
        head, tail := p, p;
      } else {
        tail.next := p;
        tail := p;
      }
      len := len + 1;
      spine := spine + [p];
      repr := repr + {p};
    }

    /** deque(dst): the oldest live packet for `d`, or null. */
    method Deque(d: Addr, now: real) returns (p: Packet?)
      requires Valid()
      modifies this, repr
      ensures Valid() && repr <= old(repr) && (p != null ==> p in old(repr) - repr)
      ensures ((if p == null then None else Some(p.body)), Contents()) == Buffers.Deque(old(Contents()), d, now)
    {
      Purge(now);
      ghost var was := Contents();
      assert was == Buffers.Purge(old(Contents()), now);
      p := TakeFirst(d);
      assert ((if p == null then None else Some(p.body)), Contents()) == Take(was, d);
    }

    /** Unlinks the first packet for `d`. */
    method TakeFirst(d: Addr) returns (p: Packet?)
      requires Valid()
      modifies this, repr
      ensures Valid() && repr <= old(repr) && (p != null ==> p in old(repr) - repr)
      ensures ((if p == null then None else Some(p.body)), Contents()) == Take(old(Contents()), d)
    {
      var prev;
      ghost var k;
      p, prev, k := FindPacketWithDst(d);
      if p != null {
        Unlink(p, prev, k);
      }
    }

    /** deque(): the oldest live packet, or null. */
    method DequeAny(now: real) returns (p: Packet?)
      requires Valid()
      modifies this, repr
      ensures Valid() && repr <= old(repr)
      ensures ((if p == null then None else Some(p.body)), Contents()) == Buffers.DequeAny(old(Contents()), now)
    {
      Purge(now);
      ghost var was := Contents();
      assert was == Buffers.Purge(old(Contents()), now);
      p := RemoveHead();
      if p != null { assert Packets() == was.q[1..] && p.body == was.q[0]; }
      assert Contents() == if was.q == [] then was else was.(q := was.q[1..]);
    }

    /** find(dst): without purging. */
    method Find(d: Addr) returns (found: bool)
      requires Valid()
      ensures found == FindDst(Packets(), d).Some?
    {
      var p, prev, k := FindPacketWithDst(d);
      found := p != null;
    }

    /** verifyQueue(): what its two asserts compare is always equal. */
    method VerifyQueue() returns (cnt: int, prev: Packet?)
      requires Valid()
      ensures cnt == len && prev == tail
    {
      var p := head;
      cnt, prev := 0, null;
      while p != null
        invariant Cursor(p, prev, cnt)
        decreases |spine| - cnt
      {
        cnt := cnt + 1;
        prev := p;
        p := p.next;
      }
    }
  }
}
