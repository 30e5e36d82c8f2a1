/** The packet buffer of eamrp_rqueue.cc as a value, and data packets. The linked list that
    implements it is in PacketBuffer.dfy. */
module Buffers {
  import opened Basics

  /** A data packet; `isData` is the DATA_PACKET test on its type. */
  datatype Pkt = Pkt(
    uid: nat, src: Addr, dst: Addr, ttl: int, isData: bool, nexthop: Addr, deadline: real, salvage: nat)

  /** QueueFull and QueueTimeout are the reasons given to drop() when the oldest packet makes room for a new
      one. AgedOut is a packet that purge unlinks; it is handed to nobody. */
  datatype Reason = QueueFull | QueueTimeout | AgedOut

  datatype Loss = Loss(p: Pkt, why: Reason)

  /** The queue, oldest first, and, as a history, the packets that left it without being returned. */
  datatype Buffer = Buffer(q: seq<Pkt>, lost: seq<Loss>)

  function Live(q: seq<Pkt>, now: real): (r: seq<Pkt>)
    ensures |r| <= |q|
    ensures forall p | p in r :: p in q
  {
    if q == [] then []
    else if q[0].deadline < now then Live(q[1..], now)
    else [q[0]] + Live(q[1..], now)
  }

  function AgedLosses(q: seq<Pkt>, now: real): seq<Loss> {
    if q == [] then []
    else if q[0].deadline < now then [Loss(q[0], AgedOut)] + AgedLosses(q[1..], now)
    else AgedLosses(q[1..], now)
  }

  function Purge(b: Buffer, now: real): Buffer {
    Buffer(Live(b.q, now), b.lost + AgedLosses(b.q, now))
  }

  /** enque(): the oldest packet makes room when the queue is full. */
  function Enque(b: Buffer, p: Pkt, now: real): Buffer {
    Push(Purge(b, now), p.(deadline := now + RTQ_TIMEOUT), now)
  }

  function Push(b: Buffer, p: Pkt, now: real): Buffer {
    if |b.q| == RTQ_MAX_LEN then
      Buffer(b.q[1..] + [p], b.lost + [Loss(b.q[0], if b.q[0].deadline > now then QueueFull else QueueTimeout)])
    else Buffer(b.q + [p], b.lost)
  }

  /** Position of the oldest packet for `d`. */
  function FindDst(q: seq<Pkt>, d: Addr): (r: Option<nat>)
    ensures r.Some? ==> r.value < |q| && q[r.value].dst == d
    ensures r.Some? ==> forall k | 0 <= k < r.value :: q[k].dst != d
    ensures r.None? ==> forall k | 0 <= k < |q| :: q[k].dst != d
  {
    if q == [] then None
    else if q[0].dst == d then Some(0)
    else match FindDst(q[1..], d) case None => None case Some(k) => Some(k + 1)
  }

  function RemoveAt(q: seq<Pkt>, k: nat): (r: seq<Pkt>)
    requires k < |q|
    ensures |r| == |q| - 1
  {
    q[..k] + q[k + 1..]
  }

  /** deque(dst): the oldest live packet for `d`, if any. */
  function Deque(b: Buffer, d: Addr, now: real): (r: (Option<Pkt>, Buffer))
    ensures |r.1.q| <= |b.q|
    ensures r.0.Some? ==> |r.1.q| < |b.q|
  {
    Take(Purge(b, now), d)
  }

  function Take(b: Buffer, d: Addr): (Option<Pkt>, Buffer) {
    match FindDst(b.q, d)
    case None => (None, b)
    case Some(k) => (Some(b.q[k]), b.(q := RemoveAt(b.q, k)))
  }

  /** deque(): the oldest live packet. */
  function DequeAny(b: Buffer, now: real): (Option<Pkt>, Buffer) {
    var b1 := Purge(b, now);
    if b1.q == [] then (None, b1) else (Some(b1.q[0]), b1.(q := b1.q[1..]))
  }
}
