/** What forward() makes of data packets, and what the loops over the packet buffer hand out: which packets, in which
    order, and where they go. */
module Forwarding {
  import opened Basics
  import opened Routes
  import opened Buffers
  import opened Nodes
  import opened BufferLaws

  // ---- Data packets handed out ----

  /** What has been done with data packets, in order. */
  function DataOuts(outs: seq<Out>): seq<Out> {
    if outs == [] then []
    else
      var last := |outs| - 1;
      DataOuts(outs[..last]) + if outs[last].Send? then [] else [outs[last]]
  }

  lemma {:induction false} DataOutsAppend(outs: seq<Out>, done: seq<Out>)
    requires forall o | o in done :: !o.Send?
    ensures DataOuts(outs + done) == DataOuts(outs) + done
    decreases |done|
  {
    if done == [] {
      assert outs + done == outs;
    } else {
      var last := |done| - 1;
      DataOutsAppend(outs, done[..last]);
      assert (outs + done)[..|outs| + last] == outs + done[..last];
    }
  }

  lemma DataOutsSend(outs: seq<Out>, m: Msg)
    ensures DataOuts(outs + [Send(m)]) == DataOuts(outs)
  {
    assert (outs + [Send(m)])[..|outs|] == outs;
  }

  lemma {:induction false} DataOutsMember(outs: seq<Out>, o: Out)
    ensures o in DataOuts(outs) <==> o in outs && !o.Send?
  {
    if outs != [] {
      var last := |outs| - 1;
      DataOutsMember(outs[..last], o);
      assert outs == outs[..last] + [outs[last]];
    }
  }

  /** What becomes of packet `p` at node `me` when the preferred path leads through `hop`. */
  function Onward(me: Addr, hop: Addr, p: Pkt): Out {
    if p.ttl == 0 then Dropped(p)
    else if p.dst == me then Deliver(p)
    else Transmit(p.(nexthop := hop))
  }

  function OnwardAll(me: Addr, hop: Addr, ps: seq<Pkt>): (r: seq<Out>)
    ensures |r| == |ps| && forall k | 0 <= k < |ps| :: r[k] == Onward(me, hop, ps[k])
  {
    if ps == [] then [] else [Onward(me, hop, ps[0])] + OnwardAll(me, hop, ps[1..])
  }

  function DropAll(ps: seq<Pkt>): (r: seq<Out>)
    ensures |r| == |ps| && forall k | 0 <= k < |ps| :: r[k] == Dropped(ps[k])
  {
    if ps == [] then [] else [Dropped(ps[0])] + DropAll(ps[1..])
  }

  lemma OnwardOuts(me: Addr, hop: Addr, ps: seq<Pkt>)
    ensures DataOuts(OnwardAll(me, hop, ps)) == OnwardAll(me, hop, ps)
  {
    var outs := OnwardAll(me, hop, ps);
    DataOutsAppend([], outs);
    assert [] + outs == outs;
  }

  lemma OnwardFirst(me: Addr, hop: Addr, p: Pkt, rest: seq<Pkt>, outs: seq<Out>)
    ensures (outs + OnwardAll(me, hop, [p])) + OnwardAll(me, hop, rest) == outs + OnwardAll(me, hop, [p] + rest)
  {
    assert ([p] + rest)[1..] == rest;
    assert OnwardAll(me, hop, [p]) == [Onward(me, hop, p)];
  }

  lemma DropFirst(p: Pkt, rest: seq<Pkt>, outs: seq<Out>)
    ensures (outs + [Dropped(p)]) + DropAll(rest) == outs + DropAll([p] + rest)
  {
    assert ([p] + rest)[1..] == rest;
  }

  // ---- Packets that wait for a route ----

  /** The packets for `d` that have not aged, oldest first. */
  function WaitingFor(q: seq<Pkt>, d: Addr, now: real): (r: seq<Pkt>)
    ensures forall p :: p in r <==> p in q && p.dst == d && now <= p.deadline
  {
    if q == [] then []
    else if q[0].dst == d && now <= q[0].deadline then [q[0]] + WaitingFor(q[1..], d, now)
    else WaitingFor(q[1..], d, now)
  }

  /** The other packets that have not aged. */
  function StayingFor(q: seq<Pkt>, d: Addr, now: real): (r: seq<Pkt>)
    ensures forall p :: p in r <==> p in q && p.dst != d && now <= p.deadline
  {
    if q == [] then []
    else if q[0].dst != d && now <= q[0].deadline then [q[0]] + StayingFor(q[1..], d, now)
    else StayingFor(q[1..], d, now)
  }

  lemma {:induction false} SplitLive(q: seq<Pkt>, d: Addr, now: real)
    ensures WaitingFor(q, d, now) == For(Live(q, now), d) && StayingFor(q, d, now) == NotFor(Live(q, now), d)
  {
    if q != [] {
      SplitLive(q[1..], d, now);
      if now <= q[0].deadline { assert Live(q, now)[1..] == Live(q[1..], now); }
    }
  }

  lemma {:induction false} LiveIsLive(q: seq<Pkt>, now: real)
    ensures forall k | 0 <= k < |Live(q, now)| :: now <= Live(q, now)[k].deadline
  {
    if q != [] { LiveIsLive(q[1..], now); }
  }

  lemma {:induction false} NoneFor(q: seq<Pkt>, d: Addr)
    requires For(q, d) == []
    ensures NotFor(q, d) == q
  {
    if q != [] { NoneFor(q[1..], d); }
  }

  /** What deque(d) leaves has not aged. */
  lemma DequeLive(b: Buffer, d: Addr, now: real)
    ensures var b' := Deque(b, d, now).1; Live(b'.q, now) == b'.q
  {
    LiveIsLive(b.q, now);
    LiveAll(Deque(b, d, now).1.q, now);
  }

  /** deque(d) takes the first waiting packet for `d`, until none is left but the others. */
  lemma DequeWaiting(b: Buffer, d: Addr, now: real)
    ensures var (p, b') := Deque(b, d, now);
      && StayingFor(b'.q, d, now) == StayingFor(b.q, d, now)
      && match p
         case None => WaitingFor(b.q, d, now) == [] && b'.q == StayingFor(b.q, d, now)
         case Some(x) => WaitingFor(b.q, d, now) == [x] + WaitingFor(b'.q, d, now)
  {
    var b' := Deque(b, d, now).1;
    DequeOldest(b, d, now);
    DequeLive(b, d, now);
    SplitLive(b.q, d, now);
    SplitLive(b'.q, d, now);
    if Deque(b, d, now).0.None? { NoneFor(b'.q, d); }
  }

  lemma {:induction false} WaitingOthers(q: seq<Pkt>, d: Addr, k: Addr, now: real)
    requires k != d
    ensures WaitingFor(StayingFor(q, d, now), k, now) == WaitingFor(q, k, now)
  {
    if q != [] {
      WaitingOthers(q[1..], d, k, now);
      if q[0].dst != d && now <= q[0].deadline { assert StayingFor(q, d, now)[1..] == StayingFor(q[1..], d, now); }
    }
  }

  // ---- Routes in use ----

  /** The order of the table once it has an entry for `d`. */
  function OrderWith(n: Node, d: Addr): seq<Addr> {
    if d in n.table then n.order else [d] + n.order
  }

  /** The route to `d`, or a fresh one when the node has none. */
  function Known(n: Node, d: Addr): Entry {
    if d in n.table then n.table[d] else NewEntry(d)
  }

  predicate Leaves(me: Addr, p: Pkt) {
    p.ttl != 0 && p.dst != me
  }

  /** Packet `p`, on its way through node `me`, makes the node report errors of the route. */
  predicate Foreign(me: Addr, p: Pkt) {
    Leaves(me, p) && p.src != me && p.isData
  }

  /** Route `e` once node `me` has sent the packets `ps` along it: using it keeps the preferred path alive, and after a
      data packet from elsewhere its errors will be reported. */
  ghost predicate Used(e: Entry, e': Entry, me: Addr, ps: seq<Pkt>, now: real) {
    && e.paths != [] && e' == e.(paths := e'.paths, rtError := e'.rtError)
    && (e'.rtError <==> e.rtError || exists p :: p in ps && Foreign(me, p))
    && (if exists p :: p in ps && Leaves(me, p)
        then e'.paths == [e.paths[0].(expire := now + ACTIVE_ROUTE_TIMEOUT)] + e.paths[1..]
        else e'.paths == e.paths)
  }

  lemma UsedNot(e: Entry, me: Addr, now: real)
    requires e.paths != []
    ensures Used(e, e, me, [], now)
  {
  }

  lemma UsedMore(e: Entry, e1: Entry, e2: Entry, me: Addr, p: Pkt, rest: seq<Pkt>, now: real)
    requires Used(e, e1, me, [p], now) && Used(e1, e2, me, rest, now)
    ensures Used(e, e2, me, [p] + rest, now)
  {
    assert forall x :: x in [p] + rest <==> x == p || x in rest;
    assert p in [p];
    assert forall x | x in [p] :: x == p;
  }

  /** Node `r` is node `n` after forwarding the packets `ps` along the route to `d`. */
  ghost predicate Forwarded(n: Node, r: Node, d: Addr, ps: seq<Pkt>, now: real)
    requires d in n.table
  {
    && d in r.table && Used(n.table[d], r.table[d], n.id, ps, now)
    && r == n.(buffer := r.buffer, table := n.table[d := r.table[d]],
               out := n.out + OnwardAll(n.id, n.table[d].paths[0].nexthop, ps))
  }

  /** forward() hands out one packet, along the preferred path of the route. */
  lemma ForwardExact(n: Node, d: Addr, p: Pkt, now: real)
    requires d in n.table && n.table[d].paths != []
    ensures var r := Forward(n, d, p, now); Forwarded(n, r, d, [p], now) && r.buffer == n.buffer
  {
    var e, r := n.table[d], Forward(n, d, p, now);
    assert OnwardAll(n.id, e.paths[0].nexthop, [p]) == [Onward(n.id, e.paths[0].nexthop, p)];
    assert p in [p];
    assert forall x | x in [p] :: x == p;
    if !Leaves(n.id, p) { assert n.table[d := e] == n.table; }
  }

  lemma ForwardedMore(n: Node, n1: Node, r: Node, d: Addr, p: Pkt, rest: seq<Pkt>, now: real)
    requires d in n.table && Forwarded(n, n1, d, [p], now) && Forwarded(n1, r, d, rest, now)
    ensures Forwarded(n, r, d, [p] + rest, now)
  {
    UsedMore(n.table[d], n1.table[d], r.table[d], n.id, p, rest, now);
    var hop := n.table[d].paths[0].nexthop;
    assert n1.table[d].paths[0].nexthop == hop;
    OnwardFirst(n.id, hop, p, rest, n.out);
    assert n.table[d := n1.table[d]][d := r.table[d]] == n.table[d := r.table[d]];
  }

  /** The loop that empties the buffer for `d` forwards every waiting packet for `d`, oldest first, along the preferred
      path; the other packets that have not aged stay. */
  lemma {:induction false} FlushExact(n: Node, d: Addr, now: real)
    requires d in n.table && n.table[d].paths != []
    ensures var r := Flush(n, d, now);
      && Forwarded(n, r, d, WaitingFor(n.buffer.q, d, now), now)
      && r.buffer.q == StayingFor(n.buffer.q, d, now)
    decreases |n.buffer.q|
  {
    var (p, b) := Deque(n.buffer, d, now);
    DequeWaiting(n.buffer, d, now);
    if p.None? {
      UsedNot(n.table[d], n.id, now);
      assert n.table[d := n.table[d]] == n.table;
      assert Flush(n, d, now) == n.(buffer := b);
    } else {
      var n1 := Forward(n.(buffer := b), d, p.value, now);
      ForwardExact(n.(buffer := b), d, p.value, now);
      FlushExact(n1, d, now);
      assert Flush(n, d, now) == Flush(n1, d, now);
      ForwardedMore(n.(buffer := b), n1, Flush(n1, d, now), d, p.value, WaitingFor(b.q, d, now), now);
    }
  }

  /** The loop that gives packets up drops every waiting packet for `d`, oldest first. */
  lemma {:induction false} DrainExact(n: Node, d: Addr, now: real)
    ensures var r := Drain(n, d, now);
      && r == n.(buffer := r.buffer, out := n.out + DropAll(WaitingFor(n.buffer.q, d, now)))
      && r.buffer.q == StayingFor(n.buffer.q, d, now)
    decreases |n.buffer.q|
  {
    var (p, b) := Deque(n.buffer, d, now);
    DequeWaiting(n.buffer, d, now);
    if p.Some? {
      var n1 := n.(buffer := b, out := n.out + [Dropped(p.value)]);
      DrainExact(n1, d, now);
      DropFirst(p.value, WaitingFor(b.q, d, now), n.out);
    }
  }

  /** Node `r` is node `n` after every packet that waited for `d` has been forwarded, oldest first, along the preferred
      path; the other packets that have not aged stay. */
  ghost predicate Released(n: Node, r: Node, d: Addr, now: real) {
    && d in n.table && Forwarded(n, r, d, WaitingFor(n.buffer.q, d, now), now)
    && r.buffer.q == StayingFor(n.buffer.q, d, now)
  }

  /** The route with its request state reset. */
  function Reset(e: Entry): Entry {
    e.(reqTimeout := 0.0, reqTtl := 0, reqCnt := 0)
  }

  /** A route that has come up: its request state is reset, and every packet that waited for it goes out. */
  lemma SettleExact(n: Node, d: Addr, now: real)
    requires IsUp(n, d) && n.table[d].paths != []
    ensures Released(Put(n, d, Reset(n.table[d])), Settle(n, d, now), d, now)
  {
    FlushExact(Put(n, d, Reset(n.table[d])), d, now);
  }
}
