/** Laws of the packet buffer: which packet comes out, what becomes of every packet, and why scanning the
    whole list is the same as dropping the aged packets at its head. */
module BufferLaws {
  import opened Basics
  import opened Buffers

  // ---- Scanning and dropping the head ----

  /** The commented-out purge: hands packets at the head to drop() as timed out, while they are aged. */
  function HeadPurge(b: Buffer, now: real): Buffer
    decreases |b.q|
  {
    if b.q != [] && b.q[0].deadline < now
    then HeadPurge(Buffer(b.q[1..], b.lost + [Loss(b.q[0], QueueTimeout)]), now)
    else b
  }

  /** Ordered by deadline, and nothing is due later than a packet enqueued now would be. */
  ghost predicate Ordered(q: seq<Pkt>, now: real) {
    && (forall i, j | 0 <= i < j < |q| :: q[i].deadline <= q[j].deadline)
    && (forall i | 0 <= i < |q| :: q[i].deadline <= now + RTQ_TIMEOUT)
  }

  lemma {:induction false} LiveAll(q: seq<Pkt>, now: real)
    requires forall i | 0 <= i < |q| :: now <= q[i].deadline
    ensures Live(q, now) == q && AgedLosses(q, now) == []
  {
    if q != [] { LiveAll(q[1..], now); }
  }

  /** The same packets in the same order, as drop() would have been told of them. */
  function TimedOut(ls: seq<Loss>): seq<Loss> {
    if ls == [] then [] else [Loss(ls[0].p, QueueTimeout)] + TimedOut(ls[1..])
  }

  lemma {:induction false} TimedOutAt(ls: seq<Loss>, k: nat)
    requires k < |ls|
    ensures |TimedOut(ls)| == |ls| && TimedOut(ls)[k] == Loss(ls[k].p, QueueTimeout)
  {
    if |ls| > 1 { TimedOutAt(ls[1..], if k > 0 then k - 1 else 0); }
  }

  /** The two purges leave the same queue and lose the same packets in the same order; they differ only in that the
      scan hands its packets to nobody. */
  ghost predicate PurgesAgree(b: Buffer, now: real) {
    && Purge(b, now) == Buffer(Live(b.q, now), b.lost + AgedLosses(b.q, now))
    && (forall k | 0 <= k < |AgedLosses(b.q, now)| :: AgedLosses(b.q, now)[k].why == AgedOut)
    && HeadPurge(b, now) == Buffer(Live(b.q, now), b.lost + TimedOut(AgedLosses(b.q, now)))
  }

  /** Every packet the scan takes out is recorded as handed to nobody. */
  lemma {:induction false} AgedReason(q: seq<Pkt>, now: real)
    ensures forall k | 0 <= k < |AgedLosses(q, now)| :: AgedLosses(q, now)[k].why == AgedOut
  {
    if q != [] { AgedReason(q[1..], now); }
  }

  /** On an ordered buffer the purge that rescans the list drops exactly the longest aged prefix. */
  lemma {:induction false} ScanIsHeadPurge(b: Buffer, now: real, t: real)
    requires Ordered(b.q, t)
    ensures PurgesAgree(b, now)
    decreases |b.q|
  {
    AgedReason(b.q, now);
    if b.q == [] {
    } else if b.q[0].deadline < now {
      var one := [Loss(b.q[0], QueueTimeout)];
      ScanIsHeadPurge(Buffer(b.q[1..], b.lost + one), now, t);
      AgedFirst(b.q, now);
      AppendTwice(b.lost, one, TimedOut(AgedLosses(b.q[1..], now)));
    } else {
      LiveAll(b.q, now);
    }
  }

  lemma AgedFirst(q: seq<Pkt>, now: real)
    requires q != [] && q[0].deadline < now
    ensures TimedOut(AgedLosses(q, now)) == [Loss(q[0], QueueTimeout)] + TimedOut(AgedLosses(q[1..], now))
  {
    assert AgedLosses(q, now)[1..] == AgedLosses(q[1..], now);
  }

  lemma AppendTwice(a: seq<Loss>, b: seq<Loss>, c: seq<Loss>)
    ensures a + (b + c) == (a + b) + c
  {
  }

  // ---- The buffer stays ordered ----

  lemma {:induction false} LiveOrdered(q: seq<Pkt>, now: real, t: real)
    requires Ordered(q, t)
    ensures Ordered(Live(q, now), t)
  {
    if q != [] {
      LiveOrdered(q[1..], now, t);
      if now <= q[0].deadline { LiveAll(q, now); }
    }
  }

  lemma EnqueOrdered(b: Buffer, p: Pkt, t: real, now: real)
    requires Ordered(b.q, t) && t <= now
    ensures Ordered(Enque(b, p, now).q, now)
  {
    LiveOrdered(b.q, now, t);
  }

  lemma DequeOrdered(b: Buffer, d: Addr, t: real, now: real)
    requires Ordered(b.q, t) && t <= now
    ensures Ordered(Deque(b, d, now).1.q, now)
  {
    LiveOrdered(b.q, now, t);
  }

  // ---- Which packet comes out ----

  /** The packets for `d`, in order. */
  function For(q: seq<Pkt>, d: Addr): seq<Pkt> {
    if q == [] then []
    else if q[0].dst == d then [q[0]] + For(q[1..], d)
    else For(q[1..], d)
  }

  function NotFor(q: seq<Pkt>, d: Addr): seq<Pkt> {
    if q == [] then []
    else if q[0].dst == d then NotFor(q[1..], d)
    else [q[0]] + NotFor(q[1..], d)
  }

  lemma {:induction false} TakeFirst(q: seq<Pkt>, d: Addr)
    ensures match FindDst(q, d)
      case None => For(q, d) == []
      case Some(k) => For(q, d) == [q[k]] + For(RemoveAt(q, k), d) && NotFor(RemoveAt(q, k), d) == NotFor(q, d)
  {
    if q != [] {
      var f := FindDst(q, d);
      if q[0].dst == d {
        assert RemoveAt(q, 0) == q[1..];
      } else {
        TakeFirst(q[1..], d);
        if f.Some? {
          var r := RemoveAt(q, f.value);
          assert r[1..] == RemoveAt(q[1..], f.value - 1) && r[0] == q[0];
        }
      }
    }
  }

  /** deque(dst) returns the oldest live packet for `d`, if there is one; the other packets for `d` and the
      packets for everybody else keep their order. */
  lemma DequeOldest(b: Buffer, d: Addr, now: real)
    ensures var (p, b') := Deque(b, d, now);
      && NotFor(b'.q, d) == NotFor(Live(b.q, now), d)
      && match p
         case None => For(Live(b.q, now), d) == [] && b'.q == Live(b.q, now)
         case Some(x) => For(Live(b.q, now), d) == [x] + For(b'.q, d)
  {
    TakeFirst(Live(b.q, now), d);
  }

  // ---- Conservation ----

  /** A packet without the deadline the queue stamps on it. */
  function Body(p: Pkt): Pkt {
    p.(deadline := 0.0)
  }

  function Bodies(q: seq<Pkt>): multiset<Pkt> {
    if q == [] then multiset{} else multiset{Body(q[0])} + Bodies(q[1..])
  }

  function LostBodies(ls: seq<Loss>): multiset<Pkt> {
    if ls == [] then multiset{} else multiset{Body(ls[0].p)} + LostBodies(ls[1..])
  }

  /** Everything the buffer is accountable for. */
  function Accounted(b: Buffer): multiset<Pkt> {
    Bodies(b.q) + LostBodies(b.lost)
  }

  lemma {:induction false} BodiesConcat(a: seq<Pkt>, b: seq<Pkt>)
    ensures Bodies(a + b) == Bodies(a) + Bodies(b)
  {
    if a == [] {
      assert a + b == b;
    } else {
      assert (a + b)[1..] == a[1..] + b;
      BodiesConcat(a[1..], b);
    }
  }

  lemma {:induction false} LostConcat(a: seq<Loss>, b: seq<Loss>)
    ensures LostBodies(a + b) == LostBodies(a) + LostBodies(b)
  {
    if a == [] {
      assert a + b == b;
    } else {
      assert (a + b)[1..] == a[1..] + b;
      LostConcat(a[1..], b);
    }
  }

  lemma {:induction false} PurgeSplits(q: seq<Pkt>, now: real)
    ensures Bodies(q) == Bodies(Live(q, now)) + LostBodies(AgedLosses(q, now))
  {
    if q != [] {
      PurgeSplits(q[1..], now);
      if q[0].deadline < now {
        assert AgedLosses(q, now)[1..] == AgedLosses(q[1..], now);
      } else {
        assert Live(q, now)[1..] == Live(q[1..], now);
      }
    }
  }

  lemma PurgeConserves(b: Buffer, now: real)
    ensures Accounted(Purge(b, now)) == Accounted(b)
  {
    PurgeSplits(b.q, now);
    LostConcat(b.lost, AgedLosses(b.q, now));
  }

  lemma PushConserves(b: Buffer, p: Pkt, now: real)
    ensures Accounted(Push(b, p, now)) == Accounted(b) + multiset{Body(p)}
  {
    BodiesConcat(b.q, [p]);
    if |b.q| == RTQ_MAX_LEN {
      BodiesConcat(b.q[1..], [p]);
      LostConcat(b.lost, [Push(b, p, now).lost[|b.lost|]]);
    }
  }

  lemma EnqueConserves(b: Buffer, p: Pkt, now: real)
    ensures Accounted(Enque(b, p, now)) == Accounted(b) + multiset{Body(p)}
  {
    PurgeConserves(b, now);
    PushConserves(Purge(b, now), p.(deadline := now + RTQ_TIMEOUT), now);
  }

  lemma RemoveConserves(q: seq<Pkt>, k: nat)
    requires k < |q|
    ensures Bodies(q) == Bodies(RemoveAt(q, k)) + multiset{Body(q[k])}
  {
    var before, one, after := q[..k], [q[k]], q[k + 1..];
    assert q == before + (one + after);
    BodiesConcat(before, one + after);
    BodiesConcat(one, after);
    BodiesConcat(before, after);
    assert Bodies(one) == multiset{Body(q[k])};
  }

  /** The packet, if there is one. */
  function Returned(p: Option<Pkt>): multiset<Pkt> {
    if p.Some? then multiset{Body(p.value)} else multiset{}
  }

  lemma DequeConserves(b: Buffer, d: Addr, now: real)
    ensures var (p, b') := Deque(b, d, now); Accounted(b) == Accounted(b') + Returned(p)
  {
    PurgeConserves(b, now);
    var b1 := Purge(b, now);
    var f := FindDst(b1.q, d);
    if f.Some? { RemoveConserves(b1.q, f.value); }
  }

  lemma DequeAnyConserves(b: Buffer, now: real)
    ensures var (p, b') := DequeAny(b, now); Accounted(b) == Accounted(b') + Returned(p)
  {
    PurgeConserves(b, now);
  }

  // ---- Whole runs ----

  datatype Op = EnqueOp(p: Pkt) | DequeOp(d: Addr) | DequeAnyOp

  /** The buffer after a series of calls at the given times, and the packets they returned. */
  function Replay(ops: seq<Op>, times: seq<real>): (Buffer, seq<Pkt>)
    requires |ops| == |times|
  {
    if ops == [] then (Buffer([], []), [])
    else
      var last := |ops| - 1;
      var (b, out) := Replay(ops[..last], times[..last]);
      var (p, b') := Apply(b, ops[last], times[last]);
      (b', if p.Some? then out + [p.value] else out)
  }

  /** One call: the packet it returns, and the buffer after it. */
  function Apply(b: Buffer, op: Op, now: real): (Option<Pkt>, Buffer) {
    match op
    case EnqueOp(p) => (None, Enque(b, p, now))
    case DequeOp(d) => Deque(b, d, now)
    case DequeAnyOp => DequeAny(b, now)
  }

  function Given(op: Op): multiset<Pkt> {
    if op.EnqueOp? then multiset{Body(op.p)} else multiset{}
  }

  lemma ApplyConserves(b: Buffer, op: Op, now: real)
    ensures var (p, b') := Apply(b, op, now); Accounted(b) + Given(op) == Accounted(b') + Returned(p)
  {
    match op
    case EnqueOp(p) => EnqueConserves(b, p, now);
    case DequeOp(d) => DequeConserves(b, d, now);
    case DequeAnyOp => DequeAnyConserves(b, now);
  }

  function Offered(ops: seq<Op>): multiset<Pkt> {
    if ops == [] then multiset{}
    else
      var last := |ops| - 1;
      Offered(ops[..last]) + Given(ops[last])
  }

  ghost predicate NonDecreasing(times: seq<real>) {
    forall i, j | 0 <= i < j < |times| :: times[i] <= times[j]
  }

  lemma ReturnedAppend(out: seq<Pkt>, p: Option<Pkt>)
    ensures Bodies(if p.Some? then out + [p.value] else out) == Bodies(out) + Returned(p)
  {
    if p.Some? { BodiesConcat(out, [p.value]); }
  }

  /** Over any series of calls, each packet offered is in exactly one of: still buffered, returned,
      dropped because the queue was full, aged out. */
  lemma {:induction false} EveryPacketAccounted(ops: seq<Op>, times: seq<real>)
    requires |ops| == |times|
    ensures var (b, out) := Replay(ops, times); Offered(ops) == Accounted(b) + Bodies(out)
    decreases |ops|
  {
    if ops != [] {
      var last := |ops| - 1;
      EveryPacketAccounted(ops[..last], times[..last]);
      var (b, out) := Replay(ops[..last], times[..last]);
      var (p, b') := Apply(b, ops[last], times[last]);
      ApplyConserves(b, ops[last], times[last]);
      ReturnedAppend(out, p);
      Rebalance(Accounted(b), Bodies(out), Given(ops[last]), Accounted(b'), Returned(p));
    }
  }

  lemma Rebalance(held: multiset<Pkt>, out: multiset<Pkt>, given: multiset<Pkt>, held': multiset<Pkt>, p: multiset<Pkt>)
    requires held + given == held' + p
    ensures (held + out) + given == held' + (out + p)
  {
    assert (held + out) + given == (held + given) + out;
    assert (held' + p) + out == held' + (out + p);
  }

  /** Over any series of calls with a clock that never goes back, the buffer stays ordered and bounded. */
  lemma {:induction false} AlwaysOrdered(ops: seq<Op>, times: seq<real>)
    requires |ops| == |times| && NonDecreasing(times)
    ensures var b := Replay(ops, times).0;
      |b.q| <= RTQ_MAX_LEN && Ordered(b.q, if times == [] then 0.0 else times[|times| - 1])
    decreases |ops|
  {
    if ops != [] {
      var last := |ops| - 1;
      AlwaysOrdered(ops[..last], times[..last]);
      var b := Replay(ops[..last], times[..last]).0;
      var t := if last == 0 then times[last] else times[last - 1];
      assert Ordered(b.q, t);
      match ops[last]
      case EnqueOp(p) => EnqueOrdered(b, p, t, times[last]);
      case DequeOp(d) => DequeOrdered(b, d, t, times[last]);
      case DequeAnyOp => LiveOrdered(b.q, times[last], t);
    }
  }

  /** So in every such run, at any later time, scanning and dropping the head agree. */
  lemma ScanRefinesHead(ops: seq<Op>, times: seq<real>, now: real)
    requires |ops| == |times| && NonDecreasing(times)
    ensures PurgesAgree(Replay(ops, times).0, now)
  {
    AlwaysOrdered(ops, times);
    ScanIsHeadPurge(Replay(ops, times).0, now, if times == [] then 0.0 else times[|times| - 1]);
  }
}
