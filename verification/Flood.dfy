/** A route discovery ends: with nothing newly originated, every reception of an RREQ or RREP
    strictly decreases a weight of the messages in the air, whatever the caches forget meanwhile. */
module Flood {
  import opened Basics
  import opened Routes
  import opened Nodes
  import opened NodeInvariant
  import opened Outbox
  import opened Network

  // ---- Weights ----

  function Pow(b: nat, k: nat): nat {
    if k == 0 then 1 else b * Pow(b, k - 1)
  }

  lemma {:induction false} PowPositive(b: nat, k: nat)
    requires b > 0
    ensures Pow(b, k) > 0
  {
    if k > 0 { PowPositive(b, k - 1); }
  }

  const REPLY_CEILING: nat := NETWORK_DIAMETER + 2

  /** One copy of a message in a network of `size` nodes. A request copy outweighs all the copies
      it can become, and any reply it can cause. */
  function WeightOf(m: Msg, size: nat): nat {
    match m
    case Rreq(rq) => if rq.ttl <= 0 then 0 else REPLY_CEILING * Pow(size + 1, rq.ttl)
    case Rrep(rp) => if rp.ttl <= 0 then 0 else rp.ttl + 1
    case Hello(_) => 0
    case Rerr(_) => 0
  }

  function Weigh(size: nat): Msg -> nat {
    m => WeightOf(m, size)
  }

  /** The weight of everything in the air. */
  ghost function Weight(air: multiset<Flight>, w: Msg -> nat): nat {
    if air == multiset{} then 0
    else
      var f :| f in air;
      w(f.m) + Weight(air - multiset{f}, w)
  }

  lemma {:induction false} WeightAdd(air: multiset<Flight>, f: Flight, w: Msg -> nat)
    ensures Weight(air + multiset{f}, w) == Weight(air, w) + w(f.m)
    decreases |air|
  {
    var all := air + multiset{f};
    var g :| g in all && Weight(all, w) == w(g.m) + Weight(all - multiset{g}, w);
    if g == f {
      assert all - multiset{g} == air;
    } else {
      assert all - multiset{g} == (air - multiset{g}) + multiset{f};
      WeightAdd(air - multiset{g}, f, w);
      WeightAdd(air - multiset{g}, g, w);
      assert (air - multiset{g}) + multiset{g} == air;
    }
  }

  // ---- Copies of what a handler sends ----

  /** One copy of `m` to each receiver. */
  ghost function CopiesTo(m: Msg, receivers: seq<Addr>): multiset<Flight> {
    if receivers == [] then multiset{}
    else
      var last := |receivers| - 1;
      CopiesTo(m, receivers[..last]) + multiset{Flight(m, receivers[last])}
  }

  /** A broadcast reaches at most every node once, a unicast message at most its next hop. */
  ghost predicate MayReach(m: Msg, receivers: seq<Addr>, size: nat) {
    |receivers| <= (if m.Rrep? then 1 else size)
  }

  ghost function Spread(msgs: seq<Msg>, receivers: seq<seq<Addr>>): multiset<Flight>
    requires |msgs| == |receivers|
  {
    if msgs == [] then multiset{}
    else
      var last := |msgs| - 1;
      Spread(msgs[..last], receivers[..last]) + CopiesTo(msgs[last], receivers[last])
  }

  /** The most that the copies of one message can weigh. */
  function CopiesWeigh(m: Msg, size: nat, w: Msg -> nat): nat {
    (if m.Rrep? then 1 else size) * w(m)
  }

  lemma {:induction false} CopiesWeight(air: multiset<Flight>, m: Msg, receivers: seq<Addr>, w: Msg -> nat)
    ensures Weight(air + CopiesTo(m, receivers), w) == Weight(air, w) + |receivers| * w(m)
    decreases |receivers|
  {
    if receivers == [] {
      assert air + CopiesTo(m, receivers) == air;
    } else {
      var last := |receivers| - 1;
      CopiesWeight(air, m, receivers[..last], w);
      var before := air + CopiesTo(m, receivers[..last]);
      assert air + CopiesTo(m, receivers) == before + multiset{Flight(m, receivers[last])};
      WeightAdd(before, Flight(m, receivers[last]), w);
      OneMore(last, w(m));
    }
  }

  lemma OneMore(a: nat, c: nat)
    ensures (a + 1) * c == a * c + c
  {
  }

  lemma TimesMonotone(a: nat, b: nat, c: nat)
    requires a <= b
    ensures a * c <= b * c
  {
  }

  /** A handler sends at most one control message when it receives one. */
  lemma SpreadWeight(air: multiset<Flight>, msgs: seq<Msg>, receivers: seq<seq<Addr>>, size: nat, w: Msg -> nat)
    requires |msgs| == |receivers| <= 1
    requires forall k | 0 <= k < |msgs| :: MayReach(msgs[k], receivers[k], size)
    ensures Weight(air + Spread(msgs, receivers), w) <=
            Weight(air, w) + if msgs == [] then 0 else CopiesWeigh(msgs[0], size, w)
  {
    if msgs == [] {
      assert air + Spread(msgs, receivers) == air;
    } else {
      assert msgs[..0] == [] && receivers[..0] == [];
      assert Spread(msgs, receivers) == CopiesTo(msgs[0], receivers[0]);
      CopiesWeight(air, msgs[0], receivers[0], w);
      TimesMonotone(|receivers[0]|, if msgs[0].Rrep? then 1 else size, w(msgs[0]));
    }
  }

  // ---- What handlers send ----

  /** The copies of a rebroadcast weigh less than the copy that caused it. */
  lemma RebroadcastWeight(ttl: nat, size: nat)
    requires ttl >= 1
    ensures size * (REPLY_CEILING * Pow(size + 1, ttl - 1)) < REPLY_CEILING * Pow(size + 1, ttl)
  {
    var p := Pow(size + 1, ttl - 1);
    PowPositive(size + 1, ttl - 1);
    assert Pow(size + 1, ttl) == (size + 1) * p == size * p + p;
    assert size * (REPLY_CEILING * p) == REPLY_CEILING * (size * p);
  }

  lemma AnswerWeight(n: Node, m: Request, msgs: seq<Msg>, size: nat)
    requires Answers(n, m.(ttl := m.ttl - 1), msgs) && m.ttl >= 1 && msgs != []
    ensures CopiesWeigh(msgs[0], size, Weigh(size)) < WeightOf(Rreq(m), size)
  {
    PowPositive(size + 1, m.ttl);
    if msgs[0].Rreq? { RebroadcastWeight(m.ttl, size); }
  }

  /** What a message causes weighs less than the message; HELLOs and errors cause no RREQ or RREP. */
  lemma CausedWeight(n: Node, m: Msg, msgs: seq<Msg>, size: nat)
    requires LiveTtl(m) && Causes(n, AfterHop(m), msgs) && msgs != []
    ensures if Discovery(m) then CopiesWeigh(msgs[0], size, Weigh(size)) < WeightOf(m, size)
            else CopiesWeigh(msgs[0], size, Weigh(size)) == 0
  {
    match m
    case Rreq(rq) => AnswerWeight(n, rq, msgs, size);
    case Rrep(rp) =>
    case Hello(hi) =>
    case Rerr(re) =>
  }

  lemma DiscoveryWeighs(m: Msg, size: nat)
    requires LiveTtl(m) && Discovery(m)
    ensures WeightOf(m, size) > 0
  {
    if m.Rreq? { PowPositive(size + 1, m.rq.ttl); }
  }

  // ---- Steps ----

  predicate Discovery(m: Msg) {
    m.Rreq? || m.Rrep?
  }

  /** The copy that a reception uses up. */
  function Used(i: Addr, ev: Event): multiset<Flight> {
    if ev.Receive? then multiset{Flight(ev.m, i)} else multiset{}
  }

  /** The copies of what is sent join those in the air, less the one received; any copies may be lost. */
  ghost predicate Delivery(net: Net, net': Net, i: Addr, ev: Event, receivers: seq<seq<Addr>>)
    requires i in net.nodes
  {
    && Used(i, ev) <= net.air && net.nodes[i].out == []
    && var msgs := Sent(After(net, i, ev).out);
      && |receivers| == |msgs|
      && (forall k | 0 <= k < |msgs| :: MayReach(msgs[k], receivers[k], |net.nodes|))
      && net'.air <= net.air - Used(i, ev) + Spread(msgs, receivers)
  }

  lemma SentWeight(n: Node, m: Msg, msgs: seq<Msg>, rest: multiset<Flight>, receivers: seq<seq<Addr>>, size: nat)
    requires LiveTtl(m) && Causes(n, AfterHop(m), msgs)
    requires |receivers| == |msgs| && forall k | 0 <= k < |msgs| :: MayReach(msgs[k], receivers[k], size)
    ensures var total := Weight(rest + Spread(msgs, receivers), Weigh(size));
      && total <= Weight(rest, Weigh(size)) + WeightOf(m, size)
      && (Discovery(m) ==> total < Weight(rest, Weigh(size)) + WeightOf(m, size))
  {
    assert |msgs| <= 1;
    if Discovery(m) { DiscoveryWeighs(m, size); }
    if msgs != [] { CausedWeight(n, m, msgs, size); }
    SpreadWeight(rest, msgs, receivers, size, Weigh(size));
  }

  /** Every reception of an RREQ or RREP strictly decreases the weight; no other reception raises it. */
  lemma ReceptionDecreases(net: Net, net': Net, i: Addr, m: Msg, receivers: seq<seq<Addr>>)
    requires i in net.nodes && Delivery(net, net', i, Receive(m), receivers) && LiveTtl(m)
    ensures var w := Weigh(|net.nodes|);
      && Weight(net'.air, w) <= Weight(net.air, w)
      && (Discovery(m) ==> Weight(net'.air, w) < Weight(net.air, w))
  {
    var f := Flight(m, i);
    var rest := net.air - multiset{f};
    assert f in net.air && rest + multiset{f} == net.air;
    WeightAdd(rest, f, Weigh(|net.nodes|));
    var msgs := MessageSent(net.nodes[i], AfterHop(m), net.now);
    SentWeight(net.nodes[i], m, msgs, rest, receivers, |net.nodes|);
    WeightOfPart(net'.air, rest + Spread(msgs, receivers), Weigh(|net.nodes|));
  }

  /** Timers and data packets send errors, HELLOs and the node's own requests, and nothing else. */
  lemma EventSends(n: Node, ev: Event, now: real)
    requires n.out == [] && !ev.Receive?
    ensures forall m | m in Sent(Handle(n, ev, now).out) :: m.Rerr? || m.Hello? || (m.Rreq? && m.rq.src == n.id)
  {
    match ev
    case Data(p, isNew) => match Admit(n.id, p, isNew) { case None => case Some(q) => ResolvePasses(n, q, now); }
    case Queue(_) =>
    case Tick(HelloTime) =>
    case Tick(IdTime) =>
    case Tick(NeighborTime) => LoseExpiredPasses(n, n.nbrs, now);
    case Tick(RouteTime) => PurgeRoutesPasses(n, n.order, now);
  }

  lemma CopiesFree(air: multiset<Flight>, m: Msg, receivers: seq<Addr>, w: Msg -> nat)
    requires w(m) == 0
    ensures Weight(air + CopiesTo(m, receivers), w) == Weight(air, w)
  {
    CopiesWeight(air, m, receivers, w);
    assert |receivers| * w(m) == 0;
  }

  lemma {:induction false} SpreadFree(air: multiset<Flight>, msgs: seq<Msg>, receivers: seq<seq<Addr>>, w: Msg -> nat)
    requires |msgs| == |receivers| && forall m | m in msgs :: w(m) == 0
    ensures Weight(air + Spread(msgs, receivers), w) == Weight(air, w)
    decreases |msgs|
  {
    if msgs == [] {
      assert air + Spread(msgs, receivers) == air;
    } else {
      var last := |msgs| - 1;
      var before := Spread(msgs[..last], receivers[..last]);
      SpreadFree(air, msgs[..last], receivers[..last], w);
      CopiesFree(air + before, msgs[last], receivers[last], w);
      assert (air + before) + CopiesTo(msgs[last], receivers[last]) == air + Spread(msgs, receivers);
    }
  }

  /** No request of the node's own goes out. */
  ghost predicate OriginatesNothing(net: Net, i: Addr, ev: Event)
    requires i in net.nodes
  {
    forall m | m in Sent(After(net, i, ev).out) && m.Rreq? :: m.rq.src != i
  }

  /** An event that is no reception and originates nothing does not raise the weight. */
  lemma EventFree(net: Net, net': Net, i: Addr, ev: Event, receivers: seq<seq<Addr>>)
    requires i in net.nodes && net.nodes[i].id == i && !ev.Receive?
    requires Delivery(net, net', i, ev, receivers) && OriginatesNothing(net, i, ev)
    ensures Weight(net'.air, Weigh(|net.nodes|)) <= Weight(net.air, Weigh(|net.nodes|))
  {
    var w := Weigh(|net.nodes|);
    var msgs := Sent(After(net, i, ev).out);
    EventSends(net.nodes[i], ev, net.now);
    forall m | m in msgs ensures w(m) == 0 {
      assert !m.Rreq? && !m.Rrep?;
    }
    SpreadFree(net.air, msgs, receivers, w);
    assert net.air - Used(i, ev) == net.air;
    WeightOfPart(net'.air, net.air + Spread(msgs, receivers), w);
  }

  // ---- Runs of a discovery ----

  /** Whatever happens, copies are used up when received, what is sent reaches some nodes, and no new request is
      originated. */
  ghost predicate Quiet(net: Net, net': Net, i: Addr, ev: Event) {
    && i in net.nodes && OriginatesNothing(net, i, ev)
    && exists receivers :: Delivery(net, net', i, ev, receivers)
  }

  ghost predicate QuietAt(run: seq<Net>, acts: seq<(Addr, Event)>, k: int)
    requires 0 <= k < |acts| && |run| == |acts| + 1
  {
    Quiet(run[k], run[k + 1], acts[k].0, acts[k].1)
  }

  ghost predicate IsDiscovery(run: seq<Net>, acts: seq<(Addr, Event)>) {
    && |run| == |acts| + 1
    && (forall k | 0 <= k < |acts| :: StepAt(run, acts, k))
    && (forall k | 0 <= k < |acts| :: QuietAt(run, acts, k))
  }

  function Receptions(acts: seq<(Addr, Event)>): nat {
    if acts == [] then 0
    else
      var last := |acts| - 1;
      Receptions(acts[..last]) + Counted(acts[last].1)
  }

  function Counted(ev: Event): nat {
    if ev.Receive? && Discovery(ev.m) then 1 else 0
  }

  lemma {:induction false} WeightOfPart(part: multiset<Flight>, whole: multiset<Flight>, w: Msg -> nat)
    requires part <= whole
    ensures Weight(part, w) <= Weight(whole, w)
    decreases |whole|
  {
    if part != whole {
      assert whole == part + (whole - part);
      assert whole - part != multiset{};
      var f :| f in whole - part;
      var rest := whole - multiset{f};
      assert part <= rest && rest + multiset{f} == whole;
      WeightAdd(rest, f, w);
      WeightOfPart(part, rest, w);
    }
  }

  ghost predicate AllLive(net: Net) {
    && (forall f | f in net.air :: LiveTtl(f.m))
    && (forall i | i in net.nodes :: net.nodes[i].id == i)
  }

  lemma {:induction false} DiscoveryLive(run: seq<Net>, acts: seq<(Addr, Event)>, k: nat)
    requires IsDiscovery(run, acts) && k <= |acts| && Safe(run[0])
    ensures Safe(run[k]) && AllLive(run[k])
  {
    if k > 0 {
      DiscoveryLive(run, acts, k - 1);
      assert StepAt(run, acts, k - 1);
      StepKeepsSafe(run[k - 1], run[k], acts[k - 1].0, acts[k - 1].1);
    }
    SafeLive(run[k]);
  }

  lemma SafeLive(net: Net)
    requires Safe(net)
    ensures AllLive(net)
  {
    forall f | f in net.air ensures LiveTtl(f.m) {
      assert FlightOk(net, f);
    }
  }

  lemma SameSize(net: Net, net': Net, i: Addr, ev: Event)
    requires Step(net, net', i, ev)
    ensures |net'.nodes| == |net.nodes|
  {
    assert net'.nodes.Keys == net.nodes.Keys;
  }

  /** What the messages in the air weigh in state `k`. */
  ghost function WeightAt(run: seq<Net>, k: nat): nat
    requires k < |run|
  {
    Weight(run[k].air, Weigh(|run[k].nodes|))
  }

  lemma QuietWeight(net: Net, net': Net, i: Addr, ev: Event)
    requires Step(net, net', i, ev) && Quiet(net, net', i, ev) && AllLive(net)
    ensures Weight(net'.air, Weigh(|net'.nodes|)) + Counted(ev) <= Weight(net.air, Weigh(|net.nodes|))
  {
    SameSize(net, net', i, ev);
    var receivers :| Delivery(net, net', i, ev, receivers);
    if ev.Receive? {
      ReceptionDecreases(net, net', i, ev.m, receivers);
    } else {
      EventFree(net, net', i, ev, receivers);
    }
  }

  lemma DiscoveryStep(run: seq<Net>, acts: seq<(Addr, Event)>, k: nat)
    requires IsDiscovery(run, acts) && k < |acts| && AllLive(run[k])
    ensures WeightAt(run, k + 1) + Counted(acts[k].1) <= WeightAt(run, k)
  {
    assert StepAt(run, acts, k) && QuietAt(run, acts, k);
    QuietWeight(run[k], run[k + 1], acts[k].0, acts[k].1);
  }

  lemma ReceptionsNext(acts: seq<(Addr, Event)>, k: nat)
    requires k < |acts|
    ensures Receptions(acts[..k + 1]) == Receptions(acts[..k]) + Counted(acts[k].1)
  {
    assert acts[..k + 1][..k] == acts[..k];
  }

  lemma {:induction false} DiscoveryWeight(run: seq<Net>, acts: seq<(Addr, Event)>, k: nat)
    requires IsDiscovery(run, acts) && k <= |acts| && forall j | 0 <= j < |run| :: AllLive(run[j])
    ensures WeightAt(run, k) + Receptions(acts[..k]) <= WeightAt(run, 0)
  {
    if k > 0 {
      DiscoveryWeight(run, acts, k - 1);
      DiscoveryStep(run, acts, k - 1);
      ReceptionsNext(acts, k - 1);
    }
  }

  /** Flood termination: while no new request is originated, and whatever else the nodes do meanwhile, no more RREQs
      and RREPs are ever received than the messages in the air at the start weigh. */
  lemma FloodTerminates(run: seq<Net>, acts: seq<(Addr, Event)>)
    requires IsDiscovery(run, acts) && Reachable(run[0])
    ensures Receptions(acts) <= WeightAt(run, 0)
  {
    ReachableSafe(run[0]);
    forall j | 0 <= j < |run| ensures AllLive(run[j]) {
      DiscoveryLive(run, acts, j);
    }
    DiscoveryWeight(run, acts, |acts|);
    assert acts[..|acts|] == acts;
  }
}
