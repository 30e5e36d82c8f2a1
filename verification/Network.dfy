/** The network: nodes, messages in the air that may be lost, duplicated, reordered and delayed,
    and a clock. Every run keeps the invariant `Safe`. */
module Network {
  import opened Basics
  import opened Routes
  import opened Nodes
  import opened NodeInvariant
  import opened NodeSteps

  /** A copy of a message on its way to one node. */
  datatype Flight = Flight(m: Msg, to: Addr)

  /** `log` is a history variable: every route advertised so far. */
  datatype Net = Net(nodes: map<Addr, Node>, air: multiset<Flight>, now: real, log: set<Advert>)

  ghost predicate Initial(net: Net) {
    && (forall i | i in net.nodes :: net.nodes[i] == NewNode(i, net.nodes[i].cfg))
    && net.air == multiset{} && net.log == {} && net.now == 0.0
  }

  /** The node after the event, with the packets it sends still in `out`. */
  function After(net: Net, i: Addr, ev: Event): Node
    requires i in net.nodes
  {
    Handle(net.nodes[i], ev, net.now)
  }

  /** Node `i` handles `ev`. A broadcast may reach any nodes, a unicast message only its next hop;
      a copy already in the air may stay, be lost or be delivered again. */
  ghost predicate Step(net: Net, net': Net, i: Addr, ev: Event) {
    && i in net.nodes
    && (ev.Receive? ==> Flight(ev.m, i) in net.air)
    && net.now <= net'.now
    && var n := After(net, i, ev);
      && net'.nodes == net.nodes[i := n.(out := [])]
      && net'.log == net.log + n.said
      && (forall f | f in net'.air :: f in net.air || (Send(f.m) in n.out && Addressed(f.m, f.to)))
  }

  /** Step `k` of a run. */
  ghost predicate StepAt(run: seq<Net>, acts: seq<(Addr, Event)>, k: int)
    requires 0 <= k < |acts| && |run| == |acts| + 1
  {
    Step(run[k], run[k + 1], acts[k].0, acts[k].1)
  }

  /** A run: the states visited, and who handled what between them. */
  ghost predicate IsRun(run: seq<Net>, acts: seq<(Addr, Event)>) {
    && |run| == |acts| + 1
    && Initial(run[0])
    && forall k | 0 <= k < |acts| :: StepAt(run, acts, k)
  }

  ghost predicate Reachable(net: Net) {
    exists run: seq<Net>, acts: seq<(Addr, Event)> :: IsRun(run, acts) && run[|run| - 1] == net
  }

  // ---- The invariant ----

  function Numbers(net: Net): map<Addr, nat> {
    map i | i in net.nodes :: net.nodes[i].seqno
  }

  function ViewOf(net: Net, i: Addr): View
    requires i in net.nodes
  {
    View(net.nodes[i], net.log, Numbers(net))
  }

  ghost predicate FlightOk(net: Net, f: Flight) {
    MsgOk(f.m) && LiveTtl(f.m) && Addressed(f.m, f.to) && Adverts(f.m) <= net.log && MsgWithin(f.m, Numbers(net))
  }

  ghost predicate Safe(net: Net) {
    && (forall i | i in net.nodes ::
          net.nodes[i].id == i && net.nodes[i].out == [] && Good(net.nodes[i], ViewOf(net, i)) &&
          net.nodes[i].said <= net.log)
    && (forall a | a in net.log :: a.sender in net.nodes && a in net.nodes[a.sender].said)
    && (forall f | f in net.air :: FlightOk(net, f))
  }

  lemma InitialSafe(net: Net)
    requires Initial(net)
    ensures Safe(net)
  {
  }

  /** What is true of a node stays true when the world around it has moved on. */
  lemma GoodLater(n: Node, v: View, v': View)
    requires Good(n, v)
    requires v'.start == n.(out := []) && v.log <= v'.log && EvenLimits(v'.own)
    requires forall d | d in v.own :: d in v'.own && v.own[d] <= v'.own[d]
    requires Limit(v'.own, n.id) <= n.seqno
    ensures Good(n.(out := []), v')
  {
    var n' := n.(out := []);
    forall d | d in n'.table ensures EntryOk(v', d, n'.table[d]) {
      assert EntryOk(v, d, n.table[d]);
    }
    forall a | a in n'.said ensures Honest(n', a) {
      assert Honest(n, a);
    }
  }

  lemma WithinLater(m: Msg, own: map<Addr, nat>, own': map<Addr, nat>)
    requires MsgWithin(m, own)
    requires forall d | d in own :: d in own' && own[d] <= own'[d]
    ensures MsgWithin(m, own')
  {
  }

  lemma StepAfter(net: Net, net': Net, i: Addr, ev: Event)
    requires Safe(net) && Step(net, net', i, ev)
    ensures Good(After(net, i, ev), ViewOf(net, i))
    ensures Numbers(net') == Numbers(net)[i := After(net, i, ev).seqno]
    ensures net.nodes[i].seqno <= After(net, i, ev).seqno && After(net, i, ev).seqno % 2 == 0
    ensures net.nodes[i].said <= After(net, i, ev).said
  {
    if ev.Receive? { assert FlightOk(net, Flight(ev.m, i)); }
    HandleKeepsGood(net.nodes[i], ev, net.now, ViewOf(net, i));
  }

  lemma StepNodes(net: Net, net': Net, i: Addr, ev: Event)
    requires Safe(net) && Step(net, net', i, ev)
    ensures forall j | j in net'.nodes ::
      net'.nodes[j].id == j && net'.nodes[j].out == [] && Good(net'.nodes[j], ViewOf(net', j)) &&
      net'.nodes[j].said <= net'.log
  {
    StepAfter(net, net', i, ev);
    var n := After(net, i, ev);
    var own := Numbers(net');
    assert EvenLimits(own) by {
      assert EvenLimits(Numbers(net));
    }
    forall j | j in net'.nodes
      ensures net'.nodes[j].id == j && net'.nodes[j].out == [] && Good(net'.nodes[j], ViewOf(net', j))
      ensures net'.nodes[j].said <= net'.log
    {
      if j == i {
        GoodLater(n, ViewOf(net, i), ViewOf(net', i));
      } else {
        GoodLater(net.nodes[j], ViewOf(net, j), ViewOf(net', j));
      }
    }
  }

  lemma StepKeepsSafe(net: Net, net': Net, i: Addr, ev: Event)
    requires Safe(net) && Step(net, net', i, ev)
    ensures Safe(net')
  {
    StepAfter(net, net', i, ev);
    StepNodes(net, net', i, ev);
    var n := After(net, i, ev);
    forall a | a in net'.log ensures a.sender in net'.nodes && a in net'.nodes[a.sender].said {
      if a in n.said { assert Honest(n, a); }
    }
    forall f | f in net'.air ensures FlightOk(net', f) {
      if f in net.air {
        assert FlightOk(net, f);
        WithinLater(f.m, Numbers(net), Numbers(net'));
      } else {
        assert OutOk(n, ViewOf(net, i), Send(f.m));
      }
    }
  }

  lemma {:induction false} RunSafe(run: seq<Net>, acts: seq<(Addr, Event)>, k: nat)
    requires IsRun(run, acts) && k < |run|
    ensures Safe(run[k])
  {
    if k == 0 {
      InitialSafe(run[0]);
    } else {
      RunSafe(run, acts, k - 1);
      assert StepAt(run, acts, k - 1);
      StepKeepsSafe(run[k - 1], run[k], acts[k - 1].0, acts[k - 1].1);
    }
  }

  lemma ReachableSafe(net: Net)
    requires Reachable(net)
    ensures Safe(net)
  {
    var run: seq<Net>, acts: seq<(Addr, Event)> :| IsRun(run, acts) && run[|run| - 1] == net;
    RunSafe(run, acts, |run| - 1);
  }

  lemma StepReachable(net: Net, net': Net, i: Addr, ev: Event)
    requires Reachable(net) && Step(net, net', i, ev)
    ensures Reachable(net')
  {
    var run: seq<Net>, acts: seq<(Addr, Event)> :| IsRun(run, acts) && run[|run| - 1] == net;
    var run', acts' := run + [net'], acts + [(i, ev)];
    forall k | 0 <= k < |acts'| ensures StepAt(run', acts', k) {
      if k < |acts| { assert StepAt(run, acts, k); }
    }
    assert IsRun(run', acts');
  }
}
