/** Loop freedom over all alternate paths, and what a whole run fixes about advertisements and
    sequence numbers. */
module LoopFreedom {
  import opened Basics
  import opened Routes
  import opened Nodes
  import opened NodeInvariant
  import opened NodeSteps
  import opened Network
  import opened Outbox

  /** Some stored path of node `i` towards `d` goes through `j` next. */
  ghost predicate Edge(net: Net, d: Addr, i: Addr, j: Addr) {
    && i in net.nodes && d in net.nodes[i].table
    && exists p :: p in net.nodes[i].table[d].paths && p.nexthop == j
  }

  /** A walk that may take any alternate path at every node. */
  ghost predicate Walk(net: Net, d: Addr, w: seq<Addr>) {
    |w| >= 1 && forall k | 0 <= k < |w| - 1 :: Edge(net, d, w[k], w[k + 1])
  }

  // ---- The order that every edge descends ----

  /** Sequence number held for `d`; the destination holds its own. */
  function Number(net: Net, d: Addr, i: Addr): nat {
    if i !in net.nodes then 0
    else if i == d then net.nodes[i].seqno
    else if d in net.nodes[i].table then net.nodes[i].table[d].seqno
    else 0
  }

  /** Advertised hop count for `d`; the destination is at 0, and nothing advertised is infinite. */
  function Hops(net: Net, d: Addr, i: Addr): Option<nat> {
    if i == d then Some(0)
    else if i in net.nodes && d in net.nodes[i].table then net.nodes[i].table[d].adv
    else None
  }

  /** `j` is strictly closer: a newer number, or the same number and a smaller hop count. */
  ghost predicate Closer(net: Net, d: Addr, i: Addr, j: Addr) {
    || Number(net, d, i) < Number(net, d, j)
    || (Number(net, d, i) == Number(net, d, j) && Hops(net, d, j).Some? &&
        Above(Hops(net, d, i), Hops(net, d, j).value))
  }

  /** Where a stored path comes from: its next hop advertised it, and still stands by it. */
  lemma PathSource(net: Net, d: Addr, i: Addr, k: nat)
    requires Safe(net) && i in net.nodes && d in net.nodes[i].table && k < |net.nodes[i].table[d].paths|
    ensures var e := net.nodes[i].table[d];
      var p := e.paths[k];
      && EntryOk(ViewOf(net, i), d, e)
      && p.hopcount >= 1 && p.nexthop in net.nodes && Honest(net.nodes[p.nexthop], Source(d, e.seqno, p))
      && (p.hopcount == 1 ==> p.nexthop == d && p.lasthop == i)
  {
    var e := net.nodes[i].table[d];
    assert EntryOk(ViewOf(net, i), d, e);
    assert JustifiedPath(i, d, e.seqno, e.paths[k], net.log);
  }

  lemma PathDescends(net: Net, d: Addr, i: Addr, k: nat)
    requires Safe(net) && i in net.nodes && d in net.nodes[i].table && k < |net.nodes[i].table[d].paths|
    ensures var j := net.nodes[i].table[d].paths[k].nexthop; j in net.nodes && Closer(net, d, i, j)
  {
    PathSource(net, d, i, k);
  }

  /** Every next hop of every alternate path is strictly closer to the destination. */
  lemma EdgeDescends(net: Net, d: Addr, i: Addr, j: Addr)
    requires Reachable(net) && Edge(net, d, i, j)
    ensures j in net.nodes && Closer(net, d, i, j)
  {
    ReachableSafe(net);
    var ps := net.nodes[i].table[d].paths;
    var p :| p in ps && p.nexthop == j;
    var k :| 0 <= k < |ps| && ps[k] == p;
    PathDescends(net, d, i, k);
  }

  lemma {:induction false} WalkDescends(net: Net, d: Addr, w: seq<Addr>)
    requires Reachable(net) && Walk(net, d, w) && |w| >= 2
    ensures Closer(net, d, w[0], w[|w| - 1])
  {
    EdgeDescends(net, d, w[0], w[1]);
    if |w| > 2 {
      forall k | 0 <= k < |w[1..]| - 1 ensures Edge(net, d, w[1..][k], w[1..][k + 1]) {
        assert Edge(net, d, w[k + 1], w[k + 1 + 1]);
      }
      WalkDescends(net, d, w[1..]);
    }
  }

  /** Loop freedom: in every reachable state, following any alternate paths towards any
      destination never visits a node twice. */
  lemma LoopFree(net: Net, d: Addr, w: seq<Addr>)
    requires Reachable(net) && Walk(net, d, w)
    ensures forall i, j | 0 <= i < j < |w| :: w[i] != w[j]
  {
    forall i, j | 0 <= i < j < |w| ensures w[i] != w[j] {
      var u := w[i..j + 1];
      forall k | 0 <= k < |u| - 1 ensures Edge(net, d, u[k], u[k + 1]) {
        assert Edge(net, d, w[i + k], w[i + k + 1]);
      }
      WalkDescends(net, d, u);
    }
  }

  /** Nothing leads on from the destination itself, so a walk that meets it ends there. */
  lemma DestinationIsLast(net: Net, d: Addr, j: Addr)
    requires Reachable(net)
    ensures !Edge(net, d, d, j)
  {
    ReachableSafe(net);
    if d in net.nodes && d in net.nodes[d].table {
      assert EntryOk(ViewOf(net, d), d, net.nodes[d].table[d]);
    }
  }

  // ---- Node-disjointness ----

  /** Node `j` has a route to `d` under number `s` and has removed no path since adopting it. */
  ghost predicate Intact(net: Net, d: Addr, s: nat, j: Addr) {
    && j in net.nodes && IsUp(net.nodes[j], d)
    && net.nodes[j].table[d].seqno == s && !net.nodes[j].table[d].pruned
  }

  /** A walk to `d` along the path that path_find picks at every node. */
  ghost predicate PreferredWalk(net: Net, d: Addr, s: nat, w: seq<Addr>) {
    && |w| >= 1 && w[|w| - 1] == d
    && forall k | 0 <= k < |w| - 1 :: PreferredHop(net, d, s, w[k], w[k + 1])
  }

  ghost predicate PreferredHop(net: Net, d: Addr, s: nat, j: Addr, k: Addr) {
    Intact(net, d, s, j) && net.nodes[j].table[d].paths != [] && net.nodes[j].table[d].paths[0].nexthop == k
  }

  /** The last hop stored with a path is the last node before `d` when the path is really followed. */
  lemma {:induction false} LastHopIsReal(net: Net, d: Addr, i: Addr, c: nat, w: seq<Addr>)
    requires Reachable(net) && i in net.nodes && d in net.nodes[i].table && c < |net.nodes[i].table[d].paths|
    requires PreferredWalk(net, d, net.nodes[i].table[d].seqno, w) && w[0] == net.nodes[i].table[d].paths[c].nexthop
    ensures net.nodes[i].table[d].paths[c].lasthop == if |w| == 1 then i else w[|w| - 2]
    decreases |w|
  {
    ReachableSafe(net);
    var e := net.nodes[i].table[d];
    var j := e.paths[c].nexthop;
    PathSource(net, d, i, c);
    if |w| == 1 {
    } else {
      assert PreferredHop(net, d, e.seqno, w[0], w[1]);
      assert EntryOk(ViewOf(net, j), d, net.nodes[j].table[d]);
      var u := w[1..];
      forall k | 0 <= k < |u| - 1 ensures PreferredHop(net, d, e.seqno, u[k], u[k + 1]) {
        assert PreferredHop(net, d, e.seqno, w[k + 1], w[k + 1 + 1]);
      }
      LastHopIsReal(net, d, j, 0, u);
    }
  }

  lemma SuffixPreferred(net: Net, d: Addr, s: nat, w: seq<Addr>, x: nat)
    requires PreferredWalk(net, d, s, w) && x < |w|
    ensures PreferredWalk(net, d, s, w[x..])
  {
    var u := w[x..];
    forall k | 0 <= k < |u| - 1 ensures PreferredHop(net, d, s, u[k], u[k + 1]) {
      assert PreferredHop(net, d, s, w[x + k], w[x + k + 1]);
    }
  }

  /** Whoever lies on a preferred walk, that node's preferred path ends in the same last hop. */
  lemma SharedLastHop(net: Net, d: Addr, s: nat, w: seq<Addr>, x: nat)
    requires Reachable(net) && PreferredWalk(net, d, s, w) && x < |w| - 1
    ensures Intact(net, d, s, w[x]) && net.nodes[w[x]].table[d].paths != []
    ensures net.nodes[w[x]].table[d].paths[0].lasthop == w[|w| - 2]
  {
    assert PreferredHop(net, d, s, w[x], w[x + 1]);
    SuffixPreferred(net, d, s, w, x + 1);
    LastHopIsReal(net, d, w[x], 0, w[x + 1..]);
  }

  /** Node-disjointness: two alternate paths of one node, followed along preferred paths through nodes
      that hold the same number and have removed no path under it, share no intermediate node. */
  lemma NodeDisjoint(net: Net, d: Addr, i: Addr, c1: nat, c2: nat, w1: seq<Addr>, w2: seq<Addr>)
    requires Reachable(net) && i in net.nodes && d in net.nodes[i].table
    requires c1 < |net.nodes[i].table[d].paths| && c2 < |net.nodes[i].table[d].paths| && c1 != c2
    requires PreferredWalk(net, d, net.nodes[i].table[d].seqno, w1) && w1[0] == net.nodes[i].table[d].paths[c1].nexthop
    requires PreferredWalk(net, d, net.nodes[i].table[d].seqno, w2) && w2[0] == net.nodes[i].table[d].paths[c2].nexthop
    ensures forall x, y | 0 <= x < |w1| - 1 && 0 <= y < |w2| - 1 :: w1[x] != w2[y]
  {
    ReachableSafe(net);
    var e := net.nodes[i].table[d];
    assert EntryOk(ViewOf(net, i), d, e);
    LastHopIsReal(net, d, i, c1, w1);
    LastHopIsReal(net, d, i, c2, w2);
    forall x, y | 0 <= x < |w1| - 1 && 0 <= y < |w2| - 1 ensures w1[x] != w2[y] {
      SharedLastHop(net, d, e.seqno, w1, x);
      SharedLastHop(net, d, e.seqno, w2, y);
    }
  }

  // ---- Over whole runs ----

  lemma StepLogGrows(run: seq<Net>, acts: seq<(Addr, Event)>, k: nat)
    requires IsRun(run, acts) && k < |acts|
    ensures run[k].log <= run[k + 1].log
  {
    assert StepAt(run, acts, k);
  }

  lemma {:induction false} LogGrows(run: seq<Net>, acts: seq<(Addr, Event)>, j: nat, k: nat)
    requires IsRun(run, acts) && j <= k < |run|
    ensures run[j].log <= run[k].log
    decreases k
  {
    if j < k {
      LogGrows(run, acts, j, k - 1);
      StepLogGrows(run, acts, k - 1);
    }
  }

  /** Node `i` sends `m` while handling `ev`. */
  ghost predicate SendsIn(net: Net, i: Addr, ev: Event, m: Msg) {
    i in net.nodes && Send(m) in After(net, i, ev).out
  }

  /** The `k`-th handler of the run sends `m`. */
  ghost predicate Sends(run: seq<Net>, acts: seq<(Addr, Event)>, k: nat, m: Msg) {
    k < |acts| && k < |run| && SendsIn(run[k], acts[k].0, acts[k].1, m)
  }

  lemma StepLogs(net: Net, net': Net, i: Addr, ev: Event, m: Msg)
    requires Safe(net) && Step(net, net', i, ev) && SendsIn(net, i, ev, m)
    ensures Adverts(m) <= net'.log
  {
    StepAfter(net, net', i, ev);
    assert OutOk(After(net, i, ev), ViewOf(net, i), Send(m));
  }

  lemma RunStepLogs(run: seq<Net>, acts: seq<(Addr, Event)>, k: nat, m: Msg)
    requires IsRun(run, acts) && Sends(run, acts, k, m)
    ensures Adverts(m) <= run[k + 1].log
  {
    RunSafe(run, acts, k);
    assert StepAt(run, acts, k);
    StepLogs(run[k], run[k + 1], acts[k].0, acts[k].1, m);
  }

  lemma SentIsLogged(run: seq<Net>, acts: seq<(Addr, Event)>, k: nat, m: Msg)
    requires IsRun(run, acts) && Sends(run, acts, k, m)
    ensures Adverts(m) <= run[|run| - 1].log
  {
    RunStepLogs(run, acts, k, m);
    LogGrows(run, acts, k + 1, |run| - 1);
  }

  /** Frozen advertisement: over a whole run, all messages one node sends about one destination
      under one sequence number carry the same hop count. */
  lemma FrozenAdvertisement(run: seq<Net>, acts: seq<(Addr, Event)>, k1: nat, m1: Msg, k2: nat, m2: Msg)
    requires IsRun(run, acts) && Sends(run, acts, k1, m1) && Sends(run, acts, k2, m2)
    requires AdvertOf(m1).Some? && AdvertOf(m2).Some?
    requires var a, b := AdvertOf(m1).value, AdvertOf(m2).value;
      a.sender == b.sender && a.dst == b.dst && a.seqno == b.seqno
    ensures AdvertOf(m1).value.hops == AdvertOf(m2).value.hops
  {
    SentIsLogged(run, acts, k1, m1);
    SentIsLogged(run, acts, k2, m2);
    var net := run[|run| - 1];
    RunSafe(run, acts, |run| - 1);
    var a, b := AdvertOf(m1).value, AdvertOf(m2).value;
    assert a in net.log && b in net.log;
    assert Good(net.nodes[a.sender], ViewOf(net, a.sender));
    assert SameClaim(a, b);
  }

  /** The offer a message in flight makes to its receiver. */
  ghost predicate Offers(f: Flight, o: Offer, now: real) {
    || (f.m.Rreq? && o == RequestOffer(f.to, f.m.rq, now))
    || (f.m.Rrep? && o == ReplyOffer(f.m.rp, now))
    || (f.m.Hello? && o == ReplyOffer(HelloReply(f.to, f.m.hi), now))
  }

  /** The asserts of recvRequest and recvReply never fire: when a message offers a path under the
      number already held, the route is up, and a path through the same neighbour has the same hop count. */
  lemma KnownPathAgrees(net: Net, f: Flight, o: Offer, now: real, d: Addr)
    requires Reachable(net) && f in net.air && Offers(f, o, now) && d == AdvertOf(f.m).value.dst
    requires f.to in net.nodes && d in net.nodes[f.to].table
    requires var e := net.nodes[f.to].table[d]; e.seqno == o.seqno && Above(e.adv, o.hops)
    ensures var e := net.nodes[f.to].table[d];
      && e.flags.Up? && e.seqno % 2 == 0 && e.seqno >= 2
      && forall k | 0 <= k < |e.paths| && e.paths[k].nexthop == o.via :: e.paths[k].hopcount == o.hops + 1
  {
    ReachableSafe(net);
    assert FlightOk(net, f);
    var e := net.nodes[f.to].table[d];
    assert EntryOk(ViewOf(net, f.to), d, e);
    var a := AdvertOf(f.m).value;
    assert a in net.log;
    forall k | 0 <= k < |e.paths| && e.paths[k].nexthop == o.via ensures e.paths[k].hopcount == o.hops + 1 {
      assert JustifiedPath(f.to, d, e.seqno, e.paths[k], net.log);
      var b := Source(d, e.seqno, e.paths[k]);
      assert Good(net.nodes[a.sender], ViewOf(net, a.sender));
      assert SameClaim(a, b);
    }
  }

  lemma UpIsEven(n: Node, d: Addr, v: View)
    requires Good(n, v) && IsUp(n, d)
    ensures n.table[d].seqno % 2 == 0
  {
    assert EntryOk(v, d, n.table[d]);
  }

  /** The assert before a reply from the table never fires: whatever reverse path the request has just brought, a route
      to the node asked for that is up has an even number. */
  lemma AnsweredRouteIsEven(n: Node, m: Request, now: real, v: View)
    requires Good(n, v) && MsgOk(Rreq(m)) && MsgWithin(Rreq(m), v.own) && AdvertOf(Rreq(m)).value in v.log
    requires m.src != n.id && AbsorbRequest(n, m, now).1.Keep?
    ensures var r := Settle(AbsorbRequest(n, m, now).0, m.src, now);
      IsUp(r, m.dst) ==> r.table[m.dst].seqno % 2 == 0
  {
    AbsorbRequestGood(n, m, now, v);
    var n1 := AbsorbRequest(n, m, now).0;
    SettleGood(n1, m.src, now, v);
    if IsUp(Settle(n1, m.src, now), m.dst) { UpIsEven(Settle(n1, m.src, now), m.dst, v); }
  }

  /** The assert in the loop of recvError never fires: at each entry, a route that is up has an even number. */
  lemma ErroredRouteIsEven(n: Node, m: Error, k: nat, v: View)
    requires Good(n, v) && MsgOk(Rerr(m)) && MsgWithin(Rerr(m), v.own) && k < |m.dests|
    ensures var r := ErrorAll(n, m.ipSrc, m.dests[..k]).0;
      IsUp(r, m.dests[k].0) ==> r.table[m.dests[k].0].seqno % 2 == 0
  {
    ErrorAllGood(n, m.ipSrc, m.dests[..k], v);
    var r := ErrorAll(n, m.ipSrc, m.dests[..k]).0;
    if IsUp(r, m.dests[k].0) { UpIsEven(r, m.dests[k].0, v); }
  }

  /** Nor does the assert in the loop of handle_link_failure. */
  lemma FailedRouteIsEven(n: Node, id: Addr, k: nat, v: View)
    requires Good(n, v) && k < |n.order|
    ensures var r := FailAll(n, id, n.order[..k]).0;
      IsUp(r, n.order[k]) ==> r.table[n.order[k]].seqno % 2 == 0
  {
    FailAllGood(n, id, n.order[..k], v);
    var r := FailAll(n, id, n.order[..k]).0;
    if IsUp(r, n.order[k]) { UpIsEven(r, n.order[k], v); }
  }

  /** The table invariant and the parity rule, in every reachable state. */
  lemma TableInvariant(net: Net, i: Addr, d: Addr)
    requires Reachable(net) && i in net.nodes && d in net.nodes[i].table
    ensures EntryShape(net.nodes[i].cfg, d, net.nodes[i].table[d]) && EntryParity(net.nodes[i].table[d])
  {
    ReachableSafe(net);
    assert EntryOk(ViewOf(net, i), d, net.nodes[i].table[d]);
  }

  /** Sequence-number ownership: nothing recorded or heard about `d` exceeds d's own number by
      more than one, and even numbers never exceed it. */
  lemma Ownership(net: Net, i: Addr, d: Addr)
    requires Reachable(net) && i in net.nodes && d in net.nodes[i].table
    ensures var e := net.nodes[i].table[d];
      var own := if d in net.nodes then net.nodes[d].seqno else 0;
      && e.seqno <= own + 1 && e.heard <= own + 1
      && (e.seqno % 2 == 0 ==> e.seqno <= own)
  {
    ReachableSafe(net);
    assert EntryOk(ViewOf(net, i), d, net.nodes[i].table[d]);
    assert EvenLimits(Numbers(net));
  }

  /** The numbers that message `m` gives for destinations. */
  function Mentions(m: Msg): seq<(Addr, nat)> {
    match m
    case Rreq(rq) => [(rq.src, rq.srcSeqno), (rq.dst, rq.dstSeqno)]
    case Rrep(rp) => [(rp.dst, rp.dstSeqno)]
    case Hello(hi) => [(hi.dst, hi.dstSeqno)]
    case Rerr(re) => re.dests
  }

  lemma MentionsWithin(m: Msg, own: map<Addr, nat>, k: nat)
    requires MsgOk(m) && MsgWithin(m, own) && EvenLimits(own) && k < |Mentions(m)|
    ensures var (d, s) := Mentions(m)[k];
      && s <= Limit(own, d) + 1
      && (s % 2 == 0 ==> s <= Limit(own, d))
      && (m.Rerr? ==> s == 0 || s % 2 == 1)
  {
    var (d, s) := Mentions(m)[k];
    assert Limit(own, d) % 2 == 0;
  }

  lemma NumbersEven(net: Net)
    requires Safe(net)
    ensures EvenLimits(Numbers(net))
  {
    forall d | d in Numbers(net) ensures Numbers(net)[d] % 2 == 0 {
      assert Good(net.nodes[d], ViewOf(net, d));
    }
  }

  /** The same for every number in flight; error messages carry only zero or odd numbers. */
  lemma OwnershipInFlight(net: Net, f: Flight, k: nat)
    requires Reachable(net) && f in net.air && k < |Mentions(f.m)|
    ensures var (d, s) := Mentions(f.m)[k];
      var own := if d in net.nodes then net.nodes[d].seqno else 0;
      && s <= own + 1
      && (s % 2 == 0 ==> s <= own)
      && (f.m.Rerr? ==> s == 0 || s % 2 == 1)
  {
    ReachableSafe(net);
    assert FlightOk(net, f);
    NumbersEven(net);
    MentionsWithin(f.m, Numbers(net), k);
  }

  lemma StepNumbers(net: Net, net': Net, a: Addr, ev: Event, d: Addr, i: Addr)
    requires Safe(net) && Step(net, net', a, ev)
    ensures Number(net, d, i) <= Number(net', d, i)
  {
    StepAfter(net, net', a, ev);
    assert Since(net.nodes[a], After(net, a, ev));
  }

  lemma RunStepNumbers(run: seq<Net>, acts: seq<(Addr, Event)>, k: nat, d: Addr, i: Addr)
    requires IsRun(run, acts) && k < |acts|
    ensures Number(run[k], d, i) <= Number(run[k + 1], d, i)
  {
    RunSafe(run, acts, k);
    assert StepAt(run, acts, k);
    StepNumbers(run[k], run[k + 1], acts[k].0, acts[k].1, d, i);
  }

  /** No number held about any destination ever falls. */
  lemma {:induction false} NumbersNeverFall(run: seq<Net>, acts: seq<(Addr, Event)>, j: nat, k: nat, d: Addr, i: Addr)
    requires IsRun(run, acts) && j <= k < |run|
    ensures Number(run[j], d, i) <= Number(run[k], d, i)
    decreases k
  {
    if j < k {
      NumbersNeverFall(run, acts, j, k - 1, d, i);
      RunStepNumbers(run, acts, k - 1, d, i);
    }
  }

  /** The number a destination answers with: no older than the one asked for, and at most 2 above its own. */
  lemma OwnNumber(n: Node, m: Request)
    requires n.seqno % 2 == 0 && m.dstSeqno <= n.seqno + 1
    ensures var s := ReplyAsDestination(n, m).seqno;
      s % 2 == 0 && m.dstSeqno <= s && (s == n.seqno || s == n.seqno + 2)
  {
    if n.seqno < m.dstSeqno {
      assert m.dstSeqno == n.seqno + 1;
    }
  }

  lemma OwnReply(n: Node, m: Request, rp: Reply)
    requires Sent(n.out) == [] && Rrep(rp) in Sent(ReplyAsDestination(n, m).out)
    ensures rp.dstSeqno == ReplyAsDestination(n, m).seqno
  {
    SentAppend(n.out, ReplyAsDestination(n, m).out[|n.out|]);
  }

  /** A reply that recvRequest sends about the node itself comes from the branch for the destination. */
  lemma ReplyBranch(n: Node, m: Request, now: real, rp: Reply) returns (n1: Node)
    requires n.out == [] && Send(Rrep(rp)) in RecvRequest(n, m, now).out && rp.dst == n.id
    ensures m.dst == n.id && n1.seqno == n.seqno && Sent(n1.out) == []
    ensures RecvRequest(n, m, now) == ReplyAsDestination(n1, m)
  {
    var msgs := RecvRequestSent(n, m, now);
    assert Rrep(rp) in msgs;
    var (n0, verdict) := AbsorbRequest(n, m, now);
    assert n0.out == [] && n0.seqno == n.seqno && n0.id == n.id;
    n1 := Settle(n0, m.src, now);
    SettleSent(n0, m.src, now);
  }

  /** Reply `rp`, sent on the way from `n` to `r`, is about the node that request `m` asks for, no older than asked,
      and carries the new number, which is even and has risen by at most 2. */
  ghost predicate FreshReply(n: Node, m: Request, r: Node, rp: Reply) {
    && m.dst == n.id && m.dstSeqno <= rp.dstSeqno
    && rp.dstSeqno == r.seqno && r.seqno % 2 == 0 && (r.seqno == n.seqno || r.seqno == n.seqno + 2)
  }

  lemma NodeReplyIsFresh(n: Node, m: Request, now: real, rp: Reply)
    requires n.out == [] && n.seqno % 2 == 0 && (m.dst == n.id ==> m.dstSeqno <= n.seqno + 1)
    requires Send(Rrep(rp)) in RecvRequest(n, m, now).out && rp.dst == n.id
    ensures FreshReply(n, m, RecvRequest(n, m, now), rp)
  {
    var n1 := ReplyBranch(n, m, now, rp);
    OwnNumber(n1, m);
    OwnReply(n1, m, rp);
  }

  lemma MessageReplyIsFresh(n: Node, m: Msg, now: real, rp: Reply)
    requires m.Rreq? && n.out == [] && n.seqno % 2 == 0 && (m.rq.dst == n.id ==> m.rq.dstSeqno <= n.seqno + 1)
    requires Send(Rrep(rp)) in HandleMessage(n, m, now).out && rp.dst == n.id
    ensures FreshReply(n, m.rq, HandleMessage(n, m, now), rp)
  {
    NodeReplyIsFresh(n, m.rq, now, rp);
  }

  lemma HandledReplyIsFresh(n: Node, m: Msg, now: real, rp: Reply)
    requires m.Rreq? && n.out == [] && n.seqno % 2 == 0 && (m.rq.dst == n.id ==> m.rq.dstSeqno <= n.seqno + 1)
    requires Send(Rrep(rp)) in Handle(n, Receive(m), now).out && rp.dst == n.id
    ensures FreshReply(n, m.rq, Handle(n, Receive(m), now), rp)
  {
    MessageReplyIsFresh(n, AfterHop(m), now, rp);
  }

  lemma RequestInFlight(net: Net, f: Flight)
    requires Safe(net) && f in net.air && f.m.Rreq? && f.to in net.nodes
    ensures var n := net.nodes[f.to];
      && n.id == f.to && n.out == [] && n.seqno % 2 == 0
      && (f.m.rq.dst == f.to ==> f.m.rq.dstSeqno <= n.seqno + 1)
  {
    assert FlightOk(net, f);
  }

  /** Whatever RREP about itself a node sends on receiving an RREQ is no older than the number the RREQ asked for,
      and carries the node's new number, which is even and has risen by at most 2. */
  lemma ReplyIsFreshEnough(net: Net, f: Flight, rp: Reply)
    requires Reachable(net) && f in net.air && f.m.Rreq? && f.to in net.nodes
    requires Send(Rrep(rp)) in After(net, f.to, Receive(f.m)).out && rp.dst == f.to
    ensures FreshReply(net.nodes[f.to], f.m.rq, After(net, f.to, Receive(f.m)), rp)
  {
    ReachableSafe(net);
    RequestInFlight(net, f);
    HandledReplyIsFresh(net.nodes[f.to], f.m, net.now, rp);
  }
}
