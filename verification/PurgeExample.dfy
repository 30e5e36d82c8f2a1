/** A run after which nb_purge salvages a packet to a neighbour that the same purge removes. Nodes 1 and 2 both lie
    between node 0 and node 9; 0 hears a request of 9 through both, and HELLOs from both, and then nothing more. */
module PurgeExample {
  import opened Basics
  import opened Routes
  import opened Buffers
  import opened Nodes
  import opened NodeInvariant
  import opened Network
  import opened Neighbours

  // ---- Runs step by step ----

  /** The network after node `i` has handled `ev`: nothing is lost, `sent` joins the messages in the air, and the
      clock moves on to `now`. */
  function Next(net: Net, i: Addr, ev: Event, sent: multiset<Flight>, now: real): Net
    requires i in net.nodes
  {
    var n := After(net, i, ev);
    Net(net.nodes[i := n.(out := [])], net.air + sent, now, net.log + n.said)
  }

  lemma ReachableNext(net: Net, i: Addr, ev: Event, sent: multiset<Flight>, now: real)
    requires Reachable(net) && i in net.nodes && net.now <= now && (ev.Receive? ==> Flight(ev.m, i) in net.air)
    requires forall f | f in sent :: Send(f.m) in After(net, i, ev).out && Addressed(f.m, f.to)
    ensures Reachable(Next(net, i, ev, sent, now))
  {
    StepReachable(net, Next(net, i, ev, sent, now), i, ev);
  }

  lemma ReachableInitial(net: Net)
    requires Initial(net)
    ensures Reachable(net)
  {
    assert IsRun([net], []);
  }

  // ---- What the nodes do ----

  const CFG: Config := Config(3, 1)

  /** The data packet that makes node 9 look for node 100. */
  const WANTED: Pkt := Pkt(1, 9, 100, 5, true, 0, 0.0, 0)

  /** The request of node 9, and as node `i` passes it on. */
  const ASKED: Request := Request(9, 30, 0, 1, 100, 0, 9, 4, 0)

  function PassedBy(i: Addr): Request {
    Request(i, 29, 1, 1, 100, 0, 9, 4, i)
  }

  function HelloOf(i: Addr): Greeting {
    Greeting(i, 1, i, 2, 4.0)
  }

  /** The packet that the link layer of node 0 holds for node 1. */
  const QUEUED: Pkt := Pkt(2, 0, 9, 30, true, 1, 0.0, 0)

  lemma Asks()
    ensures Send(Rreq(ASKED)) in Handle(NewNode(9, CFG), Data(WANTED, true), 0.0).out
  {
    var n := NewNode(9, CFG);
    var q := WANTED.(salvage := 0, ttl := NETWORK_DIAMETER);
    assert Admit(9, WANTED, true) == Some(q);
    var n1 := EnsureEntry(n, 100);
    var n2 := n1.(buffer := Enque(n1.buffer, q, 0.0));
    assert Resolve(n, q, 0.0) == SendRequest(n2, 100, 0.0);
    assert SendRequest(n2, 100, 0.0) == IssueRequest(n2, 100, NextAttempt(NewEntry(100), 0.0));
  }

  lemma FlushEmpty(n: Node, d: Addr, now: real)
    requires d in n.table && n.buffer == Buffer([], [])
    ensures Flush(n, d, now) == n
  {
    assert Deque(n.buffer, d, now) == (None, n.buffer);
  }

  /** The entry for node 9 after its request has been heard once, `hops` hops away. */
  function HeardOnce(via: Addr, hops: nat, last: Addr): Entry {
    NewEntry(9).(seqno := 4, flags := Up, paths := [Path(via, hops + 1, REV_ROUTE_LIFE, last)], numPaths := 1,
                 lastHops := hops + 1)
  }

  lemma AdoptFirst(o: Offer)
    requires o.seqno == 4 && o.expire == REV_ROUTE_LIFE
    ensures Adopt(NewEntry(9), o) == HeardOnce(o.via, o.hops, o.lasthop)
  {
    var ps := [OfferedPath(o)];
    assert ps[..0] == [];
    assert MaxHops(ps) == o.hops + 1;
  }

  /** Request `m` is a copy of the one that node 9 has sent, with some of its TTL left. */
  predicate IsCopy(m: Request) {
    m.src == 9 && m.dst == 100 && m.srcSeqno == 4 && m.bcastId == 1 && m.dstSeqno == 0 && m.ttl > 0
  }

  /** The node that has heard its first copy of the request and passed it on. */
  function PassedOn(i: Addr, m: Request): Node {
    var last := if m.hopCount == 0 then i else m.firstHop;
    var rq := m.(ipSrc := i, hopCount := m.hopCount + 1, firstHop := last);
    Node(i, CFG, 2, 1, map[9 := HeardOnce(m.ipSrc, m.hopCount, last).(adv := Some(m.hopCount + 1))], [9],
         [BroadcastId(9, 1, BCAST_ID_SAVE, 0)], [], Buffer([], []), [], [Send(Rreq(rq))], Adverts(Rreq(rq)))
  }

  lemma AbsorbFirst(i: Addr, m: Request)
    requires IsCopy(m) && i != 9 && i != 100
    ensures var e := HeardOnce(m.ipSrc, m.hopCount, if m.hopCount == 0 then i else m.firstHop);
      var n := NewNode(i, CFG).(table := map[9 := e], order := [9], ids := [BroadcastId(9, 1, BCAST_ID_SAVE, 0)]);
      AbsorbRequest(NewNode(i, CFG), m, 0.0) == (n, Keep(true))
  {
    var n := NewNode(i, CFG);
    var n1 := EnsureEntry(CacheId(n, 9, 1, 0.0), 9);
    assert n1 == n.(table := map[9 := NewEntry(9)], order := [9], ids := [BroadcastId(9, 1, BCAST_ID_SAVE, 0)]);
    var o := RequestOffer(i, m, 0.0);
    AdoptFirst(o);
    var e := HeardOnce(o.via, o.hops, o.lasthop);
    assert LearnReverse(CFG, NewEntry(9), o, false) == (e, Keep(true));
    assert Put(n1, 9, e).table == map[9 := e];
  }

  lemma HearFirst(i: Addr, m: Request)
    requires IsCopy(m) && i != 9 && i != 100
    ensures RecvRequest(NewNode(i, CFG), m, 0.0) == PassedOn(i, m)
  {
    var n := NewNode(i, CFG);
    AbsorbFirst(i, m);
    var n1 := AbsorbRequest(n, m, 0.0).0;
    assert RecvRequest(n, m, 0.0) == FinishRequest(n1, m, true, false, 0.0);
    FlushEmpty(n1, 9, 0.0);
    assert SoftReset(n1.table[9]) == n1.table[9] && Put(n1, 9, n1.table[9]) == n1;
    assert Settle(n1, 9, 0.0) == n1;
    assert FinishRequest(n1, m, true, false, 0.0) == Rebroadcast(n1, m);
    assert n1.table[9].paths[..0] == [];
    assert Advertise(n1.table[9]) == n1.table[9].(adv := Some(m.hopCount + 1));
  }

  /** Node 0 after the copies of nodes 1 and 2: two alternate paths. */
  function HeardTwice(): Entry {
    HeardOnce(1, 1, 1).(paths := [Path(1, 2, REV_ROUTE_LIFE, 1), Path(2, 2, REV_ROUTE_LIFE, 2)], numPaths := 2,
                        adv := Some(2))
  }

  lemma OnePathHops(p: Path)
    requires 0 < p.hopcount < INFINITY2
    ensures MaxHops([p]) == p.hopcount && MinHops([p]) == p.hopcount
  {
    var ps := [p];
    assert ps[..0] == [] && ps[0] == p;
  }

  lemma TwoPathHops(p: Path, q: Path)
    requires 0 < p.hopcount == q.hopcount < INFINITY2
    ensures MaxHops([p, q]) == p.hopcount && MinHops([p, q]) == p.hopcount
  {
    var ps := [p, q];
    assert ps[..1] == [p] && ps[1] == q;
    OnePathHops(p);
  }

  lemma SecondAdded(e: Entry, o: Offer)
    requires e == HeardOnce(1, 1, 1).(adv := Some(2)) && o == Offer(2, 4, 1, 2, REV_ROUTE_LIFE)
    ensures HasRoom(CFG, e, 1) && Append(e, o) == HeardTwice() && MinHops(HeardTwice().paths) == 2
  {
    var p, q := Path(1, 2, REV_ROUTE_LIFE, 1), OfferedPath(o);
    OnePathHops(p);
    TwoPathHops(p, q);
    assert e.paths + [q] == [p, q];
  }

  lemma LearnSecond(e: Entry, o: Offer)
    requires e == HeardOnce(1, 1, 1).(adv := Some(2)) && o == Offer(2, 4, 1, 2, REV_ROUTE_LIFE)
    ensures LearnReverse(CFG, e, o, false) == (HeardTwice(), Keep(true))
  {
    SecondAdded(e, o);
    var ps := e.paths;
    assert |ps| == 1 && ps[0].nexthop == 1 && ps[0].lasthop == 1;
    assert FindPair(ps, 2, 2).None? && NewDisjoint(ps, 2, 2);
  }

  lemma AbsorbSecond(n: Node, m: Request)
    requires n == PassedOn(0, PassedBy(1).(ttl := 28)).(out := []) && m == PassedBy(2).(ttl := 28)
    ensures AbsorbRequest(n, m, 0.0) == (n.(table := map[9 := HeardTwice()]), Keep(true))
  {
    assert CacheId(n, 9, 1, 0.0) == n && EnsureEntry(n, 9) == n;
    LearnSecond(n.table[9], RequestOffer(0, m, 0.0));
    assert Put(n, 9, HeardTwice()).table == map[9 := HeardTwice()];
  }

  lemma HearSecond(n: Node, m: Request)
    requires n == PassedOn(0, PassedBy(1).(ttl := 28)).(out := []) && m == PassedBy(2).(ttl := 28)
    ensures RecvRequest(n, m, 0.0) == n.(table := map[9 := HeardTwice()])
  {
    assert FindId(n.ids, 9, 1) == Some(0);
    var n1 := n.(table := map[9 := HeardTwice()]);
    AbsorbSecond(n, m);
    SecondIsDuplicate(n1, m);
    assert RecvRequest(n, m, 0.0) == FinishRequest(n1, m, true, true, 0.0);
  }

  lemma SecondIsDuplicate(n: Node, m: Request)
    requires IsCopy(m) && n.id == 0 && n.table == map[9 := HeardTwice()] && n.buffer == Buffer([], [])
    ensures FinishRequest(n, m, true, true, 0.0) == n
  {
    FlushEmpty(n, 9, 0.0);
    assert SoftReset(n.table[9]) == n.table[9] && Put(n, 9, n.table[9]) == n;
    assert Settle(n, 9, 0.0) == n;
  }

  // ---- HELLOs ----

  /** Buffer and interface queue are as before, and so is every route but the one to `i`, which is new. */
  ghost predicate NewRoute(n: Node, r: Node, i: Addr) {
    && r.id == n.id && r.buffer == n.buffer && r.ifq == n.ifq && r.nbrs == n.nbrs
    && r.table.Keys == n.table.Keys + {i} && forall d | d in n.table :: r.table[d] == n.table[d]
  }

  lemma HelloAbsorbed(n: Node, i: Addr)
    requires i !in n.table
    ensures var (r, kept) := AbsorbReply(n, HelloReply(0, HelloOf(i).(ttl := 0)), 0.0); kept && NewRoute(n, r, i)
  {
    var n1 := EnsureEntry(n, i);
    assert n1.table[i] == NewEntry(i);
  }

  lemma HelloSettled(n: Node, r: Node, i: Addr)
    requires NewRoute(n, r, i) && i !in n.table && n.buffer == Buffer([], [])
    ensures NewRoute(n, Settle(r, i, 0.0), i)
  {
    if r.table[i].flags.Up? { FlushEmpty(Put(r, i, SoftReset(r.table[i])), i, 0.0); }
  }

  /** A HELLO from a new neighbour is recorded, and does not touch the routes there are. */
  lemma HearHello(n: Node, i: Addr)
    requires n.id == 0 && i != 0 && n.buffer == Buffer([], []) && i !in n.table
    requires forall b | b in n.nbrs :: b.addr != i
    ensures NewRoute(n.(nbrs := [Neighbor(i, 3.0)] + n.nbrs), RecvHello(n, HelloOf(i).(ttl := 0), 0.0), i)
  {
    var m := HelloReply(0, HelloOf(i).(ttl := 0));
    var n1 := n.(nbrs := [Neighbor(i, 3.0)] + n.nbrs);
    HelloRecorded(n, i);
    HelloAbsorbed(n1, i);
    var (n2, kept) := AbsorbReply(n1, m, 0.0);
    HelloSettled(n1, n2, i);
    assert RecvReply(n1, m, 0.0) == FinishReply(n2, m, 0.0) == Settle(n2, i, 0.0);
  }

  lemma HelloRecorded(n: Node, i: Addr)
    requires forall b | b in n.nbrs :: b.addr != i
    ensures HearNeighbor(n, i, 0.0) == n.(nbrs := [Neighbor(i, 3.0)] + n.nbrs)
  {
    assert FindNeighbor(n.nbrs, i) == None;
  }

  lemma SaysHello(n: Node, i: Addr)
    requires n == PassedOn(i, ASKED.(ttl := 29)).(out := [])
    ensures Send(Hello(HelloOf(i))) in Handle(n, Tick(HelloTime), 0.0).out
  {
    assert n.table[9].flags.Up?;
  }

  // ---- The run ----

  function Start(): Net {
    Net(map[0 := NewNode(0, CFG), 1 := NewNode(1, CFG), 2 := NewNode(2, CFG), 9 := NewNode(9, CFG)],
        multiset{}, 0.0, {})
  }

  /** A network reached at time 0, with these nodes 0, 1 and 2. */
  ghost predicate At(net: Net, zero: Node, one: Node, two: Node) {
    && Reachable(net) && net.now == 0.0 && net.nodes.Keys == {0, 1, 2, 9}
    && net.nodes[0] == zero && net.nodes[1] == one && net.nodes[2] == two
  }

  /** Node `i` after it has passed the request of node 9 on. */
  function Between(i: Addr): Node {
    PassedOn(i, ASKED.(ttl := 29)).(out := [])
  }

  lemma NineAsks() returns (net: Net)
    ensures At(net, NewNode(0, CFG), NewNode(1, CFG), NewNode(2, CFG))
    ensures Flight(Rreq(ASKED), 1) in net.air && Flight(Rreq(ASKED), 2) in net.air
  {
    var ev, sent := Data(WANTED, true), multiset{Flight(Rreq(ASKED), 1), Flight(Rreq(ASKED), 2)};
    ReachableInitial(Start());
    Asks();
    assert After(Start(), 9, ev) == Handle(NewNode(9, CFG), ev, 0.0);
    ReachableNext(Start(), 9, ev, sent, 0.0);
    net := Next(Start(), 9, ev, sent, 0.0);
  }

  /** Node `i`, 1 or 2, hears the request and passes it on to node 0. */
  lemma PassesOn(net: Net, i: Addr) returns (net': Net)
    requires Reachable(net) && net.now == 0.0 && i in net.nodes && i != 9 && i != 100
    requires net.nodes[i] == NewNode(i, CFG) && Flight(Rreq(ASKED), i) in net.air
    ensures Reachable(net') && net'.now == 0.0 && net'.nodes == net.nodes[i := Between(i)]
    ensures net'.air == net.air + multiset{Flight(Rreq(PassedBy(i)), 0)}
  {
    var ev, sent := Receive(Rreq(ASKED)), multiset{Flight(Rreq(PassedBy(i)), 0)};
    HearFirst(i, ASKED.(ttl := 29));
    assert After(net, i, ev) == PassedOn(i, ASKED.(ttl := 29));
    assert Send(Rreq(PassedBy(i))) in PassedOn(i, ASKED.(ttl := 29)).out;
    ReachableNext(net, i, ev, sent, 0.0);
    net' := Next(net, i, ev, sent, 0.0);
  }

  /** Node `i` says HELLO to node 0. */
  lemma Greets(net: Net, i: Addr) returns (net': Net)
    requires Reachable(net) && net.now == 0.0 && i in net.nodes && net.nodes[i] == Between(i)
    ensures Reachable(net') && net'.now == 0.0 && net'.nodes.Keys == net.nodes.Keys
    ensures forall k | k in net.nodes && k != i :: net'.nodes[k] == net.nodes[k]
    ensures net'.air == net.air + multiset{Flight(Hello(HelloOf(i)), 0)}
  {
    var ev, sent := Tick(HelloTime), multiset{Flight(Hello(HelloOf(i)), 0)};
    SaysHello(net.nodes[i], i);
    ReachableNext(net, i, ev, sent, 0.0);
    net' := Next(net, i, ev, sent, 0.0);
  }

  /** Node 0 handles `ev`, which makes it `r`; nothing it sends arrives. */
  lemma ZeroHandles(net: Net, ev: Event, r: Node, now: real) returns (net': Net)
    requires Reachable(net) && 0 in net.nodes && net.now <= now && (ev.Receive? ==> Flight(ev.m, 0) in net.air)
    requires Handle(net.nodes[0], ev, net.now) == r
    ensures Reachable(net') && net'.now == now && net'.nodes == net.nodes[0 := r.(out := [])] && net'.air == net.air
  {
    ReachableNext(net, 0, ev, multiset{}, now);
    net' := Next(net, 0, ev, multiset{}, now);
  }

  /** Both requests and both HELLOs are on their way to node 0. */
  ghost predicate AllSent(net: Net) {
    && Reachable(net) && net.now == 0.0 && 0 in net.nodes && net.nodes[0] == NewNode(0, CFG)
    && Flight(Rreq(PassedBy(1)), 0) in net.air && Flight(Rreq(PassedBy(2)), 0) in net.air
    && Flight(Hello(HelloOf(1)), 0) in net.air && Flight(Hello(HelloOf(2)), 0) in net.air
  }

  lemma EverythingSent() returns (net: Net)
    ensures AllSent(net)
  {
    net := NineAsks();
    net := PassesOn(net, 1);
    net := PassesOn(net, 2);
    net := Greets(net, 1);
    net := Greets(net, 2);
  }

  /** Node 0 has two alternate paths to node 9. */
  ghost predicate TwoPaths(n: Node) {
    n.id == 0 && n.buffer == Buffer([], []) && n.table.Keys >= {9} && n.table[9] == HeardTwice()
  }

  lemma RequestsHeard(net: Net) returns (net': Net)
    requires AllSent(net)
    ensures Reachable(net') && net'.now == 0.0 && 0 in net'.nodes && net'.air == net.air
    ensures TwoPaths(net'.nodes[0]) && net'.nodes[0].nbrs == [] && net'.nodes[0].table.Keys == {9}
  {
    HearFirst(0, PassedBy(1).(ttl := 28));
    net' := ZeroHandles(net, Receive(Rreq(PassedBy(1))), PassedOn(0, PassedBy(1).(ttl := 28)), 0.0);
    var n := net'.nodes[0];
    HearSecond(n, PassedBy(2).(ttl := 28));
    net' := ZeroHandles(net', Receive(Rreq(PassedBy(2))), n.(table := map[9 := HeardTwice()]), 0.0);
  }

  /** Node 0 hears a HELLO from `i`. */
  lemma HelloHeard(net: Net, i: Addr) returns (net': Net)
    requires Reachable(net) && net.now == 0.0 && 0 in net.nodes && TwoPaths(net.nodes[0])
    requires i != 0 && i !in net.nodes[0].table && (forall b | b in net.nodes[0].nbrs :: b.addr != i)
    requires Flight(Hello(HelloOf(i)), 0) in net.air
    ensures Reachable(net') && net'.now == 0.0 && 0 in net'.nodes && net'.air == net.air && TwoPaths(net'.nodes[0])
    ensures net'.nodes[0].nbrs == [Neighbor(i, 3.0)] + net.nodes[0].nbrs
    ensures net'.nodes[0].table.Keys == net.nodes[0].table.Keys + {i}
  {
    var n := net.nodes[0];
    HearHello(n, i);
    net' := ZeroHandles(net, Receive(Hello(HelloOf(i))), RecvHello(n, HelloOf(i).(ttl := 0), 0.0), 0.0);
  }

  /** A state that a run reaches: at time 4 both neighbours of node 0, last heard at time 0, have expired, and a packet
      for node 9 is queued for the first. */
  ghost predicate Stranded(net: Net) {
    && Reachable(net) && net.now == 4.0 && 0 in net.nodes && TwoPaths(net.nodes[0])
    && net.nodes[0].nbrs == [Neighbor(1, 3.0), Neighbor(2, 3.0)] && net.nodes[0].ifq == [QUEUED]
  }

  lemma StrandedReached() returns (net: Net)
    ensures Stranded(net)
  {
    net := EverythingSent();
    net := RequestsHeard(net);
    net := HelloHeard(net, 2);
    net := HelloHeard(net, 1);
    assert [Neighbor(1, 3.0)] + ([Neighbor(2, 3.0)] + []) == [Neighbor(1, 3.0), Neighbor(2, 3.0)];
    net := ZeroHandles(net, Queue([QUEUED]), net.nodes[0].(ifq := [QUEUED]), 4.0);
  }

  /** In a state that a run reaches, nb_purge salvages a packet to a neighbour that it then removes. */
  lemma SalvagedToLaterNeighbour() returns (net: Net, x: Pkt)
    ensures Reachable(net) && 0 in net.nodes
    ensures var n := net.nodes[0];
      Transmit(x) in NbPurge(n, net.now).out && x.nexthop in Expired(n.nbrs, net.now)
  {
    net := StrandedReached();
    ReachableSafe(net);
    var n := net.nodes[0];
    StrandedIsSent(n);
    NbPurgeSendsToLost(n, net.now, ViewOf(net, 0));
    x :| Transmit(x) in NbPurge(n, net.now).out && x.nexthop in Expired(n.nbrs, net.now);
  }

  lemma StrandedIsSent(n: Node)
    requires TwoPaths(n) && n.nbrs == [Neighbor(1, 3.0), Neighbor(2, 3.0)] && n.ifq == [QUEUED]
    ensures SentToLost(n, 4.0, 0, QUEUED)
  {
    var one := n.nbrs[..1];
    assert one == [Neighbor(1, 3.0)] && one[..0] == [] && n.nbrs[..2] == n.nbrs;
    assert Expired(one, 4.0) == {1} && Expired(n.nbrs, 4.0) == {1, 2};
    assert BoundFor(n.ifq, 1) == [QUEUED];
    var hs, tail := Hops(n.table[9].paths), [2];
    assert hs == [1, 2] && hs[1..] == tail && tail[1..] == [];
    assert Without(tail, {1}) == [2] + Without([], {1});
    assert Without(hs, {1}) == Without(tail, {1});
  }
}
