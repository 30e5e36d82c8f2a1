/** Losing neighbours: nb_purge removes exactly the expired ones, and packets queued for them are
    salvaged along other paths or dropped. */
module Neighbours {
  import opened Basics
  import opened Routes
  import opened Buffers
  import opened Nodes
  import opened NodeInvariant
  import opened NodeSteps
  import opened Outbox
  import opened Errors
  import opened Forwarding

  // ---- The interface queue ----

  /** The queued packets not bound for any of `gone`, in order. */
  function Outside(q: seq<Pkt>, gone: set<Addr>): seq<Pkt> {
    if q == [] then []
    else if q[0].nexthop in gone then Outside(q[1..], gone)
    else [q[0]] + Outside(q[1..], gone)
  }

  /** The queued packets bound for `id`, in order. */
  function BoundFor(q: seq<Pkt>, id: Addr): seq<Pkt> {
    if q == [] then []
    else if q[0].nexthop == id then [q[0]] + BoundFor(q[1..], id)
    else BoundFor(q[1..], id)
  }

  lemma {:induction false} NoneBound(q: seq<Pkt>, id: Addr)
    requires forall k | 0 <= k < |q| :: q[k].nexthop != id
    ensures Outside(q, {id}) == q && BoundFor(q, id) == []
  {
    if q != [] { NoneBound(q[1..], id); }
  }

  /** Taking the first packet bound for `id` leaves the others. */
  lemma {:induction false} RemoveFirstOutside(q: seq<Pkt>, id: Addr, k: nat)
    requires FindNextHop(q, id) == Some(k)
    ensures Outside(RemoveAt(q, k), {id}) == Outside(q, {id})
  {
    if k == 0 {
      assert RemoveAt(q, 0) == q[1..];
    } else {
      RemoveFirstOutside(q[1..], id, k - 1);
      assert RemoveAt(q, k) == [q[0]] + RemoveAt(q[1..], k - 1);
      assert RemoveAt(q, k)[1..] == RemoveAt(q[1..], k - 1);
    }
  }

  /** What is left to take are the other packets bound for `id`. */
  lemma {:induction false} RemoveFirstBound(q: seq<Pkt>, id: Addr, k: nat)
    requires FindNextHop(q, id) == Some(k)
    ensures BoundFor(q, id) == [q[k]] + BoundFor(RemoveAt(q, k), id)
  {
    if k == 0 {
      assert RemoveAt(q, 0) == q[1..];
    } else {
      RemoveFirstBound(q[1..], id, k - 1);
      assert RemoveAt(q, k) == [q[0]] + RemoveAt(q[1..], k - 1);
      assert RemoveAt(q, k)[1..] == RemoveAt(q[1..], k - 1);
    }
  }

  lemma {:induction false} OutsideTwice(q: seq<Pkt>, gone: set<Addr>, id: Addr)
    ensures Outside(Outside(q, gone), {id}) == Outside(q, gone + {id})
  {
    if q != [] {
      OutsideTwice(q[1..], gone, id);
      if q[0].nexthop !in gone {
        assert Outside(q, gone)[1..] == Outside(q[1..], gone);
      }
    }
  }

  lemma {:induction false} OutsideNothing(q: seq<Pkt>)
    ensures Outside(q, {}) == q
  {
    if q != [] { OutsideNothing(q[1..]); }
  }

  // ---- Routes while neighbours are lost ----

  /** The next hops of the alternate paths, in order. */
  function Hops(ps: seq<Path>): (hs: seq<Addr>)
    ensures |hs| == |ps| && forall k | 0 <= k < |ps| :: hs[k] == ps[k].nexthop
  {
    if ps == [] then [] else [ps[0].nexthop] + Hops(ps[1..])
  }

  function Without(hs: seq<Addr>, gone: set<Addr>): (r: seq<Addr>)
    ensures forall a :: a in r <==> a in hs && a !in gone
  {
    if hs == [] then []
    else if hs[0] in gone then Without(hs[1..], gone)
    else [hs[0]] + Without(hs[1..], gone)
  }

  lemma {:induction false} HopsAvoiding(ps: seq<Path>, id: Addr)
    ensures Hops(Avoiding(ps, id)) == Without(Hops(ps), {id})
  {
    if ps != [] {
      HopsAvoiding(ps[1..], id);
      assert Hops(ps)[1..] == Hops(ps[1..]);
      if ps[0].nexthop != id { assert Avoiding(ps, id)[1..] == Avoiding(ps[1..], id); }
    }
  }

  lemma {:induction false} WithoutTwice(hs: seq<Addr>, gone: set<Addr>, id: Addr)
    ensures Without(Without(hs, gone), {id}) == Without(hs, gone + {id})
  {
    if hs != [] {
      WithoutTwice(hs[1..], gone, id);
      if hs[0] !in gone { assert Without(hs, gone)[1..] == Without(hs[1..], gone); }
    }
  }

  lemma {:induction false} WithoutNothing(hs: seq<Addr>)
    ensures Without(hs, {}) == hs
  {
    if hs != [] { WithoutNothing(hs[1..]); }
  }

  /** Of route `e` exactly the paths that avoid `gone` are left in `e'`, in order, and it is up iff there is one. */
  ghost predicate RouteLeft(e: Entry, e': Entry, gone: set<Addr>) {
    Hops(e'.paths) == Without(Hops(e.paths), gone) && (e'.flags.Up? <==> e'.paths != [])
  }

  /** `r` is node `n` after it has lost the neighbours `gone`, as far as its routes are concerned. */
  ghost predicate RoutesLeft(n: Node, r: Node, gone: set<Addr>) {
    && r.id == n.id && r.table.Keys == n.table.Keys
    && forall d | d in n.table :: RouteLeft(n.table[d], r.table[d], gone)
  }

  lemma RoutesAtFirst(n: Node)
    requires WellKept(n)
    ensures RoutesLeft(n, n, {})
  {
    forall d | d in n.table ensures RouteLeft(n.table[d], n.table[d], {}) {
      assert EntryShape(n.cfg, d, n.table[d]);
      WithoutNothing(Hops(n.table[d].paths));
    }
  }

  /** No stored path goes through any of `gone`. */
  ghost predicate NoPathVia(n: Node, gone: set<Addr>) {
    forall d | d in n.table :: HopsAvoid(n.table[d].paths, gone)
  }

  ghost predicate HopsAvoid(ps: seq<Path>, gone: set<Addr>) {
    forall k | 0 <= k < |ps| :: ps[k].nexthop !in gone
  }

  lemma LeftAvoids(n: Node, r: Node, gone: set<Addr>)
    requires RoutesLeft(n, r, gone)
    ensures NoPathVia(r, gone)
  {
    forall d | d in r.table ensures HopsAvoid(r.table[d].paths, gone) {
      assert RouteLeft(n.table[d], r.table[d], gone);
      var ps := r.table[d].paths;
      forall k | 0 <= k < |ps| ensures ps[k].nexthop !in gone {
        assert Hops(ps)[k] in Hops(ps);
      }
    }
  }

  // ---- Salvage ----

  /** The next hops towards `d` that are left once `gone` are lost. */
  function HopsLeft(n: Node, d: Addr, gone: set<Addr>): seq<Addr> {
    if d in n.table then Without(Hops(n.table[d].paths), gone) else []
  }

  /** Packet `p` can be salvaged once `gone` are lost. */
  predicate Salvageable(n: Node, p: Pkt, gone: set<Addr>) {
    p.isData && p.salvage < MAX_SALVAGE_COUNT && HopsLeft(n, p.dst, gone) != []
  }

  /** What becomes of packet `p`, queued for a lost neighbour, said of the node before any neighbour was lost: it is
      salvaged iff it is data, its route has a path left and it has not been salvaged too often; it then takes the
      first path left. */
  function Fate(n: Node, p: Pkt, gone: set<Addr>): Out {
    if !Salvageable(n, p, gone) then Dropped(p)
    else Onward(n.id, HopsLeft(n, p.dst, gone)[0], p.(salvage := p.salvage + 1))
  }

  function Fates(n: Node, ps: seq<Pkt>, gone: set<Addr>): (r: seq<Out>)
    ensures |r| == |ps| && forall k | 0 <= k < |ps| :: r[k] == Fate(n, ps[k], gone)
  {
    if ps == [] then [] else [Fate(n, ps[0], gone)] + Fates(n, ps[1..], gone)
  }

  /** No packet is sent to a neighbour already lost, none is salvaged more than MAX_SALVAGE_COUNT times. */
  lemma FateAvoids(n: Node, p: Pkt, gone: set<Addr>)
    ensures match Fate(n, p, gone)
      case Transmit(x) => x.nexthop !in gone && x.nexthop in HopsLeft(n, p.dst, gone) && x.salvage <= MAX_SALVAGE_COUNT
      case Deliver(x) => x == p.(salvage := p.salvage + 1)
      case Dropped(x) => x == p || x == p.(salvage := p.salvage + 1)
      case Send(_) => false
  {
  }

  lemma TouchHops(e: Entry, now: real)
    requires e.paths != []
    ensures Hops(TouchHead(e, now).paths) == Hops(e.paths)
  {
    assert TouchHead(e, now).paths[1..] == e.paths[1..];
  }

  lemma ForwardRoutes(n: Node, r: Node, d: Addr, p: Pkt, gone: set<Addr>, now: real)
    requires RoutesLeft(n, r, gone) && IsUp(r, d)
    ensures RoutesLeft(n, Forward(r, d, p, now), gone)
  {
    assert RouteLeft(n.table[d], r.table[d], gone);
    TouchHops(r.table[d], now);
  }

  /** forward() hands out one packet; the rest of the node but its table is as before. */
  lemma ForwardOut(r: Node, d: Addr, p: Pkt, hop: Addr, now: real)
    requires d in r.table && r.table[d].paths != [] && r.table[d].paths[0].nexthop == hop
    ensures var r' := Forward(r, d, p, now);
      && r'.ifq == r.ifq
      && r'.out == r.out + [Onward(r.id, hop, p)]
  {
  }

  lemma SalvagedFate(n: Node, r: Node, p: Pkt, gone: set<Addr>, now: real)
    requires RoutesLeft(n, r, gone) && IsUp(r, p.dst) && p.isData && p.salvage < MAX_SALVAGE_COUNT
    ensures var r' := Forward(r, p.dst, p.(salvage := p.salvage + 1), now);
      r'.out == r.out + [Fate(n, p, gone)] && r'.ifq == r.ifq
  {
    assert RouteLeft(n.table[p.dst], r.table[p.dst], gone);
    ForwardOut(r, p.dst, p.(salvage := p.salvage + 1), HopsLeft(n, p.dst, gone)[0], now);
  }

  /** One packet meets its fate, and the routes stay as they are. */
  lemma SalvageOneExact(n: Node, r: Node, p: Pkt, gone: set<Addr>, now: real)
    requires RoutesLeft(n, r, gone)
    ensures var r' := SalvageOne(r, p, now);
      RoutesLeft(n, r', gone) && r'.ifq == r.ifq && r'.out == r.out + [Fate(n, p, gone)]
  {
    if p.dst in n.table { assert RouteLeft(n.table[p.dst], r.table[p.dst], gone); }
    if p.isData && IsUp(r, p.dst) && p.salvage < MAX_SALVAGE_COUNT {
      SalvagedFate(n, r, p, gone, now);
      ForwardRoutes(n, r, p.dst, p.(salvage := p.salvage + 1), gone, now);
    }
  }

  /** Salvage takes every packet bound for `id` off the queue and keeps the others in order. */
  lemma {:induction false} SalvageQueue(n: Node, id: Addr, now: real)
    ensures Salvage(n, id, now).ifq == Outside(n.ifq, {id})
    decreases |n.ifq|
  {
    var f := FindNextHop(n.ifq, id);
    if f.None? {
      NoneBound(n.ifq, id);
    } else {
      RemoveFirstOutside(n.ifq, id, f.value);
      SalvageQueue(SalvageOne(n.(ifq := RemoveAt(n.ifq, f.value)), n.ifq[f.value], now), id, now);
    }
  }

  /** Each packet taken meets its fate, in order. */
  lemma {:induction false} SalvageExact(n: Node, r: Node, id: Addr, gone: set<Addr>, now: real)
    requires RoutesLeft(n, r, gone)
    ensures var r' := Salvage(r, id, now);
      r'.out == r.out + Fates(n, BoundFor(r.ifq, id), gone) && RoutesLeft(n, r', gone)
    decreases |r.ifq|
  {
    var f := FindNextHop(r.ifq, id);
    if f.None? {
      NoneBound(r.ifq, id);
    } else {
      var p, r1 := r.ifq[f.value], r.(ifq := RemoveAt(r.ifq, f.value));
      assert RoutesLeft(n, r1, gone);
      RemoveFirstBound(r.ifq, id, f.value);
      SalvageOneExact(n, r1, p, gone, now);
      var r2 := SalvageOne(r1, p, now);
      SalvageExact(n, r2, id, gone, now);
      assert Salvage(r, id, now) == Salvage(r2, id, now);
      FatesFirst(n, p, BoundFor(r1.ifq, id), gone, r.out);
    }
  }

  lemma FatesFirst(n: Node, p: Pkt, rest: seq<Pkt>, gone: set<Addr>, outs: seq<Out>)
    ensures (outs + [Fate(n, p, gone)]) + Fates(n, rest, gone) == outs + Fates(n, [p] + rest, gone)
  {
    assert ([p] + rest)[1..] == rest;
  }

  lemma {:induction false} SalvageFrame(n: Node, id: Addr, now: real)
    ensures Salvage(n, id, now).nbrs == n.nbrs && Salvage(n, id, now).seqno == n.seqno
    decreases |n.ifq|
  {
    var f := FindNextHop(n.ifq, id);
    if f.Some? {
      SalvageFrame(SalvageOne(n.(ifq := RemoveAt(n.ifq, f.value)), n.ifq[f.value], now), id, now);
    }
  }

  // ---- nb_delete ----

  lemma FailRouteLeft(cfg: Config, d: Addr, e: Entry, e': Entry, id: Addr, gone: set<Addr>)
    requires EntryShape(cfg, d, e') && EntryParity(e') && RouteLeft(e, e', gone)
    ensures RouteLeft(e, FailRoute(e', id), gone + {id})
  {
    FailRouteExact(cfg, d, e', id);
    HopsAvoiding(e'.paths, id);
    WithoutTwice(Hops(e.paths), gone, id);
  }

  lemma LinkFailureLeft(n: Node, r: Node, id: Addr, gone: set<Addr>)
    requires WellKept(r) && RoutesLeft(n, r, gone)
    ensures RoutesLeft(n, LinkFailure(r, id), gone + {id})
  {
    FailAllOnlyTable(r, id, r.order);
    FailAllPointwise(r, id, r.order);
    forall d | d in n.table ensures RouteLeft(n.table[d], FailRoute(r.table[d], id), gone + {id}) {
      FailRouteLeft(r.cfg, d, n.table[d], r.table[d], id, gone);
    }
  }

  lemma GoodIsKept(n: Node, v: View)
    requires Good(n, v)
    ensures WellKept(n) && UniqueNeighbors(n.nbrs)
  {
    forall d | d in n.table ensures EntryShape(n.cfg, d, n.table[d]) && EntryParity(n.table[d]) {
      assert EntryOk(v, d, n.table[d]);
    }
  }

  lemma LinkFailureData(n: Node, id: Addr)
    ensures DataOuts(LinkFailure(n, id).out) == DataOuts(n.out)
  {
    FailAllOnlyTable(n, id, n.order);
    var told := FailAll(n, id, n.order).1;
    if told != [] {
      var all := n.out + [Send(Rerr(Error(n.id, 1, told)))];
      assert all[..|n.out|] == n.out;
    }
  }

  /** nb_delete, in a node that was `n` before it lost the neighbours `gone`: the packets queued for the neighbour
      leave the queue and meet their fates, in order, and of each route exactly the paths through none of the lost
      neighbours are left. */
  lemma LoseNeighborExact(n: Node, r: Node, a: Addr, gone: set<Addr>, now: real, v: View)
    requires Good(r, v) && RoutesLeft(n, r, gone)
    ensures var r' := LoseNeighbor(r, a, now);
      && RoutesLeft(n, r', gone + {a})
      && r'.nbrs == WithoutNeighbor(r.nbrs, a) && r'.seqno == r.seqno + 2
      && r'.ifq == Outside(r.ifq, {a})
      && DataOuts(r'.out) == DataOuts(r.out) + Fates(n, BoundFor(r.ifq, a), gone + {a})
  {
    var r1 := r.(seqno := r.seqno + 2, nbrs := WithoutNeighbor(r.nbrs, a));
    WithoutNeighborGood(r, a, v);
    assert RoutesLeft(n, r1, gone);
    LinkBroken(n, r1, a, gone, v);
    var r2 := LinkFailure(r1, a);
    assert LoseNeighbor(r, a, now) == Salvage(r2, a, now);
    SalvageAll(n, r2, a, gone + {a}, now);
  }

  /** nb_delete by itself. */
  lemma NbDeleteExact(n: Node, a: Addr, now: real, v: View)
    requires Good(n, v)
    ensures var r := LoseNeighbor(n, a, now);
      && RoutesLeft(n, r, {a})
      && r.nbrs == WithoutNeighbor(n.nbrs, a) && r.seqno == n.seqno + 2
      && r.ifq == Outside(n.ifq, {a})
      && DataOuts(r.out) == DataOuts(n.out) + Fates(n, BoundFor(n.ifq, a), {a})
  {
    GoodIsKept(n, v);
    RoutesAtFirst(n);
    LoseNeighborExact(n, n, a, {}, now, v);
    assert {} + {a} == {a};
  }

  lemma {:induction false} SalvageKeepsRoutes(n: Node, id: Addr, now: real)
    ensures SameRoutes(n, Salvage(n, id, now))
    decreases |n.ifq|
  {
    var f := FindNextHop(n.ifq, id);
    if f.Some? {
      var p, n1 := n.ifq[f.value], n.(ifq := RemoveAt(n.ifq, f.value));
      if p.isData && IsUp(n1, p.dst) && p.salvage < MAX_SALVAGE_COUNT {
        ForwardSame(n1, p.dst, p.(salvage := p.salvage + 1), now);
      }
      SalvageKeepsRoutes(SalvageOne(n1, p, now), id, now);
    }
  }

  /** Node `r`, having lost neighbour `a`, has told upstream of exactly the routes that have gone down with rt_error
      set, in one error message, once each, with their new numbers; no other number has changed. */
  ghost predicate Reports(n: Node, r: Node, a: Addr) {
    var told := Notices(n, a, n.order);
    && Sent(r.out) == Sent(n.out) + (if told == [] then [] else [Rerr(Error(n.id, 1, told))])
    && DistinctKeys(told)
    && (forall d, s :: (d, s) in told <==> Reported(n, a, d) && s == Max(n.table[d].seqno + 1, n.table[d].heard))
    && r.table.Keys == n.table.Keys && forall d | d in n.table :: NumberAfter(n.table[d], r.table[d])
  }

  ghost predicate NumberAfter(e: Entry, e': Entry) {
    e'.seqno == if e.flags.Up? && e'.flags.Down? then Max(e.seqno + 1, e.heard) else e.seqno
  }

  lemma BrokenReports(n: Node, a: Addr)
    requires WellKept(n)
    ensures Reports(n, LinkFailure(n, a), a)
  {
    LinkFailureExact(n, a);
    var told, r := Notices(n, a, n.order), LinkFailure(n, a);
    if told == [] {
      assert n.out + [] == n.out && Sent(n.out) + [] == Sent(n.out);
    } else {
      SentAppend(n.out, Send(Rerr(Error(n.id, 1, told))));
    }
    forall d | d in n.table ensures NumberAfter(n.table[d], r.table[d]) {
      assert Cut(n.table[d], r.table[d], a);
    }
    forall d, s
      ensures (d, s) in told <==> Reported(n, a, d) && s == Max(n.table[d].seqno + 1, n.table[d].heard)
    {
      if Reported(n, a, d) { assert Cut(n.table[d], r.table[d], a); }
    }
  }

  lemma ReportsStill(n: Node, n1: Node, n2: Node, r: Node, a: Addr)
    requires n1.table == n.table && n1.order == n.order && n1.out == n.out && n1.id == n.id
    requires Reports(n1, n2, a) && SameRoutes(n2, r) && Sent(r.out) == Sent(n2.out)
    ensures Reports(n, r, a)
  {
    SameNotices(n, n1, a, n.order);
    forall d | d in n.table ensures NumberAfter(n.table[d], r.table[d]) {
      assert NumberAfter(n1.table[d], n2.table[d]) && SameRoute(n2.table[d], r.table[d]);
    }
    forall d, s
      ensures (d, s) in Notices(n, a, n.order) <==>
              Reported(n, a, d) && s == Max(n.table[d].seqno + 1, n.table[d].heard)
    {
      assert Reported(n, a, d) <==> Reported(n1, a, d);
    }
  }

  /** nb_delete tells upstream of the routes that it takes down. */
  lemma NbDeleteReports(n: Node, a: Addr, now: real)
    requires WellKept(n)
    ensures Reports(n, LoseNeighbor(n, a, now), a)
  {
    var n1 := n.(seqno := n.seqno + 2, nbrs := WithoutNeighbor(n.nbrs, a));
    var n2 := LinkFailure(n1, a);
    assert LoseNeighbor(n, a, now) == Salvage(n2, a, now);
    assert WellKept(n1);
    BrokenReports(n1, a);
    SalvageKeepsRoutes(n2, a, now);
    SalvageSent(n2, a, now);
    ReportsStill(n, n1, n2, Salvage(n2, a, now), a);
  }

  lemma {:induction false} SameNotices(n: Node, n1: Node, a: Addr, ds: seq<Addr>)
    requires n1.table == n.table
    ensures Notices(n1, a, ds) == Notices(n, a, ds)
    decreases |ds|
  {
    if ds != [] { SameNotices(n, n1, a, ds[..|ds| - 1]); }
  }

  lemma LinkBroken(n: Node, r: Node, a: Addr, gone: set<Addr>, v: View)
    requires Good(r, v) && RoutesLeft(n, r, gone)
    ensures var r' := LinkFailure(r, a);
      && RoutesLeft(n, r', gone + {a})
      && r'.ifq == r.ifq && r'.nbrs == r.nbrs && r'.seqno == r.seqno && DataOuts(r'.out) == DataOuts(r.out)
  {
    GoodIsKept(r, v);
    FailAllOnlyTable(r, a, r.order);
    LinkFailureLeft(n, r, a, gone);
    LinkFailureData(r, a);
  }

  lemma SalvageAll(n: Node, r: Node, a: Addr, gone: set<Addr>, now: real)
    requires RoutesLeft(n, r, gone)
    ensures var r' := Salvage(r, a, now);
      && RoutesLeft(n, r', gone) && r'.nbrs == r.nbrs && r'.seqno == r.seqno && r'.ifq == Outside(r.ifq, {a})
      && DataOuts(r'.out) == DataOuts(r.out) + Fates(n, BoundFor(r.ifq, a), gone)
  {
    SalvageExact(n, r, a, gone, now);
    SalvageQueue(r, a, now);
    SalvageFrame(r, a, now);
    FatesAreData(n, BoundFor(r.ifq, a), gone);
    DataOutsAppend(r.out, Fates(n, BoundFor(r.ifq, a), gone));
  }

  lemma FatesAreData(n: Node, ps: seq<Pkt>, gone: set<Addr>)
    ensures forall o | o in Fates(n, ps, gone) :: !o.Send?
  {
  }

  // ---- nb_purge ----

  /** The neighbours that have not expired, in order. */
  function Unexpired(nbrs: seq<Neighbor>, now: real): seq<Neighbor> {
    if nbrs == [] then []
    else
      var last := |nbrs| - 1;
      Unexpired(nbrs[..last], now) + if nbrs[last].expire <= now then [] else [nbrs[last]]
  }

  /** The addresses of the expired ones. */
  function Expired(nbrs: seq<Neighbor>, now: real): set<Addr> {
    if nbrs == [] then {}
    else
      var last := |nbrs| - 1;
      Expired(nbrs[..last], now) + if nbrs[last].expire <= now then {nbrs[last].addr} else {}
  }

  lemma {:induction false} UnexpiredMember(nbrs: seq<Neighbor>, now: real, b: Neighbor)
    ensures b in Unexpired(nbrs, now) <==> b in nbrs && now < b.expire
  {
    if nbrs != [] {
      var last := |nbrs| - 1;
      UnexpiredMember(nbrs[..last], now, b);
      assert nbrs == nbrs[..last] + [nbrs[last]];
    }
  }

  lemma {:induction false} ExpiredMember(nbrs: seq<Neighbor>, now: real, a: Addr)
    ensures a in Expired(nbrs, now) <==> exists k :: 0 <= k < |nbrs| && nbrs[k].addr == a && nbrs[k].expire <= now
  {
    if nbrs != [] {
      var last := |nbrs| - 1;
      var init := nbrs[..last];
      ExpiredMember(init, now, a);
      assert forall k | 0 <= k < last :: init[k] == nbrs[k];
    }
  }

  lemma RemoveMiddle(before: seq<Neighbor>, x: Neighbor, after: seq<Neighbor>)
    requires forall b | b in before :: b.addr != x.addr
    ensures WithoutNeighbor(before + [x] + after, x.addr) == before + after
  {
    var all := before + [x] + after;
    assert all[|before|] == x;
    assert forall k | 0 <= k < |before| :: all[k] == before[k] && all[k] in before;
    assert FindNeighbor(all, x.addr) == Some(|before|);
    assert all[..|before|] == before && all[|before| + 1..] == after;
  }

  lemma FreshExpiry(nbrs: seq<Neighbor>, k: nat, now: real)
    requires UniqueNeighbors(nbrs) && k < |nbrs|
    ensures nbrs[k].addr !in Expired(nbrs[..k], now)
    ensures forall b | b in Unexpired(nbrs[..k], now) :: b.addr != nbrs[k].addr
  {
    ExpiredMember(nbrs[..k], now, nbrs[k].addr);
    forall b | b in Unexpired(nbrs[..k], now) ensures b.addr != nbrs[k].addr {
      UnexpiredMember(nbrs[..k], now, b);
    }
  }

  /** What becomes of the packets queued for expired neighbours: neighbour by neighbour, each once those up to and
      including it are lost. */
  function PurgeFates(n: Node, nbrs: seq<Neighbor>, now: real): seq<Out> {
    if nbrs == [] then []
    else
      var last := |nbrs| - 1;
      PurgeFates(n, nbrs[..last], now) +
      if nbrs[last].expire <= now then Fates(n, BoundFor(n.ifq, nbrs[last].addr), Expired(nbrs, now)) else []
  }

  /** The loop of nb_purge after the neighbours `pre`, with `post` still to come. */
  ghost predicate Purged(n: Node, r: Node, pre: seq<Neighbor>, post: seq<Neighbor>, now: real) {
    && RoutesLeft(n, r, Expired(pre, now)) && r.ifq == Outside(n.ifq, Expired(pre, now))
    && r.nbrs == Unexpired(pre, now) + post && r.seqno == n.seqno + 2 * |Expired(pre, now)|
    && DataOuts(r.out) == DataOuts(n.out) + PurgeFates(n, pre, now)
  }

  lemma NeighborsNext(nbrs: seq<Neighbor>, init: seq<Neighbor>, x: Neighbor, post: seq<Neighbor>, now: real)
    requires nbrs == init + ([x] + post) && UniqueNeighbors(nbrs) && x.expire <= now
    ensures WithoutNeighbor(Unexpired(init, now) + ([x] + post), x.addr) == Unexpired(init + [x], now) + post
    ensures x.addr !in Expired(init, now) && Expired(init + [x], now) == Expired(init, now) + {x.addr}
  {
    assert nbrs[..|init|] == init && nbrs[|init|] == x;
    FreshExpiry(nbrs, |init|, now);
    assert Unexpired(init, now) + ([x] + post) == Unexpired(init, now) + [x] + post;
    RemoveMiddle(Unexpired(init, now), x, post);
    assert (init + [x])[..|init|] == init;
  }

  lemma PurgeFatesNext(n: Node, init: seq<Neighbor>, x: Neighbor, outs: seq<Out>, now: real)
    requires x.expire <= now
    ensures (outs + PurgeFates(n, init, now)) + Fates(n, BoundFor(n.ifq, x.addr), Expired(init + [x], now)) ==
            outs + PurgeFates(n, init + [x], now)
  {
    assert (init + [x])[..|init|] == init;
  }

  lemma PurgedNext(n: Node, r: Node, r': Node, init: seq<Neighbor>, x: Neighbor, post: seq<Neighbor>, now: real)
    requires Purged(n, r, init, [x] + post, now)
    requires n.nbrs == init + ([x] + post) && UniqueNeighbors(n.nbrs) && x.expire <= now
    requires RoutesLeft(n, r', Expired(init, now) + {x.addr}) && r'.ifq == Outside(r.ifq, {x.addr})
    requires r'.nbrs == WithoutNeighbor(r.nbrs, x.addr) && r'.seqno == r.seqno + 2
    requires DataOuts(r'.out) == DataOuts(r.out) + Fates(n, BoundFor(r.ifq, x.addr), Expired(init, now) + {x.addr})
    ensures Purged(n, r', init + [x], post, now)
  {
    OutsideTwice(n.ifq, Expired(init, now), x.addr);
    NeighborsNext(n.nbrs, init, x, post, now);
    BoundOutside(n.ifq, Expired(init, now), x.addr);
    PurgeFatesNext(n, init, x, DataOuts(n.out), now);
  }

  /** Packets bound for one lost neighbour are not touched by losing others. */
  lemma {:induction false} BoundOutside(q: seq<Pkt>, gone: set<Addr>, id: Addr)
    requires id !in gone
    ensures BoundFor(Outside(q, gone), id) == BoundFor(q, id)
  {
    if q != [] {
      BoundOutside(q[1..], gone, id);
      if q[0].nexthop !in gone { assert Outside(q, gone)[1..] == Outside(q[1..], gone); }
    }
  }

  lemma LoseExpiredNext(n: Node, init: seq<Neighbor>, x: Neighbor, post: seq<Neighbor>, now: real, v: View)
    requires Good(n, v) && n.nbrs == init + ([x] + post) && UniqueNeighbors(n.nbrs) && x.expire <= now
    requires Purged(n, LoseExpired(n, init, now), init, [x] + post, now)
    ensures Purged(n, LoseNeighbor(LoseExpired(n, init, now), x.addr, now), init + [x], post, now)
  {
    LoseExpiredGood(n, init, now, v);
    var r := LoseExpired(n, init, now);
    LoseNeighborExact(n, r, x.addr, Expired(init, now), now, v);
    PurgedNext(n, r, LoseNeighbor(r, x.addr, now), init, x, post, now);
  }

  lemma UnexpiredNext(n: Node, r: Node, init: seq<Neighbor>, x: Neighbor, post: seq<Neighbor>, now: real)
    requires Purged(n, r, init, [x] + post, now) && now < x.expire
    ensures Purged(n, r, init + [x], post, now)
  {
    var pre := init + [x];
    assert pre[..|init|] == init;
    assert Unexpired(init, now) + ([x] + post) == Unexpired(pre, now) + post;
  }

  lemma {:induction false} LoseExpiredExact(n: Node, pre: seq<Neighbor>, post: seq<Neighbor>, now: real, v: View)
    requires Good(n, v) && n.nbrs == pre + post && UniqueNeighbors(n.nbrs)
    ensures Purged(n, LoseExpired(n, pre, now), pre, post, now)
    decreases |pre|
  {
    if pre == [] {
      OutsideNothing(n.ifq);
      GoodIsKept(n, v);
      RoutesAtFirst(n);
      assert DataOuts(n.out) + [] == DataOuts(n.out);
    } else {
      var last := |pre| - 1;
      var init, x := pre[..last], pre[last];
      assert pre == init + [x] && n.nbrs == init + ([x] + post);
      LoseExpiredExact(n, init, [x] + post, now, v);
      if x.expire <= now {
        LoseExpiredNext(n, init, x, post, now, v);
      } else {
        UnexpiredNext(n, LoseExpired(n, init, now), init, x, post, now);
      }
    }
  }

  /** nb_purge removes exactly the expired neighbours and raises the node's number by 2 for each; afterwards
      no route and no queued packet uses any of them, and the other packets keep their order. */
  lemma NbPurgeExact(n: Node, now: real, v: View)
    requires Good(n, v)
    ensures var r := NbPurge(n, now);
      && r.nbrs == Unexpired(n.nbrs, now)
      && r.seqno == n.seqno + 2 * |Expired(n.nbrs, now)|
      && r.ifq == Outside(n.ifq, Expired(n.nbrs, now))
      && NoPathVia(r, Expired(n.nbrs, now))
  {
    assert n.nbrs == n.nbrs + [];
    LoseExpiredExact(n, n.nbrs, [], now, v);
    LeftAvoids(n, NbPurge(n, now), Expired(n.nbrs, now));
  }

  /** Over a whole nb_purge each packet queued for an expired neighbour meets its fate, neighbour by neighbour and in
      order, and no other data packet is touched. */
  lemma NbPurgeSends(n: Node, now: real, v: View)
    requires Good(n, v)
    ensures DataOuts(NbPurge(n, now).out) == DataOuts(n.out) + PurgeFates(n, n.nbrs, now)
  {
    assert n.nbrs == n.nbrs + [];
    LoseExpiredExact(n, n.nbrs, [], now, v);
  }

  // ---- When a packet is salvaged to a neighbour that is lost itself ----

  /** Packet `p` is queued for the `j`-th neighbour, which has expired, and the first hop left once the expired ones
      up to it are lost has expired too. */
  ghost predicate SentToLost(n: Node, now: real, j: int, p: Pkt)
    requires 0 <= j < |n.nbrs|
  {
    && n.nbrs[j].expire <= now && p in BoundFor(n.ifq, n.nbrs[j].addr)
    && var gone := Expired(n.nbrs[..j + 1], now);
      && Salvageable(n, p, gone) && p.ttl != 0 && p.dst != n.id
      && HopsLeft(n, p.dst, gone)[0] in Expired(n.nbrs, now)
  }

  /** Output `o` is the fate of a packet queued for the `j`-th neighbour. */
  ghost predicate FateOf(n: Node, now: real, nbrs: seq<Neighbor>, j: int, p: Pkt, o: Out)
    requires 0 <= j < |nbrs|
  {
    && nbrs[j].expire <= now && p in BoundFor(n.ifq, nbrs[j].addr)
    && o == Fate(n, p, Expired(nbrs[..j + 1], now))
  }

  lemma {:induction false} PurgeFatesMember(n: Node, nbrs: seq<Neighbor>, now: real, o: Out)
    ensures o in PurgeFates(n, nbrs, now) <==> exists j, p | 0 <= j < |nbrs| :: FateOf(n, now, nbrs, j, p, o)
  {
    if nbrs != [] {
      var last := |nbrs| - 1;
      var init := nbrs[..last];
      PurgeFatesMember(n, init, now, o);
      assert nbrs[..last + 1] == nbrs;
      forall j, p | 0 <= j < last ensures FateOf(n, now, nbrs, j, p, o) <==> FateOf(n, now, init, j, p, o) {
        assert nbrs[..j + 1] == init[..j + 1];
      }
      LastFates(n, nbrs, now, last, o);
    }
  }

  lemma LastFates(n: Node, nbrs: seq<Neighbor>, now: real, last: int, o: Out)
    requires 0 <= last == |nbrs| - 1
    ensures (nbrs[last].expire <= now && o in Fates(n, BoundFor(n.ifq, nbrs[last].addr), Expired(nbrs, now))) <==>
            exists p :: FateOf(n, now, nbrs, last, p, o)
  {
    assert nbrs[..last + 1] == nbrs;
    var ps := BoundFor(n.ifq, nbrs[last].addr);
    var os := Fates(n, ps, Expired(nbrs, now));
    if nbrs[last].expire <= now && o in os {
      var k :| 0 <= k < |os| && os[k] == o;
      assert FateOf(n, now, nbrs, last, ps[k], o);
    }
    if p :| FateOf(n, now, nbrs, last, p, o) {
      var k :| 0 <= k < |ps| && ps[k] == p;
      assert os[k] == o;
    }
  }

  /** A purge sends a packet to a neighbour that it removes iff some packet queued for an expired neighbour can be
      salvaged and finds, as its first hop left, another expired one that comes later in the list. */
  lemma NbPurgeSendsToLost(n: Node, now: real, v: View)
    requires Good(n, v) && n.out == []
    ensures (exists x :: Transmit(x) in NbPurge(n, now).out && x.nexthop in Expired(n.nbrs, now)) <==>
            (exists j, p | 0 <= j < |n.nbrs| :: SentToLost(n, now, j, p))
  {
    NbPurgeSends(n, now, v);
    assert DataOuts(n.out) + PurgeFates(n, n.nbrs, now) == PurgeFates(n, n.nbrs, now);
    if x :| Transmit(x) in NbPurge(n, now).out && x.nexthop in Expired(n.nbrs, now) {
      DataOutsMember(NbPurge(n, now).out, Transmit(x));
      PurgeFatesMember(n, n.nbrs, now, Transmit(x));
      var j, p :| 0 <= j < |n.nbrs| && FateOf(n, now, n.nbrs, j, p, Transmit(x));
      assert SentToLost(n, now, j, p);
    }
    if j, p :| 0 <= j < |n.nbrs| && SentToLost(n, now, j, p) {
      var o := Fate(n, p, Expired(n.nbrs[..j + 1], now));
      assert FateOf(n, now, n.nbrs, j, p, o);
      PurgeFatesMember(n, n.nbrs, now, o);
      DataOutsMember(NbPurge(n, now).out, o);
      assert o == Transmit(o.p) && o.p.nexthop in Expired(n.nbrs, now);
    }
  }

  /** What `Outside` means: nothing bound for a lost neighbour stays, everything else does. */
  lemma {:induction false} OutsideMember(q: seq<Pkt>, gone: set<Addr>, p: Pkt)
    ensures p in Outside(q, gone) <==> p in q && p.nexthop !in gone
  {
    if q != [] { OutsideMember(q[1..], gone, p); }
  }
}
