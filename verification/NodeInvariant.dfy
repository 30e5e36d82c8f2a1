/** What every handler keeps at one node: the shape of the route table, the parity of sequence
    numbers, and that everything the node has ever advertised still fits its table. */
module NodeInvariant {
  import opened Basics
  import opened Routes
  import opened Nodes

  // ---- Entries ----

  ghost predicate DistinctHops(ps: seq<Path>) {
    forall i, j | 0 <= i < j < |ps| :: ps[i].nexthop != ps[j].nexthop && ps[i].lasthop != ps[j].lasthop
  }

  ghost predicate WithinAdvertised(e: Entry) {
    e.adv.Some? ==> e.adv.value >= 1 && forall k | 0 <= k < |e.paths| :: e.paths[k].hopcount <= e.adv.value
  }

  /** What is fixed while a handler runs: the node as it was when the handler started, every
      advertisement made anywhere so far, and every node's own sequence number. */
  datatype View = View(start: Node, log: set<Advert>, own: map<Addr, nat>)

  /** The destination's own number; an address without a node never gets one. */
  function Limit(own: map<Addr, nat>, d: Addr): nat {
    if d in own then own[d] else 0
  }

  ghost predicate EvenLimits(own: map<Addr, nat>) {
    forall d | d in own :: own[d] % 2 == 0
  }

  /** The table invariant of the entry about destination `d`. */
  ghost predicate EntryOk(v: View, d: Addr, e: Entry) {
    && EntryShape(v.start.cfg, d, e)
    && EntryParity(e)
    && Justified(v.start.id, e, v.log)
    && e.seqno <= Limit(v.own, d) + 1 && e.heard <= Limit(v.own, d) + 1
    && (d == v.start.id ==> e.seqno == 0)
  }

  /** A route is up exactly when it has a path; the stored count is the number of paths; next hops
      and last hops are pairwise distinct; no path is longer than what has been advertised. */
  ghost predicate EntryShape(cfg: Config, d: Addr, e: Entry) {
    && e.dst == d
    && e.numPaths == |e.paths|
    && (|e.paths| <= 1 || |e.paths| <= cfg.maxPaths)
    && (e.flags.Up? <==> e.paths != [])
    && (forall k | 0 <= k < |e.paths| :: e.paths[k].hopcount >= 1)
    && DistinctHops(e.paths)
    && WithinAdvertised(e)
    && e.expire == 0.0
    && e.latency == NO_LATENCY
    && RequestState(e)
  }

  /** The count of network-wide requests is bounded, and it is positive only once they have gone network-wide. */
  ghost predicate RequestState(e: Entry) {
    && e.reqCnt <= RREQ_RETRIES + 1 && e.reqTtl <= NETWORK_DIAMETER
    && (e.reqCnt > 0 ==> e.reqTtl == NETWORK_DIAMETER)
  }

  ghost predicate EntryParity(e: Entry) {
    && (e.flags.Up? ==> e.seqno >= 2 && e.seqno % 2 == 0)
    && (e.flags.Down? ==> (e.seqno == 0 || e.seqno % 2 == 1) && e.adv.None?)
    && (e.heard == 0 || e.heard % 2 == 1)
  }

  /** How one entry may change: its number never falls, and while it stays the same an
      advertised hop count is kept and, unless a path was removed, so is the preferred path. */
  ghost predicate Evolves(e: Entry, e': Entry) {
    && e'.dst == e.dst
    && e.seqno <= e'.seqno
    && (e.seqno == e'.seqno ==>
          && (e.adv.Some? ==> e'.adv == e.adv)
          && (e'.pruned || (!e.pruned && SameHead(e, e'))))
  }

  ghost predicate SameHead(e: Entry, e': Entry) {
    e.paths != [] ==> e'.paths != [] && SamePath(e.paths[0], e'.paths[0])
  }

  /** The same path, but for its lifetime. */
  predicate SamePath(p: Path, p': Path) {
    p' == p.(expire := p'.expire)
  }

  /** The advertisement a stored path was learned from. */
  function Source(d: Addr, s: nat, p: Path): Advert
    requires p.hopcount >= 1
  {
    Advert(p.nexthop, d, s, p.hopcount - 1, if p.hopcount == 1 then None else Some(p.lasthop))
  }

  /** The path was learned from an advertisement in `log`; one-hop paths lead to the destination itself. */
  ghost predicate JustifiedPath(me: Addr, d: Addr, s: nat, p: Path, log: set<Advert>) {
    && p.hopcount >= 1
    && Source(d, s, p) in log
    && (p.hopcount == 1 ==> p.nexthop == d && p.lasthop == me)
  }

  /** Every stored path was learned from an advertisement somebody made. */
  ghost predicate Justified(me: Addr, e: Entry, log: set<Advert>) {
    forall k | 0 <= k < |e.paths| :: JustifiedPath(me, e.dst, e.seqno, e.paths[k], log)
  }

  // ---- Messages ----

  /** A message in flight: its TTL has not run out. */
  ghost predicate LiveTtl(m: Msg) {
    match m
    case Rreq(rq) => rq.ttl >= 1
    case Rrep(rp) => rp.ttl >= 1
    case Hello(hi) => hi.ttl >= 1
    case Rerr(re) => re.ttl >= 1
  }

  /** What holds of every message, in flight or being handled. */
  ghost predicate MsgOk(m: Msg) {
    match m
    case Rreq(rq) =>
      && rq.ttl >= 0
      && rq.srcSeqno >= 2 && rq.srcSeqno % 2 == 0
      && (rq.hopCount == 0 ==> rq.ipSrc == rq.src)
    case Rrep(rp) =>
      && rp.ttl >= 0
      && rp.dstSeqno >= 2 && rp.dstSeqno % 2 == 0
      && (rp.hopCount == 0 ==> rp.rpSrc == rp.dst && rp.firstHop == rp.nextHop)
    case Hello(hi) => hi.ttl >= 0 && hi.dstSeqno >= 2 && hi.dstSeqno % 2 == 0 && hi.ipSrc == hi.dst
    case Rerr(re) => forall k | 0 <= k < |re.dests| :: re.dests[k].1 == 0 || re.dests[k].1 % 2 == 1
  }

  /** No number in a message exceeds the number of the node it is about by more than one, and
      the number a route is advertised under does not exceed it at all. */
  ghost predicate MsgWithin(m: Msg, own: map<Addr, nat>) {
    match m
    case Rreq(rq) => rq.srcSeqno <= Limit(own, rq.src) && rq.dstSeqno <= Limit(own, rq.dst) + 1
    case Rrep(rp) => rp.dstSeqno <= Limit(own, rp.dst)
    case Hello(hi) => hi.dstSeqno <= Limit(own, hi.dst)
    case Rerr(re) => forall k | 0 <= k < |re.dests| :: re.dests[k].1 <= Limit(own, re.dests[k].0) + 1
  }

  /** Unicast messages reach only their next hop. */
  ghost predicate Addressed(m: Msg, to: Addr) {
    m.Rrep? ==> m.rp.nextHop == to
  }

  // ---- Nodes ----

  /** An advertisement the node made earlier fits its present state. */
  ghost predicate Honest(n: Node, a: Advert) {
    && a.sender == n.id
    && if a.dst == n.id then a.hops == 0 && a.last.None? && a.seqno <= n.seqno
       else
         && a.hops >= 1 && a.last.Some? && a.dst in n.table
         && StillTrue(n.table[a.dst], a)
  }

  ghost predicate StillTrue(e: Entry, a: Advert) {
    && a.seqno <= e.seqno
    && (a.seqno == e.seqno ==>
          && e.adv == Some(a.hops)
          && e.paths != []
          && (!e.pruned ==> a.last == Some(e.paths[0].lasthop)))
  }

  ghost predicate SameClaim(a: Advert, b: Advert) {
    a.dst == b.dst && a.seqno == b.seqno ==> a.hops == b.hops
  }

  ghost predicate Listed(n: Node) {
    && (forall d :: d in n.table <==> d in n.order)
    && (forall i, j | 0 <= i < j < |n.order| :: n.order[i] != n.order[j])
  }

  ghost predicate UniqueIds(ids: seq<BroadcastId>) {
    forall i, j | 0 <= i < j < |ids| :: ids[i].src != ids[j].src || ids[i].id != ids[j].id
  }

  ghost predicate UniqueNeighbors(nbrs: seq<Neighbor>) {
    forall i, j | 0 <= i < j < |nbrs| :: nbrs[i].addr != nbrs[j].addr
  }

  ghost predicate OutOk(n: Node, v: View, o: Out) {
    o.Send? ==> MsgOk(o.m) && LiveTtl(o.m) && Adverts(o.m) <= n.said && MsgWithin(o.m, v.own[n.id := n.seqno])
  }

  ghost predicate TableOk(n: Node, v: View) {
    forall d | d in n.table :: EntryOk(v, d, n.table[d])
  }

  ghost predicate Truthful(n: Node) {
    && (forall a | a in n.said :: Honest(n, a))
    && (forall a, b | a in n.said && b in n.said :: SameClaim(a, b))
  }

  /** The node is a later state of `start`: nothing said is forgotten and no number has fallen. */
  ghost predicate Since(start: Node, n: Node) {
    && n.id == start.id && n.cfg == start.cfg && start.seqno <= n.seqno && start.said <= n.said
    && forall d | d in start.table :: d in n.table && start.table[d].seqno <= n.table[d].seqno
  }

  /** The invariant of one node. */
  ghost predicate Good(n: Node, v: View) {
    && n.seqno >= 2 && n.seqno % 2 == 0
    && Since(v.start, n)
    && EvenLimits(v.own) && Limit(v.own, n.id) <= n.seqno
    && Listed(n)
    && TableOk(n, v)
    && Truthful(n)
    && (forall o | o in n.out :: OutOk(n, v, o))
    && UniqueIds(n.ids)
    && UniqueNeighbors(n.nbrs)
    && |n.buffer.q| <= RTQ_MAX_LEN
  }

  // ---- One entry changes ----

  lemma PutGood(n: Node, d: Addr, e': Entry, v: View)
    requires Good(n, v) && d in n.table
    requires EntryOk(v, d, e') && Evolves(n.table[d], e')
    ensures Good(Put(n, d, e'), v)
  {
    var n' := Put(n, d, e');
    forall a | a in n'.said ensures Honest(n', a) {
      assert Honest(n, a);
    }
  }

  lemma AdoptOk(v: View, d: Addr, e: Entry, o: Offer)
    requires EvenLimits(v.own) && EntryOk(v, d, e)
    requires d != v.start.id && e.seqno < o.seqno && o.seqno % 2 == 0
    requires JustifiedPath(v.start.id, d, o.seqno, OfferedPath(o), v.log) && o.seqno <= Limit(v.own, d)
    ensures var e' := Adopt(e, o); EntryOk(v, d, e') && Evolves(e, e') && e'.flags.Up?
  {
  }

  lemma ExtendOk(v: View, d: Addr, e: Entry, k: nat, expire: real)
    requires EvenLimits(v.own) && EntryOk(v, d, e) && k < |e.paths|
    ensures var e' := Extend(e, k, expire); EntryOk(v, d, e') && Evolves(e, e')
  {
  }

  lemma AppendOk(v: View, d: Addr, e: Entry, o: Offer)
    requires EvenLimits(v.own) && EntryOk(v, d, e)
    requires e.seqno == o.seqno && o.seqno >= 2 && o.seqno % 2 == 0
    requires Above(e.adv, o.hops) && NewDisjoint(e.paths, o.via, o.lasthop) && e.numPaths < v.start.cfg.maxPaths
    requires JustifiedPath(v.start.id, d, o.seqno, OfferedPath(o), v.log) && o.seqno <= Limit(v.own, d)
    ensures var e' := Append(e, o); EntryOk(v, d, e') && Evolves(e, e')
  {
  }

  lemma LearnReverseOk(v: View, d: Addr, e: Entry, o: Offer, forMe: bool)
    requires EvenLimits(v.own) && EntryOk(v, d, e)
    requires d != v.start.id && o.seqno >= 2 && o.seqno % 2 == 0
    requires JustifiedPath(v.start.id, d, o.seqno, OfferedPath(o), v.log) && o.seqno <= Limit(v.own, d)
    ensures var (e', verdict) := LearnReverse(v.start.cfg, e, o, forMe);
      EntryOk(v, d, e') && Evolves(e, e') &&
      (verdict.Keep? ==> e'.flags.Up? && e'.seqno == o.seqno)
  {
    var e' := LearnReverse(v.start.cfg, e, o, forMe).0;
    var f := FindPair(e.paths, o.via, o.lasthop);
    if e.seqno < o.seqno {
      AdoptOk(v, d, e, o);
      assert e' == Adopt(e, o);
    } else if e.seqno != o.seqno || !Above(e.adv, o.hops) {
      assert e' == e;
    } else if f.Some? {
      ExtendOk(v, d, e, f.value, o.expire);
      assert e' == Extend(e, f.value, o.expire);
    } else if NewDisjoint(e.paths, o.via, o.lasthop) && HasRoom(v.start.cfg, e, o.hops) {
      AppendOk(v, d, e, o);
      assert e' == Append(e, o);
    } else {
      assert e' == e;
    }
  }

  lemma LearnForwardOk(v: View, d: Addr, e: Entry, o: Offer)
    requires EvenLimits(v.own) && EntryOk(v, d, e)
    requires d != v.start.id && o.seqno >= 2 && o.seqno % 2 == 0
    requires JustifiedPath(v.start.id, d, o.seqno, OfferedPath(o), v.log) && o.seqno <= Limit(v.own, d)
    ensures var (e', kept) := LearnForward(v.start.cfg, e, o);
      EntryOk(v, d, e') && Evolves(e, e') &&
      (kept ==> e'.flags.Up? && e'.seqno == o.seqno)
  {
    var e' := LearnForward(v.start.cfg, e, o).0;
    var f := FindPair(e.paths, o.via, o.lasthop);
    if e.seqno < o.seqno {
      AdoptOk(v, d, e, o);
      assert e' == Adopt(e, o);
    } else if e.seqno != o.seqno || !Above(e.adv, o.hops) {
      assert e' == e;
    } else if f.Some? {
      ExtendOk(v, d, e, f.value, o.expire);
      assert e' == Extend(e, f.value, o.expire);
    } else if NewDisjoint(e.paths, o.via, o.lasthop) && HasRoom(v.start.cfg, e, o.hops) {
      AppendOk(v, d, e, o);
      assert e' == Append(e, o);
    } else {
      assert e' == e;
    }
  }

  lemma AdvertiseOk(v: View, d: Addr, e: Entry)
    requires EvenLimits(v.own) && EntryOk(v, d, e) && e.flags.Up?
    ensures var e' := Advertise(e);
      EntryOk(v, d, e') && Evolves(e, e') && e'.adv.Some? && e'.paths == e.paths
  {
    assert e.paths[0].hopcount <= MaxHops(e.paths);
  }

  lemma DeleteHopOk(v: View, d: Addr, e: Entry, id: Addr)
    requires EvenLimits(v.own) && EntryOk(v, d, e) && FindHop(e.paths, id).Some?
    ensures var e' := DeleteHop(e, id);
      && |e'.paths| == |e.paths| - 1
      && (e'.paths != [] ==> EntryOk(v, d, e') && Evolves(e, e'))
      && forall p | p in e'.paths :: p.nexthop != id
  {
    var k := FindHop(e.paths, id).value;
    var e' := DeleteHop(e, id);
    assert forall i | 0 <= i < |e'.paths| :: e'.paths[i] == e.paths[if i < k then i else i + 1];
  }

  lemma FailRouteOk(v: View, d: Addr, e: Entry, id: Addr)
    requires EvenLimits(v.own) && EntryOk(v, d, e)
    ensures var e' := FailRoute(e, id);
      && EntryOk(v, d, e') && Evolves(e, e')
      && forall p | p in e'.paths :: p.nexthop != id
  {
    if e.flags.Up? && FindHop(e.paths, id).Some? {
      DeleteHopOk(v, d, e, id);
    }
  }

  lemma ErrorRouteOk(v: View, d: Addr, e: Entry, from: Addr, s: nat)
    requires EvenLimits(v.own) && EntryOk(v, d, e) && (s == 0 || s % 2 == 1) && s <= Limit(v.own, d) + 1
    ensures var e' := ErrorRoute(e, from, s);
      EntryOk(v, d, e') && Evolves(e, e')
  {
    if e.flags.Up? && FindHop(e.paths, from).Some? && e.seqno <= s {
      DeleteHopOk(v, d, e, from);
    }
  }

  lemma PrependDistinct(p: Path, rest: seq<Path>)
    requires DistinctHops(rest)
    requires forall q | q in rest :: q.nexthop != p.nexthop && q.lasthop != p.lasthop
    ensures DistinctHops([p] + rest)
  {
    var all := [p] + rest;
    assert forall k | 1 <= k < |all| :: all[k] == rest[k - 1] && all[k] in rest;
  }

  lemma {:induction false} LivePathsDistinct(ps: seq<Path>, now: real)
    requires DistinctHops(ps)
    ensures DistinctHops(LivePaths(ps, now))
  {
    if ps != [] {
      var rest := ps[1..];
      assert DistinctHops(rest);
      LivePathsDistinct(rest, now);
      forall q | q in LivePaths(rest, now) ensures q.nexthop != ps[0].nexthop && q.lasthop != ps[0].lasthop {
        var k :| 0 <= k < |rest| && rest[k] == q;
        assert q == ps[k + 1];
      }
      PrependDistinct(ps[0], LivePaths(rest, now));
    }
  }

  lemma PurgePathsOk(v: View, d: Addr, e: Entry, now: real)
    requires EvenLimits(v.own) && EntryOk(v, d, e) && e.flags.Up? && LivePaths(e.paths, now) != []
    ensures EntryOk(v, d, PurgePaths(e, now)) && Evolves(e, PurgePaths(e, now))
  {
    LivePathsDistinct(e.paths, now);
    var live := LivePaths(e.paths, now);
    forall k | 0 <= k < |live|
      ensures JustifiedPath(v.start.id, d, e.seqno, live[k], v.log)
      ensures e.adv.Some? ==> live[k].hopcount <= e.adv.value
    {
      var i :| 0 <= i < |e.paths| && e.paths[i] == live[k];
    }
  }

  lemma ExpireRouteOk(v: View, d: Addr, e: Entry, now: real)
    requires EvenLimits(v.own) && EntryOk(v, d, e) && e.flags.Up?
    ensures var e' := ExpireRoute(e, now);
      EntryOk(v, d, e') && Evolves(e, e')
  {
    if LivePaths(e.paths, now) != [] { PurgePathsOk(v, d, e, now); }
  }
}
