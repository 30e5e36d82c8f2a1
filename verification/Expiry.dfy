/** Expiry of paths and routes: after rt_purge no stored path is out of date, and nothing else is lost. */
module Expiry {
  import opened Basics
  import opened Routes
  import opened Buffers
  import opened Nodes
  import opened NodeInvariant
  import opened Network
  import opened Errors

  /** A route's fate when its paths are checked: it keeps its live paths in order, and goes down under a strictly
      larger odd number exactly when none is left. */
  lemma ExpireRouteExact(cfg: Config, d: Addr, e: Entry, now: real)
    requires EntryShape(cfg, d, e) && EntryParity(e) && e.flags.Up?
    ensures var e' := ExpireRoute(e, now);
      && e'.paths == LivePaths(e.paths, now)
      && (e'.flags.Up? <==> e'.paths != [])
      && (if e'.flags.Down?
          then e'.seqno == Max(e.seqno + 1, e.heard) && e'.seqno > e.seqno && e'.seqno % 2 == 1 && e'.adv.None?
          else e'.seqno == e.seqno && e'.adv == e.adv)
      && e' == e.(seqno := e'.seqno, flags := e'.flags, adv := e'.adv, paths := e'.paths, numPaths := |e'.paths|,
                  expire := e'.expire, pruned := e'.pruned)
  {
  }

  /** What rt_purge makes of one route. */
  ghost predicate Expired(e: Entry, e': Entry, now: real) {
    if e.flags.Up? then e' == ExpireRoute(e, now)
    else e'.flags.Down? && e'.paths == e.paths && e'.seqno == e.seqno
  }

  /** One turn of the loop deals with one route and touches no other. */
  lemma PurgeRouteExact(n: Node, d: Addr, now: real)
    requires d in n.table && n.table[d].expire == 0.0 && now > 0.0
    ensures var r := PurgeRoute(n, d, now);
      && r.table.Keys == n.table.Keys
      && (forall k | k in n.table && k != d :: r.table[k] == n.table[k])
      && Expired(n.table[d], r.table[d], now)
  {
    var e := n.table[d];
    if e.flags.Up? {
    } else if FindDst(n.buffer.q, d).Some? {
      AskTable(n, d, now);
    }
  }

  lemma AskTable(n: Node, d: Addr, now: real)
    requires d in n.table && n.table[d].flags.Down?
    ensures var r := SendRequest(n, d, now);
      r.table == n.table[d := r.table[d]] && Expired(n.table[d], r.table[d], now)
  {
  }

  lemma {:induction false} PurgeRoutesExact(n: Node, ds: seq<Addr>, now: real)
    requires now > 0.0 && forall d | d in n.table :: n.table[d].expire == 0.0
    requires forall i, j | 0 <= i < j < |ds| :: ds[i] != ds[j]
    ensures var r := PurgeRoutes(n, ds, now);
      && r.table.Keys == n.table.Keys
      && forall d | d in n.table :: if d in ds then Expired(n.table[d], r.table[d], now) else r.table[d] == n.table[d]
    decreases |ds|
  {
    if ds != [] {
      var last := |ds| - 1;
      var d := ds[last];
      PurgeRoutesExact(n, ds[..last], now);
      assert d !in ds[..last] && ds == ds[..last] + [d];
      if d in n.table { PurgeRouteExact(PurgeRoutes(n, ds[..last], now), d, now); }
    }
  }

  lemma {:induction false} LivePathsLive(ps: seq<Path>, now: real)
    ensures forall k | 0 <= k < |LivePaths(ps, now)| :: now <= LivePaths(ps, now)[k].expire
  {
    if ps != [] { LivePathsLive(ps[1..], now); }
  }

  /** After rt_purge at any time past zero every stored path is live; each UP route has kept exactly its live
      paths, in order, and has gone down under a strictly larger odd number exactly when none was left; no other
      route has lost anything. */
  lemma RtPurgeExact(n: Node, now: real)
    requires WellKept(n) && now > 0.0
    ensures var r := RtPurge(n, now);
      && r.table.Keys == n.table.Keys
      && forall d | d in n.table ::
           var e, e' := n.table[d], r.table[d];
           && e'.paths == LivePaths(e.paths, now)
           && (forall k | 0 <= k < |e'.paths| :: now <= e'.paths[k].expire)
           && (e'.flags.Up? <==> e'.paths != [])
           && (if e.flags.Up? && e'.flags.Down?
               then e'.seqno == Max(e.seqno + 1, e.heard) && e'.seqno > e.seqno && e'.seqno % 2 == 1
               else e'.seqno == e.seqno)
  {
    PurgeRoutesExact(n, n.order, now);
    var r := RtPurge(n, now);
    forall d | d in n.table
      ensures var e, e' := n.table[d], r.table[d];
        && e'.paths == LivePaths(e.paths, now)
        && (forall k | 0 <= k < |e'.paths| :: now <= e'.paths[k].expire)
        && (e'.flags.Up? <==> e'.paths != [])
        && (if e.flags.Up? && e'.flags.Down?
            then e'.seqno == Max(e.seqno + 1, e.heard) && e'.seqno > e.seqno && e'.seqno % 2 == 1
            else e'.seqno == e.seqno)
    {
      assert EntryShape(n.cfg, d, n.table[d]) && Expired(n.table[d], r.table[d], now);
      LivePathsLive(n.table[d].paths, now);
      if n.table[d].flags.Up? { ExpireRouteExact(n.cfg, d, n.table[d], now); }
    }
  }

  /** The same in every reachable network state, whose nodes all satisfy the premise. */
  lemma ReachableIsKept(net: Net, i: Addr)
    requires Reachable(net) && i in net.nodes
    ensures WellKept(net.nodes[i]) && UniqueNeighbors(net.nodes[i].nbrs) && UniqueIds(net.nodes[i].ids)
  {
    ReachableSafe(net);
    forall d | d in net.nodes[i].table
      ensures EntryShape(net.nodes[i].cfg, d, net.nodes[i].table[d]) && EntryParity(net.nodes[i].table[d])
    {
      assert EntryOk(ViewOf(net, i), d, net.nodes[i].table[d]);
    }
  }
}
