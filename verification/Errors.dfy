/** What a broken link or an error message does to a node's routes, exactly, and why a cascade of
    error messages ends. */
module Errors {
  import opened Basics
  import opened Routes
  import opened Nodes
  import opened NodeInvariant
  import opened NodeSteps
  import opened Network
  import opened Outbox

  // ---- Paths that do not use a next hop ----

  /** All paths not through `id`, in order. */
  function Avoiding(ps: seq<Path>, id: Addr): (r: seq<Path>)
    ensures forall p :: p in r <==> p in ps && p.nexthop != id
  {
    if ps == [] then []
    else if ps[0].nexthop == id then Avoiding(ps[1..], id)
    else [ps[0]] + Avoiding(ps[1..], id)
  }

  lemma {:induction false} AvoidingAll(ps: seq<Path>, id: Addr)
    requires forall k | 0 <= k < |ps| :: ps[k].nexthop != id
    ensures Avoiding(ps, id) == ps
  {
    if ps != [] { AvoidingAll(ps[1..], id); }
  }

  lemma {:induction false} AvoidingConcat(a: seq<Path>, b: seq<Path>, id: Addr)
    ensures Avoiding(a + b, id) == Avoiding(a, id) + Avoiding(b, id)
  {
    if a == [] {
      assert a + b == b;
    } else {
      assert (a + b)[1..] == a[1..] + b;
      AvoidingConcat(a[1..], b, id);
    }
  }

  /** Next hops are distinct, so dropping the first path through `id` drops all of them. */
  lemma DeleteIsAvoid(ps: seq<Path>, id: Addr)
    requires forall i, j | 0 <= i < j < |ps| :: ps[i].nexthop != ps[j].nexthop
    ensures match FindHop(ps, id) case None => Avoiding(ps, id) == ps
            case Some(k) => Avoiding(ps, id) == ps[..k] + ps[k + 1..]
  {
    match FindHop(ps, id)
    case None => AvoidingAll(ps, id);
    case Some(k) => AvoidingOthers(ps, id, k);
  }

  lemma {:induction false} AvoidingOthers(ps: seq<Path>, id: Addr, k: nat)
    requires k < |ps| && ps[k].nexthop == id && forall i | 0 <= i < |ps| && i != k :: ps[i].nexthop != id
    ensures Avoiding(ps, id) == ps[..k] + ps[k + 1..]
  {
    var before, one, after := ps[..k], [ps[k]], ps[k + 1..];
    assert ps == before + (one + after);
    AvoidingConcat(before, one + after, id);
    AvoidingAll(before, id);
    AvoidingAll(after, id);
    assert (one + after)[1..] == after;
  }

  // ---- One route ----

  /** What becomes of a route when the link to `id` breaks: it keeps its other paths in order, and goes down under the
      next odd number, or the newest heard of, exactly when none is left. */
  ghost predicate Cut(e: Entry, e': Entry, id: Addr) {
    && e'.paths == Avoiding(e.paths, id)
    && (e'.flags.Up? <==> e'.paths != [])
    && (if e.flags.Up? && e'.flags.Down?
        then e'.seqno == Max(e.seqno + 1, e.heard) && e'.seqno > e.seqno && e'.seqno % 2 == 1 &&
             e'.adv.None? && !e'.rtError
        else e'.seqno == e.seqno && e'.adv == e.adv && e'.rtError == e.rtError)
    && e' == e.(seqno := e'.seqno, flags := e'.flags, adv := e'.adv, paths := e'.paths, numPaths := |e'.paths|,
                rtError := e'.rtError, expire := e'.expire, pruned := e'.pruned)
  }

  /** The route loses its first path through `id`. */
  lemma DeleteExact(e: Entry, id: Addr)
    requires FindHop(e.paths, id).Some? && DistinctHops(e.paths)
    ensures var e' := DeleteHop(e, id);
      e' == e.(paths := Avoiding(e.paths, id), numPaths := e.numPaths - 1, pruned := true) &&
      |e'.paths| == |e.paths| - 1
  {
    DeleteIsAvoid(e.paths, id);
  }

  /** The route's fate when the link to `id` breaks, said without the deletion. */
  lemma FailRouteExact(cfg: Config, d: Addr, e: Entry, id: Addr)
    requires EntryShape(cfg, d, e) && EntryParity(e)
    ensures Cut(e, FailRoute(e, id), id)
  {
    if e.flags.Up? && FindHop(e.paths, id).Some? {
      DeleteExact(e, id);
    } else {
      DeleteIsAvoid(e.paths, id);
      assert FailRoute(e, id) == e;
    }
  }

  // ---- handle_link_failure ----

  /** The notices for the routes `ds`, in that order. */
  function Notices(n: Node, id: Addr, ds: seq<Addr>): seq<(Addr, nat)> {
    if ds == [] then []
    else
      var last := |ds| - 1;
      var d := ds[last];
      Notices(n, id, ds[..last]) + if d in n.table then Notice(n.table[d], FailRoute(n.table[d], id)) else []
  }

  lemma {:induction false} FailAllPointwise(n: Node, id: Addr, ds: seq<Addr>)
    requires forall i, j | 0 <= i < j < |ds| :: ds[i] != ds[j]
    ensures var (r, told) := FailAll(n, id, ds);
      && r.table.Keys == n.table.Keys
      && (forall d | d in n.table :: r.table[d] == if d in ds then FailRoute(n.table[d], id) else n.table[d])
      && told == Notices(n, id, ds)
    decreases |ds|
  {
    if ds != [] {
      var last := |ds| - 1;
      var init := ds[..last];
      FailAllPointwise(n, id, init);
      assert ds == init + [ds[last]];
      assert forall k | 0 <= k < last :: init[k] == ds[k];
      assert ds[last] !in init;
    }
  }

  /** Route `d` goes down when the link to `id` breaks, and upstream nodes must hear of it. */
  ghost predicate Reported(n: Node, id: Addr, d: Addr) {
    && d in n.table && n.table[d].rtError
    && n.table[d].flags.Up? && Avoiding(n.table[d].paths, id) == []
  }

  ghost predicate DistinctKeys(xs: seq<(Addr, nat)>) {
    forall i, j | 0 <= i < j < |xs| :: xs[i].0 != xs[j].0
  }

  ghost predicate WellKept(n: Node) {
    Listed(n) && forall d | d in n.table :: EntryShape(n.cfg, d, n.table[d]) && EntryParity(n.table[d])
  }

  lemma {:induction false} NoticesExact(n: Node, id: Addr, ds: seq<Addr>)
    requires WellKept(n) && forall i, j | 0 <= i < j < |ds| :: ds[i] != ds[j]
    ensures var told := Notices(n, id, ds);
      && DistinctKeys(told)
      && (forall d, s :: (d, s) in told <==> d in ds && Reported(n, id, d) && s == FailRoute(n.table[d], id).seqno)
    decreases |ds|
  {
    if ds != [] {
      var last := |ds| - 1;
      var d := ds[last];
      NoticesExact(n, id, ds[..last]);
      assert ds == ds[..last] + [d];
      if d in n.table { FailRouteExact(n.cfg, d, n.table[d], id); }
      var told := Notices(n, id, ds[..last]);
      assert forall k | 0 <= k < |told| :: told[k].0 in ds[..last] by {
        forall k | 0 <= k < |told| ensures told[k].0 in ds[..last] {
          assert (told[k].0, told[k].1) in told;
        }
      }
    }
  }

  lemma LinkFailureRoutes(n: Node, id: Addr)
    requires WellKept(n)
    ensures var r := LinkFailure(n, id);
      && r.table.Keys == n.table.Keys
      && forall d | d in n.table :: r.table[d] == FailRoute(n.table[d], id) && Cut(n.table[d], r.table[d], id)
  {
    FailAllPointwise(n, id, n.order);
    forall d | d in n.table
      ensures LinkFailure(n, id).table[d] == FailRoute(n.table[d], id) && Cut(n.table[d], FailRoute(n.table[d], id), id)
    {
      FailRouteExact(n.cfg, d, n.table[d], id);
    }
  }

  lemma LinkFailureNotices(n: Node, id: Addr)
    requires WellKept(n)
    ensures var told := Notices(n, id, n.order);
      && LinkFailure(n, id).out == n.out + (if told == [] then [] else [Send(Rerr(Error(n.id, 1, told)))])
      && DistinctKeys(told)
      && forall d, s :: (d, s) in told <==> Reported(n, id, d) && s == FailRoute(n.table[d], id).seqno
  {
    FailAllPointwise(n, id, n.order);
    FailAllOnlyTable(n, id, n.order);
    NoticesExact(n, id, n.order);
  }

  /** Link failure is exact. Every route keeps its other paths in order; it goes down exactly when none
      is left, under a strictly larger odd number; and one error message names exactly the routes that
      went down with rt_error set, once each, with their new numbers. */
  lemma LinkFailureExact(n: Node, id: Addr)
    requires WellKept(n)
    ensures var r := LinkFailure(n, id);
      && r == n.(table := r.table, out := r.out) && r.table.Keys == n.table.Keys
      && forall d | d in n.table :: Cut(n.table[d], r.table[d], id)
    ensures var told := Notices(n, id, n.order);
      && LinkFailure(n, id).out == n.out + (if told == [] then [] else [Send(Rerr(Error(n.id, 1, told)))])
      && DistinctKeys(told)
      && forall d, s :: (d, s) in told <==> Reported(n, id, d) && s == LinkFailure(n, id).table[d].seqno
  {
    LinkFailureRoutes(n, id);
    LinkFailureNotices(n, id);
    FailAllOnlyTable(n, id, n.order);
    assert LinkFailure(n, id).said == n.said;
  }

  // ---- recvError ----

  /** The conditions under which an error message removes the path through its sender. */
  ghost predicate Hit(e: Entry, from: Addr, s: nat) {
    e.flags.Up? && FindHop(e.paths, from).Some? && e.seqno <= s
  }

  /** What becomes of a route that number `s` in an error message hits: the number is remembered; the route keeps its
      other paths in order, and goes down under the newest number heard of exactly when none is left. */
  ghost predicate Struck(e: Entry, e': Entry, from: Addr, s: nat) {
    && e.flags.Up? && e'.paths == Avoiding(e.paths, from) && e'.heard == Max(e.heard, s)
    && (e'.flags.Up? <==> e'.paths != [])
    && (if e'.flags.Down?
        then e'.seqno == e'.heard && e'.seqno > e.seqno && e'.seqno % 2 == 1 && e'.adv.None? && !e'.rtError
        else e'.seqno == e.seqno && e'.adv == e.adv && e'.rtError == e.rtError)
    && e' == e.(seqno := e'.seqno, flags := e'.flags, adv := e'.adv, paths := e'.paths, numPaths := e'.numPaths,
                heard := e'.heard, rtError := e'.rtError, expire := e'.expire, pruned := e'.pruned)
  }

  lemma ErrorRouteExact(e: Entry, from: Addr, s: nat)
    requires DistinctHops(e.paths) && EntryParity(e) && (s == 0 || s % 2 == 1)
    ensures if Hit(e, from, s) then Struck(e, ErrorRoute(e, from, s), from, s) else ErrorRoute(e, from, s) == e
  {
    if Hit(e, from, s) {
      DeleteIsAvoid(e.paths, from);
      assert DeleteHop(e, from).paths == Avoiding(e.paths, from);
    }
  }

  /** Some entry of `dests` about `d` hits the route. */
  ghost predicate HitBy(e: Entry, from: Addr, d: Addr, dests: seq<(Addr, nat)>) {
    exists k | 0 <= k < |dests| :: dests[k].0 == d && Hit(e, from, dests[k].1)
  }

  /** The `k`-th entry of `dests` is the first about `d` that hits the route. */
  ghost predicate FirstHit(e: Entry, from: Addr, d: Addr, dests: seq<(Addr, nat)>, k: int) {
    && 0 <= k < |dests| && dests[k].0 == d && Hit(e, from, dests[k].1)
    && forall j | 0 <= j < k && dests[j].0 == d :: !Hit(e, from, dests[j].1)
  }

  /** What the loop has done to one route after the entries `dests`: the first that hits it counts. */
  ghost predicate Handled(e: Entry, e': Entry, from: Addr, d: Addr, dests: seq<(Addr, nat)>) {
    if HitBy(e, from, d, dests) then exists k :: FirstHit(e, from, d, dests, k) && Struck(e, e', from, dests[k].1)
    else e' == e
  }

  lemma HitByNext(e: Entry, from: Addr, d: Addr, dests: seq<(Addr, nat)>, x: (Addr, nat))
    ensures HitBy(e, from, d, dests + [x]) <==> HitBy(e, from, d, dests) || (x.0 == d && Hit(e, from, x.1))
  {
    var all := dests + [x];
    if HitBy(e, from, d, dests) {
      var k :| 0 <= k < |dests| && dests[k].0 == d && Hit(e, from, dests[k].1);
      assert all[k] == dests[k];
    }
    assert all[|dests|] == x;
  }

  lemma HandledNext(e: Entry, e': Entry, from: Addr, d: Addr, dests: seq<(Addr, nat)>, s: nat)
    requires Handled(e, e', from, d, dests)
    requires DistinctHops(e'.paths) && EntryParity(e') && (s == 0 || s % 2 == 1)
    ensures Handled(e, ErrorRoute(e', from, s), from, d, dests + [(d, s)])
  {
    var all := dests + [(d, s)];
    ErrorRouteExact(e', from, s);
    HitByNext(e, from, d, dests, (d, s));
    if HitBy(e, from, d, dests) {
      var k :| FirstHit(e, from, d, dests, k) && Struck(e, e', from, dests[k].1);
      assert forall p | p in e'.paths :: p.nexthop != from;
      assert FirstHit(e, from, d, all, k) && all[k] == dests[k];
    } else if Hit(e, from, s) {
      assert FirstHit(e, from, d, all, |dests|);
    }
  }

  lemma HandledSkip(e: Entry, e': Entry, from: Addr, d: Addr, dests: seq<(Addr, nat)>, x: (Addr, nat))
    requires Handled(e, e', from, d, dests) && x.0 != d
    ensures Handled(e, e', from, d, dests + [x])
  {
    HitByNext(e, from, d, dests, x);
    if HitBy(e, from, d, dests) {
      var k :| FirstHit(e, from, d, dests, k) && Struck(e, e', from, dests[k].1);
      assert FirstHit(e, from, d, dests + [x], k) && (dests + [x])[k] == dests[k];
    }
  }

  /** The whole table after the entries `dests`. */
  ghost predicate AllHandled(n: Node, r: Node, from: Addr, dests: seq<(Addr, nat)>) {
    r.table.Keys == n.table.Keys && forall d | d in n.table :: Handled(n.table[d], r.table[d], from, d, dests)
  }

  lemma AllHandledNext(n: Node, r: Node, from: Addr, dests: seq<(Addr, nat)>, d: Addr, s: nat)
    requires AllHandled(n, r, from, dests) && d in n.table
    requires DistinctHops(r.table[d].paths) && EntryParity(r.table[d]) && (s == 0 || s % 2 == 1)
    ensures AllHandled(n, Put(r, d, ErrorRoute(r.table[d], from, s)), from, dests + [(d, s)])
  {
    forall k | k in n.table
      ensures Handled(n.table[k], Put(r, d, ErrorRoute(r.table[d], from, s)).table[k], from, k, dests + [(d, s)])
    {
      if k == d {
        HandledNext(n.table[d], r.table[d], from, d, dests, s);
      } else {
        HandledSkip(n.table[k], r.table[k], from, k, dests, (d, s));
      }
    }
  }

  lemma AllHandledSkip(n: Node, r: Node, from: Addr, dests: seq<(Addr, nat)>, d: Addr, s: nat)
    requires AllHandled(n, r, from, dests) && d !in n.table
    ensures AllHandled(n, r, from, dests + [(d, s)])
  {
    forall k | k in n.table ensures Handled(n.table[k], r.table[k], from, k, dests + [(d, s)]) {
      HandledSkip(n.table[k], r.table[k], from, k, dests, (d, s));
    }
  }

  /** Route `d` has gone down, and upstream nodes must hear of it. */
  ghost predicate WentDown(n: Node, r: Node, d: Addr) {
    && d in n.table && d in r.table
    && n.table[d].flags.Up? && r.table[d].flags.Down? && n.table[d].rtError
  }

  /** The notices name exactly the routes that have gone down with rt_error set, once each, with their new numbers. */
  ghost predicate ToldExactly(n: Node, r: Node, told: seq<(Addr, nat)>) {
    DistinctKeys(told) && forall d, s :: (d, s) in told <==> WentDown(n, r, d) && s == r.table[d].seqno
  }

  lemma ToldNext(n: Node, r: Node, told: seq<(Addr, nat)>, from: Addr, dests: seq<(Addr, nat)>, d: Addr, s: nat)
    requires AllHandled(n, r, from, dests) && ToldExactly(n, r, told) && d in n.table && r.table[d].dst == d
    requires DistinctHops(r.table[d].paths) && EntryParity(r.table[d]) && (s == 0 || s % 2 == 1)
    ensures var e := ErrorRoute(r.table[d], from, s);
      ToldExactly(n, Put(r, d, e), told + Notice(r.table[d], e))
  {
    var e, e' := r.table[d], ErrorRoute(r.table[d], from, s);
    ErrorRouteExact(e, from, s);
    assert Handled(n.table[d], e, from, d, dests);
    var told' := told + Notice(e, e');
    forall k | 0 <= k < |told| ensures told[k].0 != d || e.flags.Down? {
      assert (told[k].0, told[k].1) in told;
    }
    if e.flags.Down? { assert e' == e; }
    forall k, x ensures (k, x) in told' <==> WentDown(n, Put(r, d, e'), k) && x == Put(r, d, e').table[k].seqno {
      if k != d { assert (k, x) in told' <==> (k, x) in told; }
    }
  }

  lemma {:induction false} ErrorAllHandled(n: Node, from: Addr, dests: seq<(Addr, nat)>, v: View)
    requires Good(n, v) && NoticesOk(v, dests)
    ensures var (r, told) := ErrorAll(n, from, dests); AllHandled(n, r, from, dests) && ToldExactly(n, r, told)
    decreases |dests|
  {
    if dests != [] {
      var last := |dests| - 1;
      var init := dests[..last];
      var (d, s) := dests[last];
      assert dests == init + [(d, s)];
      ErrorAllHandled(n, from, init, v);
      var (r, told) := ErrorAll(n, from, init);
      if d in n.table {
        assert EntryOk(v, d, r.table[d]) by { ErrorAllGood(n, from, init, v); }
        AllHandledNext(n, r, from, init, d, s);
        ToldNext(n, r, told, from, init, d, s);
      } else {
        AllHandledSkip(n, r, from, init, d, s);
      }
    }
  }

  /** recvError is exact. A route changes iff some entry of the message is about it, it is up through the sender and
      not newer; it then loses exactly that path and goes down under a strictly larger odd number iff no path is left.
      One error message names exactly the routes that went down with rt_error set, once each, with their new numbers. */
  lemma RecvErrorExact(n: Node, m: Error, v: View)
    requires Good(n, v) && MsgOk(Rerr(m)) && MsgWithin(Rerr(m), v.own)
    ensures var r, told := RecvError(n, m), ErrorAll(n, m.ipSrc, m.dests).1;
      && r == n.(table := r.table, out := r.out) && r.table.Keys == n.table.Keys
      && (forall d | d in n.table :: Handled(n.table[d], r.table[d], m.ipSrc, d, m.dests))
      && ToldExactly(n, r, told)
      && r.out == n.out + if told == [] then [] else [Send(Rerr(Error(n.id, 1, told)))]
  {
    ErrorAllHandled(n, m.ipSrc, m.dests, v);
    ErrorAllOnlyTable(n, m.ipSrc, m.dests);
    ErrorSendsWhenPassing(n, m);
    assert RecvError(n, m).said == n.said;
  }

  // ---- Cascades ----

  function UpRoutes(n: Node): set<Addr> {
    set d | d in n.table && n.table[d].flags.Up?
  }

  /** Each notice is about a different route that was up and no longer is. */
  lemma {:induction false} NoticesConsumeRoutes(n: Node, from: Addr, dests: seq<(Addr, nat)>)
    requires forall d | d in n.table :: n.table[d].dst == d
    ensures var (r, told) := ErrorAll(n, from, dests);
      && (forall d | d in r.table :: d in n.table && r.table[d].dst == d)
      && UpRoutes(r) <= UpRoutes(n)
      && DistinctKeys(told)
      && forall k | 0 <= k < |told| :: told[k].0 in UpRoutes(n) && told[k].0 !in UpRoutes(r)
    decreases |dests|
  {
    if dests != [] {
      NoticesConsumeRoutes(n, from, dests[..|dests| - 1]);
    }
  }

  lemma {:induction false} DistinctCount(told: seq<(Addr, nat)>, s: set<Addr>)
    requires DistinctKeys(told) && forall k | 0 <= k < |told| :: told[k].0 in s
    ensures |told| <= |s|
    decreases |told|
  {
    if told != [] {
      var last := |told| - 1;
      DistinctCount(told[..last], s - {told[last].0});
    }
  }

  /** Every entry a node reports onwards costs it one route that was up. */
  lemma RelayCostsRoutes(n: Node, from: Addr, dests: seq<(Addr, nat)>)
    requires forall d | d in n.table :: n.table[d].dst == d
    ensures var (r, told) := ErrorAll(n, from, dests);
      |UpRoutes(r)| + |told| <= |UpRoutes(n)|
  {
    NoticesConsumeRoutes(n, from, dests);
    var (r, told) := ErrorAll(n, from, dests);
    DistinctCount(told, UpRoutes(n) - UpRoutes(r));
    assert |UpRoutes(n) - UpRoutes(r)| == |UpRoutes(n)| - |UpRoutes(r)|;
  }

  // ---- Cascades over whole runs ----

  function UpPairs(net: Net): set<(Addr, Addr)> {
    set i, d | i in net.nodes && d in net.nodes[i].table && net.nodes[i].table[d].flags.Up? :: (i, d)
  }

  /** A step that only handles an error message. */
  ghost predicate ErrorStep(net: Net, net': Net, i: Addr, ev: Event) {
    ev.Receive? && ev.m.Rerr? && Step(net, net', i, ev)
  }

  /** The entries node `i` passes on while handling `ev`: none unless `ev` is the reception of an error message. */
  function PassedOn(net: Net, i: Addr, ev: Event): seq<(Addr, nat)>
    requires i in net.nodes
  {
    if ev.Receive? && ev.m.Rerr? then ErrorAll(net.nodes[i], ev.m.re.ipSrc, ev.m.re.dests).1 else []
  }

  lemma {:induction false} PairCount(i: Addr, s: set<Addr>)
    ensures |set d | d in s :: (i, d)| == |s|
  {
    if x :| x in s {
      PairCount(i, s - {x});
      assert (set d | d in s :: (i, d)) == (set d | d in s - {x} :: (i, d)) + {(i, x)};
    } else {
      assert forall x :: x !in s;
      assert (set d | d in s :: (i, d)) == {};
    }
  }

  lemma SubsetSize<T>(a: set<T>, b: set<T>)
    requires a <= b
    ensures |a| <= |b|
  {
    assert b == a + (b - a);
  }

  /** When only node `i` changes and loses the routes `gone`, that many pairs are gone. */
  lemma PairsLost(net: Net, net': Net, i: Addr, gone: set<Addr>)
    requires i in net.nodes && i in net'.nodes
    requires net'.nodes == net.nodes[i := net'.nodes[i]]
    requires UpRoutes(net'.nodes[i]) <= UpRoutes(net.nodes[i])
    requires gone <= UpRoutes(net.nodes[i]) && gone !! UpRoutes(net'.nodes[i])
    ensures UpPairs(net') <= UpPairs(net) && |UpPairs(net')| + |gone| <= |UpPairs(net)|
  {
    var pairs := set d | d in gone :: (i, d);
    PairCount(i, gone);
    forall x | x in UpPairs(net') ensures x in UpPairs(net) {
      if x.0 == i { assert x.1 in UpRoutes(net'.nodes[i]); }
    }
    assert pairs !! UpPairs(net') by {
      forall x | x in pairs ensures x !in UpPairs(net') {
        assert x.1 !in UpRoutes(net'.nodes[i]);
      }
    }
    assert pairs <= UpPairs(net) by {
      forall x | x in pairs ensures x in UpPairs(net) {
        assert x.1 in UpRoutes(net.nodes[i]);
      }
    }
    SubsetSize(UpPairs(net') + pairs, UpPairs(net));
  }

  lemma MessageConsumes(n: Node, m: Msg, now: real)
    requires m.Rerr? && forall d | d in n.table :: n.table[d].dst == d
    ensures var r := HandleMessage(n, m, now);
      && UpRoutes(r) <= UpRoutes(n)
      && |ErrorAll(n, m.re.ipSrc, m.re.dests).1| <= |UpRoutes(n) - UpRoutes(r)|
  {
    NoticesConsumeRoutes(n, m.re.ipSrc, m.re.dests);
    var (r, told) := ErrorAll(n, m.re.ipSrc, m.re.dests);
    assert UpRoutes(RecvError(n, m.re)) == UpRoutes(r);
    DistinctCount(told, UpRoutes(n) - UpRoutes(r));
  }

  lemma HandleConsumes(n: Node, m: Msg, now: real)
    requires m.Rerr? && forall d | d in n.table :: n.table[d].dst == d
    ensures var r := Handle(n, Receive(m), now);
      && UpRoutes(r) <= UpRoutes(n)
      && |ErrorAll(n, m.re.ipSrc, m.re.dests).1| <= |UpRoutes(n) - UpRoutes(r)|
  {
    MessageConsumes(n, AfterHop(m), now);
  }

  lemma EntriesAbout(net: Net, i: Addr)
    requires Safe(net) && i in net.nodes
    ensures forall d | d in net.nodes[i].table :: net.nodes[i].table[d].dst == d
  {
    forall d | d in net.nodes[i].table ensures net.nodes[i].table[d].dst == d {
      assert EntryOk(ViewOf(net, i), d, net.nodes[i].table[d]);
    }
  }

  /** Each entry passed on uses up one (node, destination) pair with an UP route. */
  lemma ErrorStepConsumes(net: Net, net': Net, i: Addr, ev: Event)
    requires Safe(net) && ErrorStep(net, net', i, ev)
    ensures UpPairs(net') <= UpPairs(net)
    ensures |UpPairs(net')| + |PassedOn(net, i, ev)| <= |UpPairs(net)|
  {
    EntriesAbout(net, i);
    HandleConsumes(net.nodes[i], ev.m, net.now);
    assert UpRoutes(net'.nodes[i]) == UpRoutes(After(net, i, ev));
    PairsLost(net, net', i, UpRoutes(net.nodes[i]) - UpRoutes(net'.nodes[i]));
  }

  /** Without a route learned, a step passes on no more entries than it takes pairs away. */
  lemma StepConsumes(net: Net, net': Net, i: Addr, ev: Event)
    requires Safe(net) && Step(net, net', i, ev) && UpPairs(net') <= UpPairs(net)
    ensures |UpPairs(net')| + |PassedOn(net, i, ev)| <= |UpPairs(net)|
  {
    if ev.Receive? && ev.m.Rerr? {
      ErrorStepConsumes(net, net', i, ev);
    } else {
      SubsetSize(UpPairs(net'), UpPairs(net));
    }
  }

  /** No route comes up in step `k`. */
  ghost predicate NoneUpAt(run: seq<Net>, k: int)
    requires 0 <= k < |run| - 1
  {
    UpPairs(run[k + 1]) <= UpPairs(run[k])
  }

  /** A run from a safe state in which no route comes up: nodes may handle anything else meanwhile. */
  ghost predicate IsCascade(run: seq<Net>, acts: seq<(Addr, Event)>) {
    && |run| == |acts| + 1
    && Safe(run[0])
    && (forall k | 0 <= k < |acts| :: StepAt(run, acts, k))
    && (forall k | 0 <= k < |acts| :: NoneUpAt(run, k))
  }

  /** How many entries step `k` passes on. */
  ghost function PassedAt(run: seq<Net>, acts: seq<(Addr, Event)>, k: nat): nat
    requires IsCascade(run, acts) && k < |acts|
  {
    assert StepAt(run, acts, k);
    |PassedOn(run[k], acts[k].0, acts[k].1)|
  }

  /** All entries passed on in the first `k` steps. */
  ghost function AllPassedOn(run: seq<Net>, acts: seq<(Addr, Event)>, k: nat): nat
    requires IsCascade(run, acts) && k <= |acts|
  {
    if k == 0 then 0 else AllPassedOn(run, acts, k - 1) + PassedAt(run, acts, k - 1)
  }

  lemma CascadeSafeNext(run: seq<Net>, acts: seq<(Addr, Event)>, k: nat)
    requires IsCascade(run, acts) && k < |acts| && Safe(run[k])
    ensures Safe(run[k + 1])
  {
    assert StepAt(run, acts, k);
    StepKeepsSafe(run[k], run[k + 1], acts[k].0, acts[k].1);
  }

  lemma {:induction false} CascadeSafe(run: seq<Net>, acts: seq<(Addr, Event)>, k: nat)
    requires IsCascade(run, acts) && k <= |acts|
    ensures Safe(run[k])
  {
    if k > 0 {
      CascadeSafe(run, acts, k - 1);
      CascadeSafeNext(run, acts, k - 1);
    }
  }

  lemma CascadeStep(run: seq<Net>, acts: seq<(Addr, Event)>, k: nat)
    requires IsCascade(run, acts) && k < |acts|
    ensures |UpPairs(run[k + 1])| + PassedAt(run, acts, k) <= |UpPairs(run[k])|
  {
    CascadeSafe(run, acts, k);
    assert StepAt(run, acts, k) && NoneUpAt(run, k);
    StepConsumes(run[k], run[k + 1], acts[k].0, acts[k].1);
  }

  /** A cascade ends: while no route comes up, and whatever else happens, the entries passed on, and so the error
      messages sent in answer to error messages, are no more than the (node, destination) pairs up at the start. */
  lemma {:induction false} CascadeEnds(run: seq<Net>, acts: seq<(Addr, Event)>, k: nat)
    requires IsCascade(run, acts) && k <= |acts|
    ensures |UpPairs(run[k])| + AllPassedOn(run, acts, k) <= |UpPairs(run[0])|
  {
    if k > 0 {
      CascadeEnds(run, acts, k - 1);
      CascadeStep(run, acts, k - 1);
    }
  }

  /** A node answers an error message with one of its own exactly when it passes entries on. */
  lemma ErrorSendsWhenPassing(n: Node, m: Error)
    ensures var told := ErrorAll(n, m.ipSrc, m.dests).1;
      RecvError(n, m).out == n.out + if told == [] then [] else [Send(Rerr(Error(n.id, 1, told)))]
  {
    ErrorAllOnlyTable(n, m.ipSrc, m.dests);
  }
}
