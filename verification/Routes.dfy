/** Route entries and their path lists as values: what eamrp_rtable.cc computes, and how
    the handlers of eamrp.cc change one entry. The class in RouteEntry.dfy does the same in place. */
module Routes {
  import opened Basics

  datatype Path = Path(nexthop: Addr, hopcount: nat, expire: real, lasthop: Addr)

  datatype Flag = Down | Up

  /** `adv` is the advertised hop count; None is the INFINITY that stands for "nothing advertised yet".
      `pruned` is a history variable no decision reads: a path has been removed since the
      entry adopted its present sequence number. */
  datatype Entry = Entry(
    dst: Addr, seqno: nat, flags: Flag, adv: Option<nat>, paths: seq<Path>, numPaths: int,
    heard: nat, rtError: bool, lastHops: nat, expire: real,
    reqTimeout: real, reqCnt: nat, reqTtl: nat, latency: seq<real>, pruned: bool)

  /** The two bound Tcl variables. */
  datatype Config = Config(maxPaths: int, lenDiff: int)

  const NO_LATENCY: seq<real> := [0.0, 0.0, 0.0]

  function NewEntry(d: Addr): Entry {
    Entry(d, 0, Down, None, [], 0, 0, false, INFINITY2, 0.0, 0.0, 0, 0, NO_LATENCY, false)
  }

  // ---- Searching a path list ----

  /** Index of the first path through `id`. */
  function FindHop(ps: seq<Path>, id: Addr): (r: Option<nat>)
    ensures r.Some? ==> r.value < |ps| && ps[r.value].nexthop == id
    ensures r.Some? ==> forall k | 0 <= k < r.value :: ps[k].nexthop != id
    ensures r.None? ==> forall k | 0 <= k < |ps| :: ps[k].nexthop != id
  {
    if ps == [] then None
    else if ps[0].nexthop == id then Some(0)
    else match FindHop(ps[1..], id) case None => None case Some(k) => Some(k + 1)
  }

  /** Index of the first path with this next hop and this last hop. */
  function FindPair(ps: seq<Path>, nexthop: Addr, lasthop: Addr): (r: Option<nat>)
    ensures r.Some? ==> r.value < |ps| && ps[r.value].nexthop == nexthop && ps[r.value].lasthop == lasthop
    ensures r.Some? ==> forall k | 0 <= k < r.value :: ps[k].nexthop != nexthop || ps[k].lasthop != lasthop
    ensures r.None? ==> forall k | 0 <= k < |ps| :: ps[k].nexthop != nexthop || ps[k].lasthop != lasthop
  {
    if ps == [] then None
    else if ps[0].nexthop == nexthop && ps[0].lasthop == lasthop then Some(0)
    else match FindPair(ps[1..], nexthop, lasthop) case None => None case Some(k) => Some(k + 1)
  }

  /** Index of the first path whose last hop is `id`. */
  function FindLast(ps: seq<Path>, id: Addr): (r: Option<nat>)
    ensures r.Some? ==> r.value < |ps| && ps[r.value].lasthop == id
    ensures r.Some? ==> forall k | 0 <= k < r.value :: ps[k].lasthop != id
    ensures r.None? ==> forall k | 0 <= k < |ps| :: ps[k].lasthop != id
  {
    if ps == [] then None
    else if ps[0].lasthop == id then Some(0)
    else match FindLast(ps[1..], id) case None => None case Some(k) => Some(k + 1)
  }

  /** No stored path shares the next hop or the last hop. */
  predicate NewDisjoint(ps: seq<Path>, nexthop: Addr, lasthop: Addr) {
    forall k | 0 <= k < |ps| :: ps[k].nexthop != nexthop && ps[k].lasthop != lasthop
  }

  function MaxHops(ps: seq<Path>): (m: nat)
    ensures forall k | 0 <= k < |ps| :: ps[k].hopcount <= m
    ensures m != 0 ==> exists k :: 0 <= k < |ps| && ps[k].hopcount == m
  {
    if ps == [] then 0
    else
      var last := |ps| - 1;
      var m := MaxHops(ps[..last]);
      if ps[last].hopcount > m then ps[last].hopcount else m
  }

  function MinHops(ps: seq<Path>): (m: nat)
    ensures m <= INFINITY2
    ensures forall k | 0 <= k < |ps| :: m <= ps[k].hopcount
    ensures m != INFINITY2 ==> exists k :: 0 <= k < |ps| && ps[k].hopcount == m
  {
    if ps == [] then INFINITY2
    else
      var last := |ps| - 1;
      var m := MinHops(ps[..last]);
      if ps[last].hopcount < m then ps[last].hopcount else m
  }

  /** The paths that have not expired, in order. */
  function LivePaths(ps: seq<Path>, now: real): (r: seq<Path>)
    ensures |r| <= |ps|
    ensures forall p :: p in r <==> p in ps && now <= p.expire
  {
    if ps == [] then []
    else if ps[0].expire < now then LivePaths(ps[1..], now)
    else [ps[0]] + LivePaths(ps[1..], now)
  }

  // ---- Changing one entry ----

  function Insert(e: Entry, p: Path): Entry {
    e.(paths := e.paths + [p], numPaths := e.numPaths + 1)
  }

  function DeleteAll(e: Entry): Entry {
    e.(paths := [], numPaths := 0, pruned := false)
  }

  /** path_delete(id): drops the first path through `id`. */
  function DeleteHop(e: Entry, id: Addr): Entry {
    match FindHop(e.paths, id)
    case None => e
    case Some(k) => e.(paths := e.paths[..k] + e.paths[k + 1..], numPaths := e.numPaths - 1, pruned := true)
  }

  function PurgePaths(e: Entry, now: real): Entry {
    var live := LivePaths(e.paths, now);
    e.(paths := live, numPaths := e.numPaths - (|e.paths| - |live|), pruned := e.pruned || live != e.paths)
  }

  /** rt_down */
  function TakeDown(e: Entry): Entry {
    if e.flags.Down? then e else DeleteAll(e.(flags := Down, adv := None, expire := 0.0))
  }

  /** Fixes the advertised hop count the first time a route is advertised under its sequence number. */
  function Advertise(e: Entry): Entry {
    if e.adv.Some? then e
    else
      var m := MaxHops(e.paths);
      e.(adv := if m == 0 then None else Some(m))
  }

  /** What goes into the 8-bit hop count field of a message. */
  function HopField(adv: Option<nat>): nat {
    if adv.Some? then adv.value else INFINITY2
  }

  /** A path offered by a neighbour's RREQ, RREP or HELLO. */
  datatype Offer = Offer(via: Addr, seqno: nat, hops: nat, lasthop: Addr, expire: real)

  function OfferedPath(o: Offer): Path {
    Path(o.via, o.hops + 1, o.expire, o.lasthop)
  }

  /** rt_advertised_hops > hop count, with INFINITY above every hop count. */
  predicate Above(adv: Option<nat>, hops: nat) {
    adv.None? || adv.value > hops
  }

  /** A newer sequence number replaces everything known about the destination. */
  function Adopt(e: Entry, o: Offer): Entry {
    var e1 := Insert(DeleteAll(e.(seqno := o.seqno, adv := None, flags := Up)), OfferedPath(o));
    e1.(lastHops := MaxHops(e1.paths))
  }

  function Extend(e: Entry, k: nat, expire: real): Entry
    requires k < |e.paths|
  {
    e.(paths := e.paths[k := e.paths[k].(expire := MaxReal(e.paths[k].expire, expire))])
  }

  function Append(e: Entry, o: Offer): Entry {
    var e1 := Insert(e, OfferedPath(o));
    e1.(lastHops := MaxHops(e1.paths))
  }

  /** Room for one more path, and not much longer than the shortest one known. */
  predicate HasRoom(cfg: Config, e: Entry, hops: nat) {
    e.numPaths < cfg.maxPaths && (hops + 1) - MinHops(e.paths) <= cfg.lenDiff
  }

  /** `Discard`: the message is freed. `Keep`: processing goes on, with or without a reverse path. */
  datatype Verdict = Discard | Keep(hasPath: bool)

  /** The reverse-route part of recvRequest. `forMe`: this node is the one asked for. */
  function LearnReverse(cfg: Config, e: Entry, o: Offer, forMe: bool): (Entry, Verdict) {
    if e.seqno < o.seqno then (Adopt(e, o), Keep(true))
    else if e.seqno == o.seqno && Above(e.adv, o.hops) then
      match FindPair(e.paths, o.via, o.lasthop)
      case Some(k) => (Extend(e, k, o.expire), Keep(true))
      case None =>
        if NewDisjoint(e.paths, o.via, o.lasthop) then
          var room := HasRoom(cfg, e, o.hops);
          var e1 := if room then Append(e, o) else e;
          (e1, if (o.hops + 1) - MinHops(e1.paths) > cfg.lenDiff then Discard else Keep(room))
        else if forMe && LongerThanKnown(e, o) then (e, Discard)
        else (e, Keep(false))
    else (e, Discard)
  }

  predicate LongerThanKnown(e: Entry, o: Offer) {
    match FindLast(e.paths, o.lasthop)
    case None => true
    case Some(k) => o.hops + 1 > e.paths[k].hopcount
  }

  /** The forward-route part of recvReply; the flag says whether processing goes on. */
  function LearnForward(cfg: Config, e: Entry, o: Offer): (Entry, bool) {
    if e.seqno < o.seqno then (Adopt(e, o), true)
    else if e.seqno == o.seqno && Above(e.adv, o.hops) then
      match FindPair(e.paths, o.via, o.lasthop)
      case Some(k) => (Extend(e, k, o.expire), true)
      case None =>
        if NewDisjoint(e.paths, o.via, o.lasthop) && HasRoom(cfg, e, o.hops) then (Append(e, o), true)
        else (e, false)
    else (e, false)
  }

  function SoftReset(e: Entry): Entry {
    e.(reqTimeout := 0.0, reqTtl := 0, reqCnt := 0)
  }

  /** Using the preferred path keeps it alive. */
  function TouchHead(e: Entry, now: real): Entry
    requires e.paths != []
  {
    e.(paths := e.paths[0 := e.paths[0].(expire := now + ACTIVE_ROUTE_TIMEOUT)])
  }

  /** One route when the link to `id` breaks. */
  function FailRoute(e: Entry, id: Addr): Entry {
    if e.flags.Up? && FindHop(e.paths, id).Some? then
      var e1 := DeleteHop(e, id);
      if e1.paths == [] then TakeDown(e1.(seqno := Max(e1.seqno + 1, e1.heard), rtError := false)) else e1
    else e
  }

  /** One route named by an error message from `from`. */
  function ErrorRoute(e: Entry, from: Addr, s: nat): Entry {
    if e.flags.Up? && FindHop(e.paths, from).Some? && e.seqno <= s then
      var e0 := DeleteHop(e, from);
      var e1 := e0.(heard := Max(e0.heard, s));
      if e1.paths == [] then TakeDown(e1.(seqno := e1.heard)).(rtError := false) else e1
    else e
  }

  /** What a node tells upstream about a route that has just gone down. */
  function Notice(before: Entry, after: Entry): seq<(Addr, nat)> {
    if before.flags.Up? && after.flags.Down? && before.rtError then [(after.dst, after.seqno)] else []
  }

  /** The expired branch of rt_purge. */
  function ExpireRoute(e: Entry, now: real): Entry {
    var e1 := PurgePaths(e, now);
    if e1.paths == [] then
      var s := Max(e1.seqno + 1, e1.heard);
      TakeDown(e1.(seqno := if s % 2 == 0 then s + 1 else s))
    else e1
  }

  // ---- Route requests ----

  function SumPositive(xs: seq<real>): (r: (nat, real)) {
    if xs == [] then (0, 0.0)
    else
      var last := |xs| - 1;
      var r := SumPositive(xs[..last]);
      if xs[last] > 0.0 then (r.0 + 1, r.1 + xs[last]) else r
  }

  function PerHopTime(e: Entry): real {
    var r := SumPositive(e.latency);
    if r.0 > 0 then r.1 / r.0 as real else NODE_TRAVERSAL_TIME
  }

  function NextTtl(e: Entry): nat {
    var base := Max(e.reqTtl, e.lastHops);
    if base == 0 then TTL_START
    else if base < TTL_THRESHOLD then base + TTL_INCREMENT
    else NETWORK_DIAMETER
  }

  /** How long to wait for an answer to a request with this TTL. */
  function WaitFor(ttl: nat, cnt: nat, perHop: real): real {
    var wait := 2.0 * ttl as real * perHop;
    if cnt > 0 then wait * cnt as real else wait
  }

  function NextTimeout(ttl: nat, cnt: nat, perHop: real, now: real): real {
    var timeout := WaitFor(ttl, cnt, perHop) + now;
    if timeout > now + MAX_RREQ_TIMEOUT then now + MAX_RREQ_TIMEOUT else timeout
  }

  function NextCount(e: Entry): nat {
    if Max(e.reqTtl, e.lastHops) < TTL_THRESHOLD then e.reqCnt else e.reqCnt + 1
  }

  /** The entry after one more RREQ has gone out. */
  function NextAttempt(e: Entry, now: real): Entry {
    var ttl, cnt := NextTtl(e), NextCount(e);
    e.(reqTtl := ttl, reqCnt := cnt, expire := 0.0, reqTimeout := NextTimeout(ttl, cnt, PerHopTime(e), now))
  }

  function GiveUp(e: Entry, now: real): Entry {
    e.(reqTimeout := now + MAX_RREQ_TIMEOUT, reqCnt := 0)
  }
}
