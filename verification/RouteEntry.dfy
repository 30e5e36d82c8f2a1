/** A route entry in place: the fields and methods of eamrp_rt_entry, and the parts of the handlers that work on
    one entry. Every method is proved against the functions of Routes.dfy. */
module RouteEntries {
  import opened Basics
  import opened Routes

  lemma {:induction false} LivePathsAll(ps: seq<Path>, now: real)
    requires forall k | 0 <= k < |ps| :: now <= ps[k].expire
    ensures LivePaths(ps, now) == ps
  {
    if ps != [] { LivePathsAll(ps[1..], now); }
  }

  /** Deleting an expired path does not change which paths are live. */
  lemma {:induction false} LivePathsDelete(ps: seq<Path>, k: nat, now: real)
    requires k < |ps| && ps[k].expire < now
    ensures LivePaths(ps[..k] + ps[k + 1..], now) == LivePaths(ps, now)
  {
    if k == 0 {
      assert ps[..0] + ps[1..] == ps[1..];
    } else {
      LivePathsDelete(ps[1..], k - 1, now);
      assert (ps[..k] + ps[k + 1..])[1..] == ps[1..][..k - 1] + ps[1..][k..];
    }
  }

  class RouteEntry {
    const dst: Addr
    var seqno: nat
    var flags: Flag
    var adv: Option<nat>
    var paths: seq<Path>
    var numPaths: int
    var heard: nat
    var rtError: bool
    var lastHops: nat
    var expire: real
    var reqTimeout: real
    var reqCnt: nat
    var reqTtl: nat
    var latency: seq<real>
    ghost var pruned: bool

    ghost function Value(): Entry
      reads this
    {
      Entry(dst, seqno, flags, adv, paths, numPaths, heard, rtError, lastHops, expire,
            reqTimeout, reqCnt, reqTtl, latency, pruned)
    }

    constructor (d: Addr)
      ensures Value() == NewEntry(d) && dst == d
    {
      dst := d;
      seqno, flags, adv, paths, numPaths := 0, Down, None, [], 0;
      heard, rtError, lastHops, expire := 0, false, INFINITY2, 0.0;
      reqTimeout, reqCnt, reqTtl, latency := 0.0, 0, 0, NO_LATENCY;
      pruned := false;
    }

    // ---- Path list ----

    method PathInsert(p: Path)
      modifies this
      ensures Value() == Insert(old(Value()), p)
    {
      paths := paths + [p];
      numPaths := numPaths + 1;
    }

    method PathLookup(id: Addr) returns (r: Option<nat>)
      ensures r == FindHop(paths, id)
    {
      var k := 0;
      while k < |paths|
        invariant 0 <= k <= |paths|
        invariant forall i | 0 <= i < k :: paths[i].nexthop != id
      {
        if paths[k].nexthop == id { return Some(k); }
        k := k + 1;
      }
      return None;
    }

    method DisjointPathLookup(nexthop: Addr, lasthop: Addr) returns (r: Option<nat>)
      ensures r == FindPair(paths, nexthop, lasthop)
    {
      var k := 0;
      while k < |paths|
        invariant 0 <= k <= |paths|
        invariant forall i | 0 <= i < k :: paths[i].nexthop != nexthop || paths[i].lasthop != lasthop
      {
        if paths[k].nexthop == nexthop && paths[k].lasthop == lasthop { return Some(k); }
        k := k + 1;
      }
      return None;
    }

    method NewDisjointPath(nexthop: Addr, lasthop: Addr) returns (b: bool)
      ensures b == NewDisjoint(paths, nexthop, lasthop)
    {
      var k := 0;
      while k < |paths|
        invariant 0 <= k <= |paths|
        invariant forall i | 0 <= i < k :: paths[i].nexthop != nexthop && paths[i].lasthop != lasthop
      {
        if paths[k].nexthop == nexthop || paths[k].lasthop == lasthop { return false; }
        k := k + 1;
      }
      return true;
    }

    method PathLookupLasthop(id: Addr) returns (r: Option<nat>)
      ensures r == FindLast(paths, id)
    {
      var k := 0;
      while k < |paths|
        invariant 0 <= k <= |paths|
        invariant forall i | 0 <= i < k :: paths[i].lasthop != id
      {
        if paths[k].lasthop == id { return Some(k); }
        k := k + 1;
      }
      return None;
    }

    /** Takes the path at position `k` off the list. */
    method Remove(k: nat)
      requires k < |paths|
      modifies this
      ensures Value() == old(Value()).(paths := old(paths)[..k] + old(paths)[k + 1..], numPaths := old(numPaths) - 1,
                                       pruned := true)
    {
      paths := paths[..k] + paths[k + 1..];
      numPaths := numPaths - 1;
      pruned := true;
    }

    method PathDelete(id: Addr)
      modifies this
      ensures Value() == DeleteHop(old(Value()), id)
    {
      var k := 0;
      while k < |paths|
        invariant 0 <= k <= |paths| && Value() == old(Value())
        invariant forall i | 0 <= i < k :: paths[i].nexthop != id
      {
        if paths[k].nexthop == id {
          Remove(k);
          return;
        }
        k := k + 1;
      }
    }

    method PathDeleteAll()
      modifies this
      ensures Value() == DeleteAll(old(Value()))
    {
      while paths != []
        invariant Value() == old(Value()).(paths := paths)
        decreases |paths|
      {
        paths := paths[1..];
      }
      numPaths := 0;
      pruned := false;
    }

    /** path_empty(): its asserts hold whenever the stored count is right. */
    method PathEmpty() returns (b: bool)
      ensures b <==> |paths| == 0
      ensures numPaths == |paths| ==> if b then numPaths == 0 else numPaths > 0
    {
      b := paths == [];
    }

    /** The path that arrived first, or none. */
    method PathFind() returns (p: Option<Path>)
      ensures p.None? <==> |paths| == 0
      ensures p.Some? ==> p.value == paths[0]
    {
      p := if paths == [] then None else Some(paths[0]);
    }

    /** None stands for the INFINITY2 that the source answers when it finds no hop count above 0. */
    method PathGetMaxHopcount() returns (m: Option<nat>)
      ensures m == if MaxHops(paths) == 0 then None else Some(MaxHops(paths))
    {
      var most := 0;
      var k := 0;
      while k < |paths|
        invariant 0 <= k <= |paths| && most == MaxHops(paths[..k])
      {
        assert paths[..k + 1][..k] == paths[..k];
        if paths[k].hopcount > most { most := paths[k].hopcount; }
        k := k + 1;
      }
      assert paths[..k] == paths;
      m := if most == 0 then None else Some(most);
    }

    method PathGetMinHopcount() returns (m: nat)
      ensures m == MinHops(paths)
    {
      m := INFINITY2;
      var k := 0;
      while k < |paths|
        invariant 0 <= k <= |paths| && m == MinHops(paths[..k])
      {
        assert paths[..k + 1][..k] == paths[..k];
        if paths[k].hopcount < m { m := paths[k].hopcount; }
        k := k + 1;
      }
      assert paths[..k] == paths;
    }

    /** path_purge(): starts again from the head after every path it deletes, and still removes exactly the
        expired paths. */
    method PathPurge(now: real)
      modifies this
      ensures Value() == PurgePaths(old(Value()), now)
    {
      var again := true;
      while again
        invariant Value() == old(Value()).(paths := paths, numPaths := numPaths, pruned := pruned)
        invariant numPaths - |paths| == old(numPaths - |paths|) && |paths| <= |old(paths)|
        invariant LivePaths(paths, now) == LivePaths(old(paths), now)
        invariant if |paths| == |old(paths)| then paths == old(paths) && pruned == old(pruned) else pruned
        invariant !again ==> forall i | 0 <= i < |paths| :: now <= paths[i].expire
        decreases |paths|, again
      {
        again := PurgeFirst(now);
      }
      LivePathsAll(paths, now);
    }

    /** One scan: deletes the first expired path, if there is one. */
    method PurgeFirst(now: real) returns (found: bool)
      modifies this
      ensures found ==> |paths| == |old(paths)| - 1
      ensures found ==> Value() == old(Value()).(paths := paths, numPaths := old(numPaths) - 1, pruned := true)
      ensures found ==> LivePaths(paths, now) == LivePaths(old(paths), now)
      ensures !found ==> Value() == old(Value()) && forall i | 0 <= i < |paths| :: now <= paths[i].expire
    {
      var k := 0;
      while k < |paths|
        invariant 0 <= k <= |paths| && Value() == old(Value())
        invariant forall i | 0 <= i < k :: now <= paths[i].expire
      {
        if paths[k].expire < now {
          LivePathsDelete(paths, k, now);
          Remove(k);
          return true;
        }
        k := k + 1;
      }
      return false;
    }

    // ---- Going down ----

    /** rt_down */
    method TakeItDown()
      modifies this
      ensures Value() == TakeDown(old(Value()))
    {
      if flags.Down? { return; }
      flags := Down;
      adv := None;
      PathDeleteAll();
      expire := 0.0;
    }

    /** The body of the loop of handle_link_failure. */
    method Fail(id: Addr) returns (told: seq<(Addr, nat)>)
      modifies this
      ensures Value() == FailRoute(old(Value()), id) && told == Notice(old(Value()), Value())
    {
      told := [];
      var f := PathLookup(id);
      if flags.Up? && f.Some? {
        PathDelete(id);
        var empty := PathEmpty();
        if empty {
          seqno := seqno + 1;
          seqno := Max(seqno, heard);
          if rtError {
            told := [(dst, seqno)];
            rtError := false;
          }
          TakeItDown();
        }
      }
    }

    /** The body of the loop of recvError. */
    method HearError(from: Addr, s: nat) returns (told: seq<(Addr, nat)>)
      modifies this
      ensures Value() == ErrorRoute(old(Value()), from, s) && told == Notice(old(Value()), Value())
    {
      told := [];
      var f := PathLookup(from);
      if flags.Up? && f.Some? && seqno <= s {
        PathDelete(from);
        heard := Max(heard, s);
        var empty := PathEmpty();
        if empty {
          seqno := heard;
          TakeItDown();
          if rtError {
            told := [(dst, seqno)];
            rtError := false;
          }
        }
      }
    }

    /** The expired branch of rt_purge. */
    method Expire(now: real)
      modifies this
      ensures Value() == ExpireRoute(old(Value()), now)
    {
      PathPurge(now);
      var empty := PathEmpty();
      if empty {
        seqno := seqno + 1;
        seqno := Max(seqno, heard);
        if seqno % 2 == 0 { seqno := seqno + 1; }
        TakeItDown();
      }
    }

    // ---- Coming up ----

    /** rt_last_hop_count is the length of the longest path. */
    method RememberLength()
      modifies this
      ensures Value() == old(Value()).(lastHops := if MaxHops(paths) == 0 then INFINITY2 else MaxHops(paths))
    {
      var m := PathGetMaxHopcount();
      lastHops := if m.Some? then m.value else INFINITY2;
    }

    method AdoptOffer(o: Offer)
      modifies this
      ensures Value() == Adopt(old(Value()), o)
    {
      ResetTo(o.seqno);
      AppendOffer(o);
    }

    /** A newer number: nothing advertised, no paths, and the route is up. */
    method ResetTo(s: nat)
      modifies this
      ensures Value() == DeleteAll(old(Value()).(seqno := s, adv := None, flags := Up))
    {
      seqno := s;
      adv := None;
      PathDeleteAll();
      flags := Up;
    }

    method AppendOffer(o: Offer)
      modifies this
      ensures Value() == Append(old(Value()), o)
    {
      PathInsert(OfferedPath(o));
      assert paths[|paths| - 1].hopcount > 0;
      RememberLength();
    }

    /** A path already known lives on. */
    method Refresh(k: nat, expire: real)
      requires k < |paths|
      modifies this`paths
      ensures Value() == Extend(old(Value()), k, expire)
    {
      paths := paths[k := paths[k].(expire := MaxReal(paths[k].expire, expire))];
    }

    method RoomFor(cfg: Config, hops: nat) returns (b: bool)
      ensures b == HasRoom(cfg, Value(), hops)
    {
      var m := PathGetMinHopcount();
      b := numPaths < cfg.maxPaths && (hops + 1) - m <= cfg.lenDiff;
    }

    /** The reverse-route part of recvRequest. */
    method LearnReversePath(cfg: Config, o: Offer, forMe: bool) returns (v: Verdict)
      modifies this
      ensures (Value(), v) == LearnReverse(cfg, old(Value()), o, forMe)
    {
      if seqno < o.seqno {
        AdoptOffer(o);
        return Keep(true);
      }
      if seqno == o.seqno && Above(adv, o.hops) {
        v := LearnAlternate(cfg, o, forMe);
      } else {
        v := Discard;
      }
    }

    method LearnAlternate(cfg: Config, o: Offer, forMe: bool) returns (v: Verdict)
      requires seqno == o.seqno && Above(adv, o.hops)
      modifies this
      ensures (Value(), v) == LearnReverse(cfg, old(Value()), o, forMe)
    {
      var known := DisjointPathLookup(o.via, o.lasthop);
      if known.Some? {
        Refresh(known.value, o.expire);
        return Keep(true);
      }
      var disjoint := NewDisjointPath(o.via, o.lasthop);
      if disjoint {
        v := AddIfRoom(cfg, o);
        return;
      }
      if forMe {
        var last := PathLookupLasthop(o.lasthop);
        if last.None? || o.hops + 1 > paths[last.value].hopcount { return Discard; }
      }
      return Keep(false);
    }

    /** A new disjoint path is added if there is room; one that is too long stops the request. */
    method AddIfRoom(cfg: Config, o: Offer) returns (v: Verdict)
      modifies this
      ensures Value() == if HasRoom(cfg, old(Value()), o.hops) then Append(old(Value()), o) else old(Value())
      ensures v == if (o.hops + 1) - MinHops(paths) > cfg.lenDiff then Discard
                   else Keep(HasRoom(cfg, old(Value()), o.hops))
    {
      var room := RoomFor(cfg, o.hops);
      if room { AppendOffer(o); }
      var m := PathGetMinHopcount();
      v := if (o.hops + 1) - m > cfg.lenDiff then Discard else Keep(room);
    }

    /** The forward-route part of recvReply. */
    method LearnForwardPath(cfg: Config, o: Offer) returns (kept: bool)
      modifies this
      ensures (Value(), kept) == LearnForward(cfg, old(Value()), o)
    {
      if seqno < o.seqno {
        AdoptOffer(o);
        return true;
      }
      if !(seqno == o.seqno && Above(adv, o.hops)) { return false; }
      var known := DisjointPathLookup(o.via, o.lasthop);
      if known.Some? {
        Refresh(known.value, o.expire);
        return true;
      }
      var disjoint := NewDisjointPath(o.via, o.lasthop);
      var room := RoomFor(cfg, o.hops);
      if disjoint && room {
        AppendOffer(o);
        return true;
      }
      return false;
    }

    method AdvertiseHops()
      modifies this
      ensures Value() == Advertise(old(Value()))
    {
      if adv.None? { adv := PathGetMaxHopcount(); }
    }

    method ResetRequests()
      modifies this
      ensures Value() == SoftReset(old(Value()))
    {
      reqTimeout, reqTtl, reqCnt := 0.0, 0, 0;
    }

    method Touch(now: real)
      requires paths != []
      modifies this
      ensures Value() == TouchHead(old(Value()), now)
    {
      paths := paths[0 := paths[0].(expire := now + ACTIVE_ROUTE_TIMEOUT)];
    }

    method MarkError()
      modifies this
      ensures Value() == old(Value()).(rtError := true)
    {
      rtError := true;
    }

    // ---- Requests ----

    /** After RREQ_RETRIES network-wide requests: a long pause. */
    method Pause(now: real)
      modifies this
      ensures Value() == GiveUp(old(Value()), now)
    {
      reqTimeout := now + MAX_RREQ_TIMEOUT;
      reqCnt := 0;
    }

    /** PerHopTime: the mean of the positive latencies. */
    method MeanLatency() returns (t: real)
      ensures t == PerHopTime(Value())
    {
      var n, total, k := 0, 0.0, 0;
      while k < |latency|
        invariant 0 <= k <= |latency| && (n, total) == SumPositive(latency[..k])
      {
        assert latency[..k + 1][..k] == latency[..k];
        if latency[k] > 0.0 { n, total := n + 1, total + latency[k]; }
        k := k + 1;
      }
      assert latency[..k] == latency;
      t := if n > 0 then total / n as real else NODE_TRAVERSAL_TIME;
    }

    method Wait(ttl: nat, now: real) returns (timeout: real)
      ensures timeout == NextTimeout(ttl, reqCnt, PerHopTime(Value()), now)
    {
      var perHop := MeanLatency();
      timeout := 2.0 * ttl as real * perHop;
      if reqCnt > 0 { timeout := timeout * reqCnt as real; }
      timeout := timeout + now;
      if timeout > now + MAX_RREQ_TIMEOUT { timeout := now + MAX_RREQ_TIMEOUT; }
    }

    /** The part of sendRequest between the rate limit and the packet. */
    method Attempt(now: real)
      modifies this
      ensures Value() == NextAttempt(old(Value()), now)
    {
      reqTtl := Max(reqTtl, lastHops);
      var ttl;
      if reqTtl == 0 {
        ttl := TTL_START;
      } else if reqTtl < TTL_THRESHOLD {
        ttl := reqTtl + TTL_INCREMENT;
      } else {
        ttl := NETWORK_DIAMETER;
        reqCnt := reqCnt + 1;
      }
      reqTtl := ttl;
      reqTimeout := Wait(ttl, now);
      expire := 0.0;
    }
  }
}
