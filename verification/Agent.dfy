/** The routing agent in place: the fields of class EAMRP and its handlers as methods that update them. Every method
    is proved against the function of the same step in Nodes.dfy. */
module Agents {
  import opened Basics
  import opened Routes
  import opened Buffers
  import opened Nodes
  import opened RouteEntries
  import opened PacketBuffer
  import opened InterfaceQueue
  import opened Network

  class Agent {
    const id: Addr
    const cfg: Config
    var seqno: nat
    var bid: nat
    var rtable: seq<RouteEntry>     // head first
    var ids: seq<BroadcastId>       // head first
    var nbrs: seq<Neighbor>         // head first
    const rqueue: PacketQueue
    const ifqueue: PriQueue
    var out: seq<Out>               // handed to the scheduler
    ghost var table: map<Addr, Entry>
    ghost var said: set<Advert>
    ghost var entries: set<RouteEntry>
    ghost var order: seq<Addr>

    ghost predicate Valid()
      reads this, entries, rqueue, rqueue.repr
    {
      TableValid() && rqueue.Valid()
    }

    /** The route table is mirrored by the ghost fields. */
    ghost predicate TableValid()
      reads this, entries
    {
      && Listing(order, table.Keys)
      && |order| == |rtable|
      && (forall k | 0 <= k < |rtable| :: rtable[k] in entries && order[k] == rtable[k].dst && Mirrored(rtable[k]))
    }

    /** The ghost table holds the value of entry `rt`. */
    ghost predicate Mirrored(rt: RouteEntry)
      reads this, rt
    {
      rt.dst in table && table[rt.dst] == rt.Value()
    }

    /** The state this agent is in, as a value. */
    ghost function State(): Node
      requires Valid()
      reads this, entries, rqueue, rqueue.repr, ifqueue
    {
      Node(id, cfg, seqno, bid, table, order, ids, nbrs, rqueue.Contents(), ifqueue.q, out, said)
    }

    constructor (i: Addr, c: Config, ifq: PriQueue)
      ensures Valid() && fresh(rqueue) && fresh(rqueue.repr) && fresh(entries)
      ensures id == i && cfg == c && ifqueue == ifq
      ensures ifq.q == [] ==> State() == NewNode(i, c)
    {
      id, cfg := i, c;
      seqno, bid := 2, 1;
      rtable, ids, nbrs, out := [], [], [], [];
      rqueue := new PacketQueue();
      ifqueue := ifq;
      table, said, entries, order := map[], {}, {}, [];
    }

    // ---- Broadcast ids and neighbours ----

    method IdGet(src: Addr, bcast: nat) returns (r: Option<nat>)
      ensures r == FindId(ids, src, bcast)
    {
      var k := 0;
      while k < |ids|
        invariant 0 <= k <= |ids|
        invariant forall i | 0 <= i < k :: ids[i].src != src || ids[i].id != bcast
      {
        if ids[k].src == src && ids[k].id == bcast { return Some(k); }
        k := k + 1;
      }
      return None;
    }

    method IdInsert(src: Addr, bcast: nat, now: real)
      requires Valid()
      modifies this
      ensures Valid() && entries == old(entries) && rtable == old(rtable)
      ensures State() == old(State()).(ids := [BroadcastId(src, bcast, now + BCAST_ID_SAVE, 0)] + old(ids))
    {
      ids := [BroadcastId(src, bcast, now + BCAST_ID_SAVE, 0)] + ids;
      rqueue.Untouched();
    }

    method IdPurgeAll(now: real)
      requires Valid()
      modifies this
      ensures Valid() && entries == old(entries)
      ensures State() == IdPurge(old(State()), now)
    {
      RemoveOldIds(now);
    }

    method RemoveOldIds(now: real)
      modifies this`ids
      ensures ids == LiveIds(old(ids), now)
    {
      var k := 0;
      while k < |ids|
        invariant 0 <= k <= |ids| && LiveIds(ids, now) == LiveIds(old(ids), now)
        invariant forall i | 0 <= i < k :: now < ids[i].expire
        decreases |ids| - k
      {
        if ids[k].expire <= now {
          LiveIdsDelete(ids, k, now);
          ids := ids[..k] + ids[k + 1..];
        } else {
          k := k + 1;
        }
      }
      LiveIdsAll(ids, now);
    }

    // ---- Route table ----

    /** rt_lookup: the entry and its position, or null. */
    method RtLookup(d: Addr) returns (rt: RouteEntry?, ghost k: nat)
      requires Valid()
      ensures rt == null ==> d !in table
      ensures rt != null ==> k < |rtable| && rtable[k] == rt && rt.dst == d && d in table
    {
      rt, k := null, 0;
      var i := 0;
      while i < |rtable|
        invariant 0 <= i <= |rtable| && rt == null
        invariant forall j | 0 <= j < i :: rtable[j].dst != d
      {
        if rtable[i].dst == d { return rtable[i], i; }
        i := i + 1;
      }
    }

    /** rt_lookup, then rt_add when there is no entry. */
    method RtEnsure(d: Addr) returns (rt: RouteEntry, ghost k: nat)
      requires Valid()
      modifies this
      ensures Valid() && fresh(entries - old(entries))
      ensures State() == EnsureEntry(old(State()), d)
      ensures k < |rtable| && rtable[k] == rt && rt.dst == d
    {
      var found;
      found, k := RtLookup(d);
      if found != null {
        rt := found;
      } else {
        rt := new RouteEntry(d);
        RtAdd(rt);
        k := 0;
      }
    }

    method RtAdd(rt: RouteEntry)
      requires Valid() && rt.dst !in table && rt.Value() == NewEntry(rt.dst)
      modifies this`rtable, this`table, this`entries, this`order
      ensures Valid() && entries == old(entries) + {rt} && rtable == [rt] + old(rtable)
      ensures State() == EnsureEntry(old(State()), rt.dst)
    {
      AddEntry(rt);
      rqueue.Untouched();
    }

    method AddEntry(rt: RouteEntry)
      requires TableValid() && rt.dst !in table
      modifies this`rtable, this`table, this`entries, this`order
      ensures TableValid() && entries == old(entries) + {rt} && rtable == [rt] + old(rtable)
      ensures table == old(table)[rt.dst := rt.Value()] && order == [rt.dst] + old(order)
    {
      ghost var was := rtable;
      ListingAdd(order, table.Keys, rt.dst);
      rtable := [rt] + rtable;
      table := table[rt.dst := rt.Value()];
      entries := entries + {rt};
      order := [rt.dst] + order;
      assert table.Keys == old(table.Keys) + {rt.dst};
      forall k | 0 <= k < |rtable| ensures rtable[k] in entries && order[k] == rtable[k].dst && Mirrored(rtable[k]) {
        if k > 0 { assert rtable[k] == was[k - 1] && was[k - 1].dst in old(table); }
      }
    }

    /** `rt` is the entry at position `k`. */
    ghost predicate Entered(rt: RouteEntry, k: nat)
      reads this
    {
      k < |rtable| && rtable[k] == rt
    }

    /** Everything `TableValid` says, except that entry `rt` may have moved on from the ghost table. */
    ghost predicate ValidBut(rt: RouteEntry, k: nat)
      reads this, entries
    {
      && Entered(rt, k)
      && Listing(order, table.Keys)
      && |order| == |rtable|
      && (forall j | 0 <= j < |rtable| :: rtable[j] in entries && order[j] == rtable[j].dst)
      && (forall j | 0 <= j < |rtable| && j != k :: Mirrored(rtable[j]))
    }

    /** The ghost table catches up with entry `rt`. */
    ghost method Catch(rt: RouteEntry, k: nat)
      requires ValidBut(rt, k)
      modifies this`table
      ensures TableValid() && table == old(table)[rt.dst := rt.Value()]
    {
      assert order[k] in table.Keys;
      table := table[rt.dst := rt.Value()];
      assert table.Keys == old(table.Keys);
      assert forall j | 0 <= j < |rtable| && j != k :: order[j] != order[k];
    }

    /** The route table is as it was when no entry and no field has changed. */
    twostate lemma TableUntouched()
      requires old(TableValid()) && unchanged(this) && unchanged(entries)
      ensures TableValid()
    {
    }

    // ---- Sending ----

    method EmitMsg(m: Msg)
      requires Valid()
      modifies this`out, this`said
      ensures Valid() && State() == Emit(old(State()), m)
    {
      out := out + [Send(m)];
      said := said + Adverts(m);
      rqueue.Untouched();
    }

    method Hand(o: Out)
      requires Valid()
      modifies this`out
      ensures Valid() && State() == old(State()).(out := old(out) + [o])
    {
      out := out + [o];
      rqueue.Untouched();
    }

    /** forward() of a data packet. */
    method ForwardData(rt: RouteEntry, ghost k: nat, p: Pkt, now: real)
      requires Valid() && Entered(rt, k)
      modifies this`table, this`out, rt
      ensures Valid() && State() == Forward(old(State()), rt.dst, p, now)
    {
      if p.ttl == 0 {
        Hand(Dropped(p));
      } else if p.dst == id {
        Hand(Deliver(p));
      } else {
        var path := rt.PathFind();
        if path.Some? {
          UsePath(rt, k, p.src != id && p.isData, now);
          Hand(Transmit(p.(nexthop := path.value.nexthop)));
        }
      }
    }

    /** The preferred path is used and so kept alive. */
    method UsePath(rt: RouteEntry, ghost k: nat, marked: bool, now: real)
      requires Valid() && Entered(rt, k) && rt.paths != []
      modifies this`table, rt
      ensures Valid()
      ensures var e := TouchHead(old(table)[rt.dst], now);
        State() == Put(old(State()), rt.dst, if marked then e.(rtError := true) else e)
    {
      rt.Touch(now);
      if marked { rt.MarkError(); }
      Catch(rt, k);
      rqueue.Untouched();
    }

    /** rqueue.deque(dst) */
    method TakeFor(d: Addr, now: real) returns (p: Packet?)
      requires Valid()
      modifies rqueue, rqueue.repr
      ensures Valid() && rqueue.repr <= old(rqueue.repr)
      ensures var (q, b) := Deque(old(State()).buffer, d, now);
        && q == (if p == null then None else Some(p.body))
        && State() == old(State()).(buffer := b)
    {
      p := rqueue.Deque(d, now);
      TableUntouched();
    }

    /** while ((p = rqueue.deque(dst))) forward(rt, p) */
    method FlushBuffer(rt: RouteEntry, ghost k: nat, now: real)
      requires Valid() && Entered(rt, k)
      modifies this`table, this`out, rt, rqueue, rqueue.repr
      ensures Valid() && rqueue.repr <= old(rqueue.repr)
      ensures State() == Flush(old(State()), rt.dst, now)
    {
      ghost var goal := Flush(State(), rt.dst, now);
      var p := TakeFor(rt.dst, now);
      while p != null
        invariant Valid() && rqueue.repr <= old(rqueue.repr)
        invariant goal == if p == null then State() else Flush(Forward(State(), rt.dst, p.body, now), rt.dst, now)
        decreases if p == null then 0 else 1 + |State().buffer.q|
      {
        ForwardData(rt, k, p.body, now);
        p := TakeFor(rt.dst, now);
      }
    }

    /** while ((p = rqueue.deque(dst))) drop(p) */
    method DrainBuffer(d: Addr, now: real)
      requires Valid()
      modifies this`out, rqueue, rqueue.repr
      ensures Valid() && rqueue.repr <= old(rqueue.repr)
      ensures State() == Drain(old(State()), d, now)
    {
      ghost var goal := Drain(State(), d, now);
      var p := TakeFor(d, now);
      while p != null
        invariant Valid() && rqueue.repr <= old(rqueue.repr)
        invariant goal == if p == null then State() else Drain(State().(out := out + [Dropped(p.body)]), d, now)
        decreases if p == null then 0 else 1 + |State().buffer.q|
      {
        Hand(Dropped(p.body));
        p := TakeFor(d, now);
      }
    }

    /** sendRequest */
    method AskFor(rt: RouteEntry, ghost k: nat, now: real)
      requires Valid() && Entered(rt, k)
      modifies this`table, this`bid, this`seqno, this`out, this`said, rt, rqueue, rqueue.repr
      ensures Valid() && rqueue.repr <= old(rqueue.repr)
      ensures State() == SendRequest(old(State()), rt.dst, now)
    {
      if rt.flags.Up? || rt.reqTimeout > now {
      } else if rt.reqCnt > RREQ_RETRIES {
        PauseRoute(rt, k, now);
        DrainBuffer(rt.dst, now);
      } else {
        AttemptAndIssue(rt, k, now);
      }
    }

    method AttemptAndIssue(rt: RouteEntry, ghost k: nat, now: real)
      requires Valid() && Entered(rt, k)
      modifies this`table, this`bid, this`seqno, this`out, this`said, rt
      ensures Valid()
      ensures var n := old(State()); State() == IssueRequest(n, rt.dst, NextAttempt(n.table[rt.dst], now))
    {
      AttemptRoute(rt, k, now);
      Issue(rt, k);
    }

    method PauseRoute(rt: RouteEntry, ghost k: nat, now: real)
      requires Valid() && Entered(rt, k)
      modifies this`table, rt
      ensures Valid() && State() == Put(old(State()), rt.dst, GiveUp(old(table)[rt.dst], now))
    {
      rt.Pause(now);
      Catch(rt, k);
      rqueue.Untouched();
    }

    method AttemptRoute(rt: RouteEntry, ghost k: nat, now: real)
      requires Valid() && Entered(rt, k)
      modifies this`table, rt
      ensures Valid() && State() == Put(old(State()), rt.dst, NextAttempt(old(table)[rt.dst], now))
    {
      rt.Attempt(now);
      Catch(rt, k);
      rqueue.Untouched();
    }

    /** The RREQ packet itself. */
    method Issue(rt: RouteEntry, ghost k: nat)
      requires Valid() && Entered(rt, k)
      modifies this`bid, this`seqno, this`out, this`said
      ensures Valid() && State() == IssueRequest(old(State()), rt.dst, table[rt.dst])
    {
      var b := NextBid();
      assert Mirrored(rt) && table[rt.dst := table[rt.dst]] == table;
      EmitMsg(Rreq(Request(id, rt.reqTtl, 0, b, rt.dst, rt.seqno, id, seqno, 0)));
    }

    /** A new broadcast id and a new even sequence number. */
    method NextBid() returns (b: nat)
      requires Valid()
      modifies this`bid, this`seqno
      ensures Valid() && b == old(bid) && State() == old(State()).(bid := old(bid) + 1, seqno := old(seqno) + 2)
    {
      b := bid;
      bid := bid + 1;
      seqno := seqno + 2;
      rqueue.Untouched();
    }

    /** A route that has come up. */
    method SettleRoute(rt: RouteEntry, ghost k: nat, now: real)
      requires Valid() && Entered(rt, k)
      modifies this`table, this`out, rt, rqueue, rqueue.repr
      ensures Valid() && rqueue.repr <= old(rqueue.repr)
      ensures State() == Settle(old(State()), rt.dst, now)
    {
      if rt.flags.Up? {
        ResetRoute(rt, k);
        FlushBuffer(rt, k, now);
      }
    }

    method ResetRoute(rt: RouteEntry, ghost k: nat)
      requires Valid() && Entered(rt, k)
      modifies this`table, rt
      ensures Valid() && State() == Put(old(State()), rt.dst, SoftReset(old(table)[rt.dst]))
    {
      rt.ResetRequests();
      Catch(rt, k);
      rqueue.Untouched();
    }

    // ---- Route requests ----

    /** The request is cached and its reverse path learned. */
    method Absorb(m: Request, now: real) returns (rt: RouteEntry, v: Verdict, ghost k: nat)
      requires Valid()
      modifies this, entries
      ensures Valid() && Entered(rt, k) && rt.dst == m.src && fresh(entries - old(entries))
      ensures (State(), v) == AbsorbRequest(old(State()), m, now)
    {
      rt, k := Note(m, now);
      v := LearnReverseRoute(rt, k, RequestOffer(id, m, now), m.dst == id);
    }

    method Note(m: Request, now: real) returns (rt: RouteEntry, ghost k: nat)
      requires Valid()
      modifies this
      ensures Valid() && Entered(rt, k) && rt.dst == m.src && fresh(entries - old(entries))
      ensures State() == EnsureEntry(CacheId(old(State()), m.src, m.bcastId, now), m.src)
    {
      CacheRequest(m.src, m.bcastId, now);
      rt, k := RtEnsure(m.src);
    }

    method CacheRequest(src: Addr, bcast: nat, now: real)
      requires Valid()
      modifies this
      ensures Valid() && entries == old(entries) && rtable == old(rtable)
      ensures State() == CacheId(old(State()), src, bcast, now)
    {
      var b := IdGet(src, bcast);
      if b.None? { IdInsert(src, bcast, now); }
    }

    method LearnReverseRoute(rt: RouteEntry, ghost k: nat, o: Offer, forMe: bool) returns (v: Verdict)
      requires Valid() && Entered(rt, k)
      modifies this`table, rt
      ensures Valid() && Entered(rt, k)
      ensures var (e, w) := LearnReverse(cfg, old(table)[rt.dst], o, forMe);
        v == w && State() == Put(old(State()), rt.dst, e)
    {
      v := LearnBack(rt, k, o, forMe);
      rqueue.Untouched();
    }

    method LearnBack(rt: RouteEntry, ghost k: nat, o: Offer, forMe: bool) returns (v: Verdict)
      requires TableValid() && Entered(rt, k)
      modifies this`table, rt
      ensures TableValid()
      ensures var (e, w) := LearnReverse(cfg, old(table)[rt.dst], o, forMe); v == w && table == old(table)[rt.dst := e]
    {
      v := rt.LearnReversePath(cfg, o, forMe);
      Catch(rt, k);
    }

    /** recvRequest */
    method RecvRequestMsg(m: Request, now: real)
      requires Valid()
      modifies this, entries, rqueue, rqueue.repr
      ensures Valid() && fresh(entries - old(entries)) && rqueue.repr <= old(rqueue.repr)
      ensures State() == RecvRequest(old(State()), m, now)
    {
      if m.src == id { return; }
      var cached := IdGet(m.src, m.bcastId);
      var rt, v, k := Absorb(m, now);
      if v.Keep? { Finish(rt, k, m, v.hasPath, cached.Some?, now); }
    }

    method Finish(rt: RouteEntry, ghost k: nat, m: Request, hasPath: bool, dup: bool, now: real)
      requires Valid() && Entered(rt, k) && rt.dst == m.src
      modifies this, entries, rqueue, rqueue.repr
      ensures Valid() && entries == old(entries) && rqueue.repr <= old(rqueue.repr)
      ensures State() == FinishRequest(old(State()), m, hasPath, dup, now)
    {
      SettleRoute(rt, k, now);
      Answer(rt, k, m, hasPath, dup, now);
    }

    /** Reply as the destination, reply from the route table, or pass the request on. */
    method Answer(rt: RouteEntry, ghost k: nat, m: Request, hasPath: bool, dup: bool, now: real)
      requires Valid() && Entered(rt, k) && rt.dst == m.src
      modifies this`table, this`seqno, this`ids, this`out, this`said, entries
      ensures Valid() && State() == AnswerRequest(old(State()), m, hasPath, dup, now)
    {
      if m.dst == id {
        AnswerForSelf(m);
        return;
      }
      var fwd, j := RtLookup(m.dst);
      assert fwd != null ==> Mirrored(fwd);
      if fwd != null && fwd.flags.Up? && fwd.seqno >= m.dstSeqno {
        if hasPath { AnswerFromTable(fwd, j, m, now); }
      } else if !dup {
        PassOn(rt, k, m, if fwd == null then m.dstSeqno else Max(fwd.seqno, m.dstSeqno));
      }
    }

    method AnswerForSelf(m: Request)
      requires Valid()
      modifies this`seqno, this`out, this`said
      ensures Valid() && State() == ReplyAsDestination(old(State()), m)
    {
      RaiseSeqno(m.dstSeqno);
      EmitMsg(Rrep(Reply(m.ipSrc, id, m.src, NETWORK_DIAMETER, 0, id, seqno, id, MY_ROUTE_TIMEOUT, m.bcastId,
                         m.ipSrc)));
    }

    method RaiseSeqno(asked: nat)
      requires Valid()
      modifies this`seqno
      ensures Valid()
      ensures var s := if old(seqno) < asked then asked + 1 else old(seqno);
        State() == old(State()).(seqno := if s % 2 != 0 then s + 1 else s)
    {
      if seqno < asked { seqno := asked + 1; }
      if seqno % 2 != 0 { seqno := seqno + 1; }
      rqueue.Untouched();
    }

    /** b->count = 1 */
    method MarkCount(i: nat)
      requires Valid() && i < |ids|
      modifies this`ids
      ensures Valid() && State() == MarkReplied(old(State()), i)
    {
      ids := ids[i := ids[i].(count := 1)];
      rqueue.Untouched();
    }

    method AnswerFromTable(fwd: RouteEntry, ghost j: nat, m: Request, now: real)
      requires Valid() && Entered(fwd, j) && fwd.dst == m.dst
      modifies this`table, this`ids, this`out, this`said, entries
      ensures Valid() && State() == ReplyFromTable(old(State()), m, now)
    {
      var i := IdGet(m.src, m.bcastId);
      assert Mirrored(fwd);
      if i.Some? && ids[i.value].count == 0 && fwd.paths != [] { AnswerAlong(fwd, j, i.value, m, now); }
    }

    method AnswerAlong(fwd: RouteEntry, ghost j: nat, i: nat, m: Request, now: real)
      requires Valid() && Entered(fwd, j) && fwd.dst == m.dst && fwd.paths != []
      requires FindId(ids, m.src, m.bcastId) == Some(i) && ids[i].count == 0
      modifies this`table, this`ids, this`out, this`said, entries
      ensures Valid() && State() == ReplyFromTable(old(State()), m, now)
    {
      Endorse(fwd, j, i);
      EmitMsg(Rrep(Reply(m.ipSrc, id, m.src, NETWORK_DIAMETER, HopField(fwd.adv), m.dst, fwd.seqno, id,
                         fwd.paths[0].expire - now, m.bcastId, fwd.paths[0].lasthop)));
    }

    /** The route is advertised, and its errors will be reported. */
    method Commit(rt: RouteEntry, ghost k: nat)
      requires Valid() && Entered(rt, k)
      modifies this`table, rt
      ensures Valid() && State() == Put(old(State()), rt.dst, Advertise(old(table)[rt.dst]).(rtError := true))
    {
      rt.AdvertiseHops();
      rt.MarkError();
      Catch(rt, k);
      rqueue.Untouched();
    }

    /** The route is advertised. */
    method Announce(rt: RouteEntry, ghost k: nat)
      requires Valid() && Entered(rt, k)
      modifies this`table, rt
      ensures Valid() && State() == Put(old(State()), rt.dst, Advertise(old(table)[rt.dst]))
    {
      rt.AdvertiseHops();
      Catch(rt, k);
      rqueue.Untouched();
    }

    /** The request is broadcast again, with this node as its sender. */
    method PassOn(rt: RouteEntry, ghost k: nat, m: Request, asked: nat)
      requires Valid() && Entered(rt, k) && rt.dst == m.src
      requires asked == if m.dst in table then Max(table[m.dst].seqno, m.dstSeqno) else m.dstSeqno
      modifies this`table, this`out, this`said, entries
      ensures Valid() && State() == Rebroadcast(old(State()), m)
    {
      Announce(rt, k);
      if m.ttl == 0 { return; }
      var path := rt.PathFind();
      if path.Some? {
        EmitMsg(Rreq(m.(ipSrc := id, dstSeqno := asked, hopCount := HopField(rt.adv), firstHop := path.value.lasthop)));
      }
    }

    // ---- Replies and HELLOs ----

    method LearnForwardRoute(rt: RouteEntry, ghost k: nat, o: Offer) returns (kept: bool)
      requires Valid() && Entered(rt, k)
      modifies this`table, rt
      ensures Valid()
      ensures var (e, b) := LearnForward(cfg, old(table)[rt.dst], o);
        kept == b && State() == Put(old(State()), rt.dst, e)
    {
      kept := LearnAhead(rt, k, o);
      rqueue.Untouched();
    }

    method LearnAhead(rt: RouteEntry, ghost k: nat, o: Offer) returns (kept: bool)
      requires TableValid() && Entered(rt, k)
      modifies this`table, rt
      ensures TableValid()
      ensures var (e, b) := LearnForward(cfg, old(table)[rt.dst], o); kept == b && table == old(table)[rt.dst := e]
    {
      kept := rt.LearnForwardPath(cfg, o);
      Catch(rt, k);
    }

    /** recvReply */
    method RecvReplyMsg(m: Reply, now: real)
      requires Valid()
      modifies this, entries, rqueue, rqueue.repr
      ensures Valid() && fresh(entries - old(entries)) && rqueue.repr <= old(rqueue.repr)
      ensures State() == RecvReply(old(State()), m, now)
    {
      if m.dst == id { return; }
      var rt, kept, k := AbsorbForward(m, now);
      if kept { ActOnReply(rt, k, m, now); }
    }

    /** What a kept reply leads to. */
    method ActOnReply(rt: RouteEntry, ghost k: nat, m: Reply, now: real)
      requires Valid() && Entered(rt, k) && rt.dst == m.dst
      modifies this`table, this`ids, this`out, this`said, entries, rqueue, rqueue.repr
      ensures Valid() && rqueue.repr <= old(rqueue.repr)
      ensures State() == FinishReply(old(State()), m, now)
    {
      SettleRoute(rt, k, now);
      if m.ipDst != id { Relay(rt, k, m, now); }
    }

    method AbsorbForward(m: Reply, now: real) returns (rt: RouteEntry, kept: bool, ghost k: nat)
      requires Valid()
      modifies this, entries
      ensures Valid() && Entered(rt, k) && rt.dst == m.dst && fresh(entries - old(entries))
      ensures (State(), kept) == AbsorbReply(old(State()), m, now)
    {
      rt, k := RtEnsure(m.dst);
      kept := LearnForwardRoute(rt, k, ReplyOffer(m, now));
    }

    /** The reply goes on towards the node that asked, if its request is cached and not yet answered. */
    method Relay(rt: RouteEntry, ghost k: nat, m: Reply, now: real)
      requires Valid() && Entered(rt, k) && rt.dst == m.dst
      modifies this`table, this`ids, this`out, this`said, entries
      ensures Valid() && State() == RelayReply(old(State()), m, now)
    {
      var i := IdGet(m.ipDst, m.bcastId);
      var back, j := RtLookup(m.ipDst);
      if back == null || i.None? || ids[i.value].count != 0 { return; }
      assert Mirrored(rt) && Mirrored(back);
      if back.flags.Up? && back.paths != [] && rt.paths != [] { RelayAlong(rt, k, back, j, i.value, m, now); }
    }

    method RelayAlong(rt: RouteEntry, ghost k: nat, back: RouteEntry, ghost j: nat, i: nat, m: Reply, now: real)
      requires Valid() && Entered(rt, k) && rt.dst == m.dst && Entered(back, j) && back.dst == m.ipDst
      requires back.flags.Up? && back.paths != [] && rt.paths != []
      requires FindId(ids, m.ipDst, m.bcastId) == Some(i) && ids[i].count == 0
      modifies this`table, this`ids, this`out, this`said, entries
      ensures Valid() && State() == RelayReply(old(State()), m, now)
    {
      Endorse(rt, k, i);
      UsePath(back, j, false, now);
      RelayOut(rt, k, back, j, m);
    }

    /** The cached request is answered with the route to `rt.dst`. */
    method Endorse(rt: RouteEntry, ghost k: nat, i: nat)
      requires Valid() && Entered(rt, k) && i < |ids|
      modifies this`table, this`ids, rt
      ensures Valid()
      ensures State() == Put(MarkReplied(old(State()), i), rt.dst, Advertise(old(table)[rt.dst]).(rtError := true))
    {
      MarkCount(i);
      Commit(rt, k);
    }

    method RelayOut(rt: RouteEntry, ghost k: nat, back: RouteEntry, ghost j: nat, m: Reply)
      requires Valid() && Entered(rt, k) && rt.dst == m.dst && Entered(back, j) && back.dst == m.ipDst
      requires back.paths != [] && rt.paths != []
      modifies this`out, this`said
      ensures Valid() && State() == EmitRelay(old(State()), m, table[rt.dst])
    {
      if m.ttl != 0 {
        EmitMsg(Rrep(m.(nextHop := back.paths[0].nexthop, rpSrc := id, hopCount := HopField(rt.adv),
                        firstHop := rt.paths[0].lasthop)));
      }
    }

    method NbLookup(a: Addr) returns (r: Option<nat>)
      ensures r == FindNeighbor(nbrs, a)
    {
      var k := 0;
      while k < |nbrs|
        invariant 0 <= k <= |nbrs|
        invariant forall i | 0 <= i < k :: nbrs[i].addr != a
      {
        if nbrs[k].addr == a { return Some(k); }
        k := k + 1;
      }
      return None;
    }

    method NbHear(a: Addr, now: real)
      requires Valid()
      modifies this`nbrs
      ensures Valid() && State() == HearNeighbor(old(State()), a, now)
    {
      var f := NbLookup(a);
      if f.None? {
        nbrs := [Neighbor(a, now + HELLO_INTERVAL * ALLOWED_HELLO_LOSS)] + nbrs;
      } else {
        nbrs := nbrs[f.value := nbrs[f.value].(expire := now + 1.5 * ALLOWED_HELLO_LOSS * HELLO_INTERVAL)];
      }
      rqueue.Untouched();
    }

    /** recvHello */
    method RecvHelloMsg(m: Greeting, now: real)
      requires Valid()
      modifies this, entries, rqueue, rqueue.repr
      ensures Valid() && fresh(entries - old(entries)) && rqueue.repr <= old(rqueue.repr)
      ensures State() == RecvHello(old(State()), m, now)
    {
      NbHear(m.dst, now);
      RecvReplyMsg(HelloReply(id, m), now);
    }

    /** The HELLO timer: a HELLO goes out only while some route is up. */
    method HelloTick()
      requires Valid()
      modifies this`out, this`said
      ensures Valid() && State() == HelloTimer(old(State()))
    {
      var active := HasActive();
      if active {
        EmitMsg(Hello(Greeting(id, 1, id, seqno, (1.0 + ALLOWED_HELLO_LOSS) * HELLO_INTERVAL)));
      }
    }

    /** rt_has_active_route */
    method HasActive() returns (b: bool)
      requires Valid()
      ensures b == HasActiveRoute(State())
    {
      var k := 0;
      while k < |rtable|
        invariant 0 <= k <= |rtable|
        invariant forall i | 0 <= i < k :: rtable[i].flags.Down?
      {
        if rtable[k].flags.Up? {
          assert order[k] in table && table[order[k]].flags.Up?;
          return true;
        }
        k := k + 1;
      }
      forall d | d in table ensures table[d].flags.Down? {
        var i :| 0 <= i < |order| && order[i] == d;
        assert Mirrored(rtable[i]);
      }
      return false;
    }

    // ---- Errors and link failures ----

    method ErrorOne(rt: RouteEntry, ghost k: nat, from: Addr, s: nat) returns (told: seq<(Addr, nat)>)
      requires Valid() && Entered(rt, k)
      modifies this`table, rt
      ensures Valid()
      ensures var e := old(table)[rt.dst];
        var e' := ErrorRoute(e, from, s);
        State() == Put(old(State()), rt.dst, e') && told == Notice(e, e')
    {
      told := rt.HearError(from, s);
      Catch(rt, k);
      rqueue.Untouched();
    }

    method FailOne(rt: RouteEntry, ghost k: nat, nb: Addr) returns (told: seq<(Addr, nat)>)
      requires Valid() && Entered(rt, k)
      modifies this`table, rt
      ensures Valid()
      ensures var e := old(table)[rt.dst];
        var e' := FailRoute(e, nb);
        State() == Put(old(State()), rt.dst, e') && told == Notice(e, e')
    {
      told := rt.Fail(nb);
      Catch(rt, k);
      rqueue.Untouched();
    }

    /** recvError */
    method RecvErrorMsg(m: Error)
      requires Valid()
      modifies this`table, this`out, this`said, entries
      ensures Valid() && State() == RecvError(old(State()), m)
    {
      var told := HearErrors(m.ipSrc, m.dests);
      if told != [] { EmitMsg(Rerr(Error(id, 1, told))); }
    }

    /** The loop of recvError. */
    method HearErrors(from: Addr, dests: seq<(Addr, nat)>) returns (told: seq<(Addr, nat)>)
      requires Valid()
      modifies this`table, entries
      ensures Valid() && (State(), told) == ErrorAll(old(State()), from, dests)
    {
      told := [];
      var i := 0;
      while i < |dests|
        invariant 0 <= i <= |dests| && Valid()
        invariant (State(), told) == ErrorAll(old(State()), from, dests[..i])
      {
        assert dests[..i + 1][..i] == dests[..i];
        var (d, s) := dests[i];
        var t := HearErrorAbout(d, from, s);
        assert told + [] == told;
        told := told + t;
        i := i + 1;
      }
      assert dests[..i] == dests;
    }

    method HearErrorAbout(d: Addr, from: Addr, s: nat) returns (told: seq<(Addr, nat)>)
      requires Valid()
      modifies this`table, entries
      ensures Valid()
      ensures if d !in old(table) then State() == old(State()) && told == []
        else var e := old(table)[d];
          var e' := ErrorRoute(e, from, s);
          State() == Put(old(State()), d, e') && told == Notice(e, e')
    {
      told := [];
      var rt, k := RtLookup(d);
      if rt != null { told := ErrorOne(rt, k, from, s); }
    }

    /** handle_link_failure */
    method HandleLinkFailure(nb: Addr)
      requires Valid()
      modifies this`table, this`out, this`said, entries
      ensures Valid() && State() == LinkFailure(old(State()), nb)
    {
      var told := FailRoutes(nb);
      if told != [] { EmitMsg(Rerr(Error(id, 1, told))); }
    }

    /** The loop of handle_link_failure. */
    method FailRoutes(nb: Addr) returns (told: seq<(Addr, nat)>)
      requires Valid()
      modifies this`table, entries
      ensures Valid() && (State(), told) == FailAll(old(State()), nb, order)
    {
      told := [];
      ghost var was := State();
      var i := 0;
      while i < |rtable|
        invariant 0 <= i <= |rtable| && Valid() && order == was.order
        invariant (State(), told) == FailAll(was, nb, was.order[..i])
      {
        told := FailAt(nb, i, told, was);
        i := i + 1;
      }
      assert was.order[..i] == was.order;
    }

    /** Turn `i` of the loop of handle_link_failure. */
    method FailAt(nb: Addr, i: nat, told: seq<(Addr, nat)>, ghost was: Node) returns (told': seq<(Addr, nat)>)
      requires Valid() && i < |rtable| && order == was.order
      requires (State(), told) == FailAll(was, nb, was.order[..i])
      modifies this`table, entries
      ensures Valid() && (State(), told') == FailAll(was, nb, was.order[..i + 1])
    {
      assert was.order[..i + 1][..i] == was.order[..i];
      var t := FailOne(rtable[i], i, nb);
      told' := told + t;
    }

    // ---- Neighbours ----

    method NbRemove(a: Addr)
      requires Valid()
      modifies this`nbrs, this`seqno
      ensures Valid() && State() == old(State()).(seqno := old(seqno) + 2, nbrs := WithoutNeighbor(old(nbrs), a))
    {
      seqno := seqno + 2;
      var f := NbLookup(a);
      if f.Some? { nbrs := nbrs[..f.value] + nbrs[f.value + 1..]; }
      rqueue.Untouched();
    }

    method TakeBound(nb: Addr) returns (p: Option<Pkt>)
      requires Valid()
      modifies ifqueue`q
      ensures Valid()
      ensures match FindNextHop(old(State()).ifq, nb)
        case None => p == None && State() == old(State())
        case Some(k) => p == Some(old(State()).ifq[k]) && State() == old(State()).(ifq := RemoveAt(old(State()).ifq, k))
    {
      p := ifqueue.FilterNextHop(nb);
      TableUntouched();
      rqueue.Untouched();
    }

    method SalvagePacket(p: Pkt, now: real)
      requires Valid()
      modifies this`table, this`out, entries
      ensures Valid() && State() == SalvageOne(old(State()), p, now)
    {
      var rt, k := RtLookup(p.dst);
      assert rt != null ==> Mirrored(rt);
      if p.isData && rt != null && rt.flags.Up? && p.salvage < MAX_SALVAGE_COUNT {
        SendOnward(rt, k, p, now);
      } else {
        Hand(Dropped(p));
      }
    }

    /** A salvaged packet takes the preferred path. */
    method SendOnward(rt: RouteEntry, ghost k: nat, p: Pkt, now: real)
      requires Valid() && Entered(rt, k) && rt.dst == p.dst && table[p.dst] == rt.Value()
      requires p.isData && rt.flags.Up? && p.salvage < MAX_SALVAGE_COUNT
      modifies this`table, this`out, rt
      ensures Valid() && State() == SalvageOne(old(State()), p, now)
    {
      ForwardData(rt, k, p.(salvage := p.salvage + 1), now);
    }

    /** The loop of nb_delete over the interface queue. */
    method SalvageAll(nb: Addr, now: real)
      requires Valid()
      modifies this`table, this`out, entries, ifqueue`q
      ensures Valid() && State() == Salvage(old(State()), nb, now)
    {
      ghost var goal := Salvage(State(), nb, now);
      var p := TakeBound(nb);
      while p.Some?
        invariant Valid()
        invariant goal == if p.None? then State() else Salvage(SalvageOne(State(), p.value, now), nb, now)
        decreases if p.None? then 0 else 1 + |State().ifq|
      {
        SalvagePacket(p.value, now);
        p := TakeBound(nb);
      }
    }

    /** nb_delete */
    method NbDelete(a: Addr, now: real)
      requires Valid()
      modifies this`table, this`seqno, this`nbrs, this`out, this`said, entries, ifqueue`q
      ensures Valid() && State() == LoseNeighbor(old(State()), a, now)
    {
      ghost var n := State().(seqno := seqno + 2, nbrs := WithoutNeighbor(nbrs, a));
      NbRemove(a);
      assert State() == n;
      FailAndSalvage(a, now);
      assert State() == Salvage(LinkFailure(n, a), a, now);
    }

    method FailAndSalvage(a: Addr, now: real)
      requires Valid()
      modifies this`table, this`out, this`said, entries, ifqueue`q
      ensures Valid() && State() == Salvage(LinkFailure(old(State()), a), a, now)
    {
      HandleLinkFailure(a);
      SalvageAll(a, now);
    }

    /** nb_purge: walks the list as it was, deleting the expired neighbours. */
    method NbPurgeAll(now: real)
      requires Valid()
      modifies this`table, this`seqno, this`nbrs, this`out, this`said, entries, ifqueue`q
      ensures Valid() && State() == NbPurge(old(State()), now)
    {
      var all := nbrs;
      ghost var was := State();
      var i := 0;
      while i < |all|
        invariant 0 <= i <= |all| && Valid() && State() == LoseExpired(was, all[..i], now)
      {
        NbPurgeAt(all, i, was, now);
        i := i + 1;
      }
      assert all[..i] == all;
    }

    /** Turn `i` of the loop of nb_purge. */
    method NbPurgeAt(all: seq<Neighbor>, i: nat, ghost was: Node, now: real)
      requires Valid() && i < |all| && State() == LoseExpired(was, all[..i], now)
      modifies this`table, this`seqno, this`nbrs, this`out, this`said, entries, ifqueue`q
      ensures Valid() && State() == LoseExpired(was, all[..i + 1], now)
    {
      assert all[..i + 1][..i] == all[..i];
      if all[i].expire <= now { NbDelete(all[i].addr, now); }
    }

    // ---- Data packets ----

    /** rqueue.enque(p) */
    method Hold(p: Pkt, now: real)
      requires Valid()
      modifies rqueue, rqueue.repr
      ensures Valid() && fresh(rqueue.repr - old(rqueue.repr))
      ensures State() == old(State()).(buffer := Enque(old(State()).buffer, p, now))
    {
      var packet := new Packet(p);
      rqueue.Enque(packet, now);
      TableUntouched();
    }

    /** rt_resolve */
    method ResolvePacket(p: Pkt, now: real)
      requires Valid()
      modifies this, entries, rqueue, rqueue.repr
      ensures Valid() && fresh(entries - old(entries)) && fresh(rqueue.repr - old(rqueue.repr))
      ensures State() == Resolve(old(State()), p, now)
    {
      var rt, k := RtEnsure(p.dst);
      Route(rt, k, p, now);
    }

    /** rt_resolve once there is an entry. */
    method Route(rt: RouteEntry, ghost k: nat, p: Pkt, now: real)
      requires Valid() && Entered(rt, k) && rt.dst == p.dst
      modifies this, rt, rqueue, rqueue.repr
      ensures Valid() && entries == old(entries) && fresh(rqueue.repr - old(rqueue.repr))
      ensures State() == Resolve(old(State()), p, now)
    {
      assert Mirrored(rt) && EnsureEntry(State(), p.dst) == State();
      if rt.flags.Up? {
        ForwardData(rt, k, p, now);
      } else if p.src == id {
        HoldAndAsk(rt, k, p, now);
      } else {
        Refuse(p, rt.seqno);
      }
    }

    method HoldAndAsk(rt: RouteEntry, ghost k: nat, p: Pkt, now: real)
      requires Valid() && Entered(rt, k)
      modifies this, rt, rqueue, rqueue.repr
      ensures Valid() && entries == old(entries) && fresh(rqueue.repr - old(rqueue.repr))
      ensures var n := old(State()); State() == SendRequest(n.(buffer := Enque(n.buffer, p, now)), rt.dst, now)
    {
      Hold(p, now);
      AskFor(rt, k, now);
    }

    /** A packet from elsewhere for which there is no route: an error is sent and the packet dropped. */
    method Refuse(p: Pkt, s: nat)
      requires Valid()
      modifies this`out, this`said
      ensures Valid()
      ensures var n := SendError(old(State()), [(p.dst, s)]); State() == n.(out := n.out + [Dropped(p)])
    {
      EmitMsg(Rerr(Error(id, 1, [(p.dst, s)])));
      Hand(Dropped(p));
    }

    /** recv() of a data packet. */
    method RecvDataPacket(p: Pkt, isNew: bool, now: real)
      requires Valid()
      modifies this, entries, rqueue, rqueue.repr
      ensures Valid() && fresh(entries - old(entries)) && fresh(rqueue.repr - old(rqueue.repr))
      ensures State() == RecvData(old(State()), p, isNew, now)
    {
      var q := Admit(id, p, isNew);
      if q.None? { Hand(Dropped(p)); } else { ResolvePacket(q.value, now); }
    }

    // ---- Timers ----

    method ExpireEntry(rt: RouteEntry, ghost k: nat, now: real)
      requires Valid() && Entered(rt, k)
      modifies this`table, rt
      ensures Valid() && State() == Put(old(State()), rt.dst, ExpireRoute(old(table)[rt.dst], now))
    {
      rt.Expire(now);
      Catch(rt, k);
      rqueue.Untouched();
    }

    /** The body of the loop of rt_purge. */
    method PurgeOne(rt: RouteEntry, ghost k: nat, now: real)
      requires Valid() && Entered(rt, k)
      modifies this`table, this`bid, this`seqno, this`out, this`said, rt, rqueue, rqueue.repr
      ensures Valid() && rqueue.repr <= old(rqueue.repr)
      ensures State() == PurgeRoute(old(State()), rt.dst, now)
    {
      if rt.flags.Up? && rt.expire < now {
        ExpireEntry(rt, k, now);
        if rt.flags.Down? { DrainBuffer(rt.dst, now); }
      } else if rt.flags.Up? {
        FlushBuffer(rt, k, now);
      } else {
        var waiting := rqueue.Find(rt.dst);
        if waiting { AskFor(rt, k, now); }
      }
    }

    /** rt_purge */
    method RtPurgeAll(now: real)
      requires Valid()
      modifies this, entries, rqueue, rqueue.repr
      ensures Valid() && entries == old(entries) && rqueue.repr <= old(rqueue.repr)
      ensures State() == RtPurge(old(State()), now)
    {
      ghost var was := State();
      var i := 0;
      while i < |rtable|
        invariant 0 <= i <= |rtable| && Valid() && rtable == old(rtable) && order == was.order
        invariant entries == old(entries) && rqueue.repr <= old(rqueue.repr)
        invariant State() == PurgeRoutes(was, was.order[..i], now)
      {
        PurgeAt(i, was, now);
        i := i + 1;
      }
      assert was.order[..i] == was.order;
    }

    /** Turn `i` of the loop of rt_purge. */
    method PurgeAt(i: nat, ghost was: Node, now: real)
      requires Valid() && i < |rtable| && order == was.order
      requires State() == PurgeRoutes(was, was.order[..i], now)
      modifies this`table, this`bid, this`seqno, this`out, this`said, entries, rqueue, rqueue.repr
      ensures Valid() && rqueue.repr <= old(rqueue.repr)
      ensures State() == PurgeRoutes(was, was.order[..i + 1], now)
    {
      assert was.order[..i + 1][..i] == was.order[..i];
      PurgeOne(rtable[i], i, now);
    }

    method TimerFires(t: Timer, now: real)
      requires Valid()
      modifies this, entries, rqueue, rqueue.repr, ifqueue`q
      ensures Valid() && entries == old(entries) && rqueue.repr <= old(rqueue.repr)
      ensures State() == HandleTimer(old(State()), t, now)
    {
      match t
      case HelloTime => HelloTick();
      case IdTime => IdPurgeAll(now);
      case NeighborTime => NbPurgeAll(now);
      case RouteTime => RtPurgeAll(now);
    }

    /** recv() of a control message, and recvEAMRP. */
    method RecvMessage(m: Msg, now: real)
      requires Valid()
      modifies this, entries, rqueue, rqueue.repr
      ensures Valid() && fresh(entries - old(entries)) && rqueue.repr <= old(rqueue.repr)
      ensures State() == Handle(old(State()), Receive(m), now)
    {
      match AfterHop(m)
      case Rreq(rq) => RecvRequestMsg(rq, now);
      case Rrep(rp) => RecvReplyMsg(rp, now);
      case Hello(hi) => RecvHelloMsg(hi, now);
      case Rerr(re) => RecvErrorMsg(re);
    }

    // ---- Events ----

    /** The link layer has changed the interface queue. */
    method QueueChanged(q: seq<Pkt>)
      requires Valid()
      modifies ifqueue`q
      ensures Valid() && State() == old(State()).(ifq := q)
    {
      ifqueue.q := q;
      TableUntouched();
      rqueue.Untouched();
    }

    method HandleEvent(ev: Event, now: real)
      requires Valid()
      modifies this, entries, rqueue, rqueue.repr, ifqueue`q
      ensures Valid() && fresh(entries - old(entries)) && fresh(rqueue.repr - old(rqueue.repr))
      ensures State() == Handle(old(State()), ev, now)
    {
      match ev
      case Receive(m) => RecvMessage(m, now);
      case Data(p, isNew) => RecvDataPacket(p, isNew, now);
      case Queue(q) => QueueChanged(q);
      case Tick(t) => TimerFires(t, now);
    }

    /** The scheduler takes what it has been handed. */
    method HandOver() returns (sent: seq<Out>)
      requires Valid()
      modifies this`out
      ensures Valid() && sent == old(out) && State() == old(State()).(out := [])
    {
      sent := out;
      out := [];
      rqueue.Untouched();
    }

    /** One event of a running network: an agent in the state of its node before the step is in the state of its
        node after it, and has sent what the node sends. */
    method TakeStep(ghost net: Net, ghost net': Net, ev: Event, now: real) returns (sent: seq<Out>)
      requires Valid() && id in net.nodes && net.nodes[id] == State()
      requires Step(net, net', id, ev) && now == net.now
      modifies this, entries, rqueue, rqueue.repr, ifqueue`q
      ensures Valid() && fresh(entries - old(entries)) && fresh(rqueue.repr - old(rqueue.repr))
      ensures sent == After(net, id, ev).out && State() == net'.nodes[id]
    {
      HandleEvent(ev, now);
      sent := HandOver();
    }
  }

  /** Each destination has exactly one place in the list. */
  ghost predicate Listing(order: seq<Addr>, keys: set<Addr>) {
    && (forall i, j | 0 <= i < j < |order| :: order[i] != order[j])
    && (forall d :: d in keys <==> d in order)
  }

  lemma ListingAdd(order: seq<Addr>, keys: set<Addr>, d: Addr)
    requires Listing(order, keys) && d !in keys
    ensures Listing([d] + order, keys + {d})
  {
    var all := [d] + order;
    assert forall k | 1 <= k < |all| :: all[k] == order[k - 1] && order[k - 1] in order;
  }

  lemma {:induction false} LiveIdsAll(ids: seq<BroadcastId>, now: real)
    requires forall k | 0 <= k < |ids| :: now < ids[k].expire
    ensures LiveIds(ids, now) == ids
  {
    if ids != [] { LiveIdsAll(ids[1..], now); }
  }

  /** Removing a stale id does not change which ids are live. */
  lemma {:induction false} LiveIdsDelete(ids: seq<BroadcastId>, k: nat, now: real)
    requires k < |ids| && ids[k].expire <= now
    ensures LiveIds(ids[..k] + ids[k + 1..], now) == LiveIds(ids, now)
  {
    if k == 0 {
      assert ids[..0] + ids[1..] == ids[1..];
    } else {
      LiveIdsDelete(ids[1..], k - 1, now);
      assert (ids[..k] + ids[k + 1..])[1..] == ids[1..][..k - 1] + ids[1..][k..];
    }
  }
}
