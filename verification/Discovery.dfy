/** What a node does with a route request or a route reply, exactly: which paths it takes up, whether and what it
    answers, and where a reply goes on its way back. */
module Discovery {
  import opened Basics
  import opened Routes
  import opened Nodes
  import opened NodeInvariant
  import opened NodeSteps
  import opened Network
  import opened Outbox
  import opened Forwarding
  import opened Learning
  import opened OncePerRequest
  import opened LoopFreedom

  // ---- Routes that are told of ----

  /** The longest of the paths `ps` has `m` hops. */
  ghost predicate Longest(ps: seq<Path>, m: nat) {
    (forall k | 0 <= k < |ps| :: ps[k].hopcount <= m) && exists k :: 0 <= k < |ps| && ps[k].hopcount == m
  }

  /** Route `e'` is route `e` after it may have been advertised, at the length of its longest path; `marked`: and its
      errors will be reported. */
  ghost predicate Advertised(e: Entry, e': Entry, marked: bool) {
    && e' == e.(adv := e'.adv, rtError := e.rtError || marked)
    && (e'.adv == e.adv || (e.adv.None? && e'.adv.Some? && Longest(e.paths, e'.adv.value)))
  }

  /** Only the routes to `ds` have changed, and they have only been advertised. */
  ghost predicate OnlyAdvertised(n: Node, r: Node, ds: set<Addr>, marked: bool) {
    && r.table.Keys == n.table.Keys
    && forall d | d in n.table ::
         if d in ds then Advertised(n.table[d], r.table[d], marked) else r.table[d] == n.table[d]
  }

  lemma KnownShape(n: Node, d: Addr, v: View)
    requires Good(n, v)
    ensures EntryShape(n.cfg, d, Known(n, d))
  {
    if d in n.table { assert EntryOk(v, d, n.table[d]); }
  }

  lemma UpHasPath(n: Node, d: Addr, v: View)
    requires Good(n, v) && IsUp(n, d)
    ensures n.table[d].paths != [] && d != n.id && Advertise(n.table[d]).adv.Some?
  {
    assert EntryOk(v, d, n.table[d]);
    AdvertiseOk(v, d, n.table[d]);
  }

  /** The advertised hop count is fixed at the longest path. */
  lemma AdvertiseExact(n: Node, d: Addr, v: View)
    requires Good(n, v) && IsUp(n, d)
    ensures var e := Advertise(n.table[d]);
      && Advertised(n.table[d], e, false) && Advertised(n.table[d], e.(rtError := true), true)
      && e.adv.Some? && e.paths == n.table[d].paths
  {
    UpHasPath(n, d, v);
    if n.table[d].adv.None? { assert Longest(n.table[d].paths, MaxHops(n.table[d].paths)); }
  }

  // ---- Requests ----

  /** The reverse path that request `m` offers to node `me`. */
  function Reverse(me: Addr, m: Request, now: real): Offer {
    Offer(m.ipSrc, m.srcSeqno, m.hopCount, if m.hopCount == 0 then me else m.firstHop, now + REV_ROUTE_LIFE)
  }

  /** The cache once request `m` has been heard: the request is remembered for BCAST_ID_SAVE seconds. */
  function IdsWith(n: Node, m: Request, now: real): seq<BroadcastId> {
    if exists b :: b in n.ids && b.src == m.src && b.id == m.bcastId then n.ids
    else [BroadcastId(m.src, m.bcastId, now + BCAST_ID_SAVE, 0)] + n.ids
  }

  /** Before anything is learned the request is cached, and there is an entry for its source. */
  function Noted(n: Node, m: Request, now: real): (r: Node)
    ensures m.src in r.table && r.table[m.src] == Known(n, m.src)
    ensures r == n.(table := n.table[m.src := Known(n, m.src)], order := OrderWith(n, m.src), ids := IdsWith(n, m, now))
  {
    EnsureEntry(CacheId(n, m.src, m.bcastId, now), m.src)
  }

  lemma PutNoted(n: Node, m: Request, now: real, e: Entry)
    ensures Put(Noted(n, m, now), m.src, e) ==
            n.(table := n.table[m.src := e], order := OrderWith(n, m.src), ids := IdsWith(n, m, now))
  {
    assert n.table[m.src := Known(n, m.src)][m.src := e] == n.table[m.src := e];
  }

  lemma AbsorbsNoted(n: Node, m: Request, now: real)
    ensures var (e, verdict) := LearnReverse(n.cfg, Known(n, m.src), Reverse(n.id, m, now), m.dst == n.id);
      AbsorbRequest(n, m, now) == (Put(Noted(n, m, now), m.src, e), verdict)
  {
    assert Noted(n, m, now) == EnsureEntry(CacheId(n, m.src, m.bcastId, now), m.src);
    assert RequestOffer(n.id, m, now) == Reverse(n.id, m, now);
  }

  /** The part of recvRequest that caches the request and learns its reverse path. */
  lemma AbsorbRequestExact(n: Node, m: Request, now: real)
    requires EntryShape(n.cfg, m.src, Known(n, m.src))
    ensures var (n1, verdict) := AbsorbRequest(n, m, now);
      var e, o := Known(n, m.src), Reverse(n.id, m, now);
      && n1 == n.(table := n.table[m.src := n1.table[m.src]], order := OrderWith(n, m.src), ids := IdsWith(n, m, now))
      && Learned(n.cfg, e, n1.table[m.src], o)
      && (verdict == Keep(true) <==> BringsReverse(n.cfg, e, o))
      && (verdict == Keep(false) <==> GoesOnWithout(n.cfg, e, o, m.dst == n.id))
  {
    AbsorbsNoted(n, m, now);
    PutNoted(n, m, now, LearnReverse(n.cfg, Known(n, m.src), Reverse(n.id, m, now), m.dst == n.id).0);
    LearnReverseExact(n.cfg, m.src, Known(n, m.src), Reverse(n.id, m, now), m.dst == n.id);
  }

  /** A request that is neither its own nor discarded by node `n`. */
  ghost predicate Kept(n: Node, m: Request, now: real) {
    && m.src != n.id
    && var e, o := Known(n, m.src), Reverse(n.id, m, now);
       BringsReverse(n.cfg, e, o) || GoesOnWithout(n.cfg, e, o, m.dst == n.id)
  }

  /** The number that node `n` holds for `d`. */
  function Held(n: Node, d: Addr): nat {
    if d in n.table then n.table[d].seqno else 0
  }

  /** Node `n` has a route fresh enough to answer request `m` for. */
  predicate CanAnswer(n: Node, m: Request) {
    IsUp(n, m.dst) && m.dstSeqno <= n.table[m.dst].seqno
  }

  /** Reply `rp`, of node `n` about itself, to request `m`. */
  ghost predicate OwnAnswer(n: Node, m: Request, rp: Reply) {
    && rp == Reply(m.ipSrc, n.id, m.src, NETWORK_DIAMETER, 0, n.id, n.seqno, n.id, MY_ROUTE_TIMEOUT, m.bcastId, m.ipSrc)
    && m.dstSeqno <= n.seqno
  }

  /** Reply `rp`, from the table of node `n`, to request `m`: its preferred route, as it is now advertised. */
  ghost predicate TableAnswer(n: Node, m: Request, now: real, rp: Reply) {
    && IsUp(n, m.dst) && n.table[m.dst].paths != [] && n.table[m.dst].adv.Some? && n.table[m.dst].rtError
    && var e := n.table[m.dst];
       rp == Reply(m.ipSrc, n.id, m.src, NETWORK_DIAMETER, e.adv.value, m.dst, e.seqno, n.id,
                   e.paths[0].expire - now, m.bcastId, e.paths[0].lasthop)
  }

  /** Request `rq` is request `m` as node `n` passes it on: with the newest number for the node asked for, and the
      reverse route of `n`, as it is now advertised. */
  ghost predicate PassedOn(n: Node, m: Request, rq: Request) {
    && IsUp(n, m.src) && n.table[m.src].paths != [] && n.table[m.src].adv.Some?
    && var e := n.table[m.src];
       rq == m.(ipSrc := n.id, dstSeqno := Max(Held(n, m.dst), m.dstSeqno), hopCount := e.adv.value,
                firstHop := e.paths[0].lasthop)
  }

  /** What node `r` has sent in answer to request `m`, which has been kept: `hasPath` tells whether it has brought a
      reverse path, `dup` whether it was cached before, `count` how often it had been replied to. */
  ghost predicate Answered(r: Node, m: Request, hasPath: bool, dup: bool, count: nat, now: real, msgs: seq<Msg>) {
    if m.dst == r.id then |msgs| == 1 && msgs[0].Rrep? && OwnAnswer(r, m, msgs[0].rp)
    else if CanAnswer(r, m) then
      if hasPath && count == 0 then |msgs| == 1 && msgs[0].Rrep? && TableAnswer(r, m, now, msgs[0].rp) else msgs == []
    else if !dup && m.ttl != 0 then |msgs| == 1 && msgs[0].Rreq? && PassedOn(r, m, msgs[0].rq)
    else msgs == []
  }

  /** Node `r` replies to request `m` from its table. */
  predicate FromTable(r: Node, m: Request, hasPath: bool, count: nat) {
    m.dst != r.id && CanAnswer(r, m) && hasPath && count == 0
  }

  /** The only route that answering may touch: the one told of in the reply, or the reverse route of a request that is
      passed on. */
  function Touched(r: Node, m: Request, hasPath: bool, dup: bool, count: nat): set<Addr> {
    if FromTable(r, m, hasPath, count) then {m.dst}
    else if m.dst != r.id && !CanAnswer(r, m) && !dup then {m.src}
    else {}
  }

  /** The cache after a reply to request (src, id), if there was one: it counts. */
  ghost predicate Marked(ids: seq<BroadcastId>, ids': seq<BroadcastId>, src: Addr, id: nat, replied: bool) {
    && |ids'| == |ids|
    && forall k | 0 <= k < |ids| ::
         ids'[k] == if replied && ids[k].src == src && ids[k].id == id then ids[k].(count := 1) else ids[k]
  }

  /** At most one message has been sent, and nothing else handed out. */
  ghost predicate SendsOne(outs: seq<Out>, outs': seq<Out>) {
    outs' == outs || (|outs'| == |outs| + 1 && outs'[..|outs|] == outs && outs'[|outs|].Send?)
  }

  /** Node `r` is node `n` after answering: of its routes only those to `ds` may have been advertised, a reply from the
      table counts, and its own number has risen if a newer one was asked for. */
  ghost predicate AnswerNoted(n: Node, r: Node, m: Request, ds: set<Addr>, replied: bool) {
    && r == n.(seqno := r.seqno, table := r.table, ids := r.ids, out := r.out, said := r.said)
    && r.seqno == (if m.dst == n.id && n.seqno < m.dstSeqno then n.seqno + 2 else n.seqno)
    && OnlyAdvertised(n, r, ds, replied) && Marked(n.ids, r.ids, m.src, m.bcastId, replied) && SendsOne(n.out, r.out)
  }

  lemma OneMore(n: Node, r: Node, m: Msg)
    requires Sent(n.out) == [] && r.out == n.out + [Send(m)]
    ensures Sent(r.out) == [m]
  {
    SentAppend(n.out, Send(m));
  }

  lemma OwnAnswerSent(n: Node, m: Request)
    requires Sent(n.out) == [] && n.seqno % 2 == 0 && m.dst == n.id && m.dstSeqno <= n.seqno + 1
    ensures var r := ReplyAsDestination(n, m);
      && AnswerNoted(n, r, m, {}, false)
      && |Sent(r.out)| == 1 && Sent(r.out)[0].Rrep? && OwnAnswer(r, m, Sent(r.out)[0].rp)
  {
    var r := ReplyAsDestination(n, m);
    OneMore(n, r, r.out[|n.out|].m);
  }

  lemma OneMarked(ids: seq<BroadcastId>, k: nat, src: Addr, id: nat)
    requires UniqueIds(ids) && k < |ids| && ids[k].src == src && ids[k].id == id
    ensures Marked(ids, ids[k := ids[k].(count := 1)], src, id, true)
  {
  }

  lemma TableAnswerNoted(n: Node, m: Request, k: nat, now: real, v: View)
    requires Good(n, v) && IsUp(n, m.dst) && m.dst != n.id && n.table[m.dst].paths != []
    requires FindId(n.ids, m.src, m.bcastId) == Some(k) && n.ids[k].count == 0
    ensures AnswerNoted(n, ReplyFromTable(n, m, now), m, {m.dst}, true)
  {
    AdvertiseExact(n, m.dst, v);
    TableReplySent(n, m, k, now);
    OneMarked(n.ids, k, m.src, m.bcastId);
  }

  lemma TableAnswerMessage(n: Node, m: Request, k: nat, now: real)
    requires Sent(n.out) == [] && IsUp(n, m.dst) && n.table[m.dst].paths != [] && Advertise(n.table[m.dst]).adv.Some?
    requires FindId(n.ids, m.src, m.bcastId) == Some(k) && n.ids[k].count == 0
    ensures var r := ReplyFromTable(n, m, now);
      |Sent(r.out)| == 1 && Sent(r.out)[0].Rrep? && TableAnswer(r, m, now, Sent(r.out)[0].rp)
  {
    TableReplySent(n, m, k, now);
    var e := Advertise(n.table[m.dst]).(rtError := true);
    OneMore(n, ReplyFromTable(n, m, now), Rrep(TableReply(n, m, e, now)));
  }

  lemma TableAnswerSent(n: Node, m: Request, now: real, v: View)
    requires Good(n, v) && Sent(n.out) == [] && IsUp(n, m.dst)
    requires Cached(n.ids, m.src, m.bcastId) && Count(n.ids, m.src, m.bcastId) == 0
    ensures var r := ReplyFromTable(n, m, now);
      && AnswerNoted(n, r, m, {m.dst}, true)
      && |Sent(r.out)| == 1 && Sent(r.out)[0].Rrep? && TableAnswer(r, m, now, Sent(r.out)[0].rp)
  {
    UpHasPath(n, m.dst, v);
    var k := FindId(n.ids, m.src, m.bcastId).value;
    TableAnswerNoted(n, m, k, now, v);
    TableAnswerMessage(n, m, k, now);
  }

  lemma PassedOnNoted(n: Node, m: Request, v: View)
    requires Good(n, v) && IsUp(n, m.src) && m.dst != n.id
    ensures AnswerNoted(n, Rebroadcast(n, m), m, {m.src}, false)
  {
    AdvertiseExact(n, m.src, v);
    var r := Rebroadcast(n, m);
    assert r == n.(table := n.table[m.src := Advertise(n.table[m.src])], out := r.out, said := r.said);
  }

  /** Request `m` as it is passed on, with route `e`, as now advertised. */
  function Onwards(n: Node, m: Request, e: Entry): Request
    requires e.paths != []
  {
    m.(ipSrc := n.id, dstSeqno := Max(Held(n, m.dst), m.dstSeqno), hopCount := HopField(e.adv),
       firstHop := e.paths[0].lasthop)
  }

  lemma RebroadcastIs(n: Node, m: Request)
    requires IsUp(n, m.src) && n.table[m.src].paths != [] && m.ttl != 0
    ensures var e := Advertise(n.table[m.src]);
      Rebroadcast(n, m) == Emit(Put(n, m.src, e), Rreq(Onwards(n, m, e)))
  {
    assert Max(0, m.dstSeqno) == m.dstSeqno;
  }

  lemma OnwardsPassedOn(n: Node, m: Request)
    requires Sent(n.out) == [] && IsUp(n, m.src) && n.table[m.src].paths != [] && n.table[m.src].adv.Some?
    ensures var r := Emit(n, Rreq(Onwards(n, m, n.table[m.src])));
      |Sent(r.out)| == 1 && Sent(r.out)[0].Rreq? && PassedOn(r, m, Sent(r.out)[0].rq)
  {
    OneMore(n, Emit(n, Rreq(Onwards(n, m, n.table[m.src]))), Rreq(Onwards(n, m, n.table[m.src])));
  }

  lemma PassedOnMessage(n: Node, m: Request)
    requires Sent(n.out) == [] && IsUp(n, m.src) && n.table[m.src].paths != [] && Advertise(n.table[m.src]).adv.Some?
    requires m.ttl != 0
    ensures var r := Rebroadcast(n, m);
      |Sent(r.out)| == 1 && Sent(r.out)[0].Rreq? && PassedOn(r, m, Sent(r.out)[0].rq)
  {
    var e := Advertise(n.table[m.src]);
    var n1 := Put(n, m.src, e);
    RebroadcastIs(n, m);
    assert Onwards(n1, m, e) == Onwards(n, m, e) by { assert Held(n1, m.dst) == Held(n, m.dst); }
    OnwardsPassedOn(n1, m);
  }

  lemma PassedOnSent(n: Node, m: Request, v: View)
    requires Good(n, v) && Sent(n.out) == [] && IsUp(n, m.src) && m.dst != n.id
    ensures var r := Rebroadcast(n, m);
      if m.ttl == 0 then Sent(r.out) == []
      else |Sent(r.out)| == 1 && Sent(r.out)[0].Rreq? && PassedOn(r, m, Sent(r.out)[0].rq)
  {
    UpHasPath(n, m.src, v);
    if m.ttl != 0 { PassedOnMessage(n, m); }
  }

  /** A request that this node has answered before, or passed on, or that has brought no way back. */
  lemma AnswerSilent(n: Node, m: Request, hasPath: bool, dup: bool, now: real)
    requires m.src in n.table && Cached(n.ids, m.src, m.bcastId) && m.dst != n.id
    requires if CanAnswer(n, m) then !hasPath || Count(n.ids, m.src, m.bcastId) != 0 else dup
    ensures AnswerRequest(n, m, hasPath, dup, now) == n && AnswerNoted(n, n, m, {}, false)
  {
  }

  lemma AnswerExact(n: Node, m: Request, hasPath: bool, dup: bool, now: real, v: View)
    requires Good(n, v) && Sent(n.out) == [] && IsUp(n, m.src) && Cached(n.ids, m.src, m.bcastId)
    requires m.dst == n.id ==> m.dstSeqno <= n.seqno + 1
    ensures var r, count := AnswerRequest(n, m, hasPath, dup, now), Count(n.ids, m.src, m.bcastId);
      && Answered(r, m, hasPath, dup, count, now, Sent(r.out))
      && AnswerNoted(n, r, m, Touched(r, m, hasPath, dup, count), FromTable(r, m, hasPath, count))
  {
    if m.dst == n.id {
      OwnAnswerSent(n, m);
    } else if CanAnswer(n, m) && hasPath && Count(n.ids, m.src, m.bcastId) == 0 {
      TableAnswerSent(n, m, now, v);
    } else if CanAnswer(n, m) || dup {
      AnswerSilent(n, m, hasPath, dup, now);
    } else {
      PassedOnNoted(n, m, v);
      PassedOnSent(n, m, v);
    }
  }

  /** What recvRequest comes to, for a request that is not the node's own. The reverse route is `e1` after learning;
      `n2` is the node once the waiting packets are out. */
  ghost predicate RequestHandled(n: Node, m: Request, now: real, e1: Entry, n2: Node, r: Node) {
    var e, o := Known(n, m.src), Reverse(n.id, m, now);
    && Learned(n.cfg, e, e1, o)
    && if Kept(n, m, now) then KeptHandled(n, m, BringsReverse(n.cfg, e, o), now, e1, n2, r)
       else r == n.(table := n.table[m.src := e1], order := OrderWith(n, m.src), ids := IdsWith(n, m, now))
  }

  /** A kept request: the waiting packets are handed on, and the request is answered. */
  ghost predicate KeptHandled(n: Node, m: Request, hasPath: bool, now: real, e1: Entry, n2: Node, r: Node) {
    var dup, count := Cached(n.ids, m.src, m.bcastId), Count(n.ids, m.src, m.bcastId);
    var n1 := n.(table := n.table[m.src := Reset(e1)], order := OrderWith(n, m.src), ids := IdsWith(n, m, now));
    && Released(n1, n2, m.src, now)
    && Answered(r, m, hasPath, dup, count, now, Sent(r.out))
    && AnswerNoted(n2, r, m, Touched(r, m, hasPath, dup, count), FromTable(r, m, hasPath, count))
  }

  /** A kept request once its reverse path has been learned: the route to its source is up. */
  lemma KeptAbsorbed(n: Node, m: Request, now: real, v: View) returns (n1: Node)
    requires Good(n, v) && n.out == [] && Kept(n, m, now)
    requires MsgOk(Rreq(m)) && MsgWithin(Rreq(m), v.own) && AdvertOf(Rreq(m)).value in v.log
    ensures var e, o := Known(n, m.src), Reverse(n.id, m, now);
      AbsorbRequest(n, m, now) == (n1, Keep(BringsReverse(n.cfg, e, o))) && Learned(n.cfg, e, n1.table[m.src], o)
    ensures n1 == n.(table := n.table[m.src := n1.table[m.src]], order := OrderWith(n, m.src),
                     ids := IdsWith(n, m, now))
    ensures Good(n1, v) && IsUp(n1, m.src) && n1.table[m.src].paths != []
  {
    KnownShape(n, m.src, v);
    AbsorbRequestExact(n, m, now);
    AbsorbRequestGood(n, m, now, v);
    n1 := AbsorbRequest(n, m, now).0;
    UpHasPath(n1, m.src, v);
  }

  /** The waiting packets have gone out, and the message is still to be answered. */
  lemma KeptSettled(n1: Node, s: Addr, now: real, v: View) returns (n2: Node)
    requires Good(n1, v) && n1.out == [] && IsUp(n1, s) && n1.table[s].paths != []
    ensures n2 == Settle(n1, s, now) && Good(n2, v) && IsUp(n2, s)
    ensures Released(Put(n1, s, Reset(n1.table[s])), n2, s, now) && Sent(n2.out) == []
  {
    n2 := Settle(n1, s, now);
    SettleExact(n1, s, now);
    SettleGood(n1, s, now, v);
    SettleSent(n1, s, now);
  }

  /** A kept request is answered once the waiting packets are out. */
  lemma KeptAnswered(n1: Node, m: Request, hasPath: bool, dup: bool, now: real, v: View) returns (n2: Node)
    requires Good(n1, v) && n1.out == [] && IsUp(n1, m.src) && n1.table[m.src].paths != []
    requires Cached(n1.ids, m.src, m.bcastId) && (m.dst == n1.id ==> m.dstSeqno <= n1.seqno + 1)
    ensures var r, count := FinishRequest(n1, m, hasPath, dup, now), Count(n1.ids, m.src, m.bcastId);
      && Released(Put(n1, m.src, Reset(n1.table[m.src])), n2, m.src, now)
      && Answered(r, m, hasPath, dup, count, now, Sent(r.out))
      && AnswerNoted(n2, r, m, Touched(r, m, hasPath, dup, count), FromTable(r, m, hasPath, count))
  {
    n2 := KeptSettled(n1, m.src, now, v);
    AnswerExact(n2, m, hasPath, dup, now, v);
  }

  lemma KeptFinishes(n: Node, m: Request, now: real, n1: Node, hasPath: bool)
    requires m.src != n.id && AbsorbRequest(n, m, now) == (n1, Keep(hasPath))
    ensures RecvRequest(n, m, now) == FinishRequest(n1, m, hasPath, Cached(n.ids, m.src, m.bcastId), now)
  {
  }

  lemma HeardIds(n: Node, m: Request, now: real)
    ensures Cached(IdsWith(n, m, now), m.src, m.bcastId)
    ensures Count(IdsWith(n, m, now), m.src, m.bcastId) == Count(n.ids, m.src, m.bcastId)
  {
  }

  lemma ResetLearned(n: Node, n1: Node, s: Addr, order: seq<Addr>, ids: seq<BroadcastId>)
    requires s in n1.table && n1 == n.(table := n.table[s := n1.table[s]], order := order, ids := ids)
    ensures Put(n1, s, Reset(n1.table[s])) == n.(table := n.table[s := Reset(n1.table[s])], order := order, ids := ids)
  {
    assert n.table[s := n1.table[s]][s := Reset(n1.table[s])] == n.table[s := Reset(n1.table[s])];
  }

  lemma RequestKept(n: Node, m: Request, now: real, v: View) returns (e1: Entry, n2: Node)
    requires Good(n, v) && n.out == [] && Kept(n, m, now)
    requires MsgOk(Rreq(m)) && MsgWithin(Rreq(m), v.own) && AdvertOf(Rreq(m)).value in v.log
    ensures RequestHandled(n, m, now, e1, n2, RecvRequest(n, m, now))
  {
    var n1 := KeptAbsorbed(n, m, now, v);
    e1 := n1.table[m.src];
    var hasPath := BringsReverse(n.cfg, Known(n, m.src), Reverse(n.id, m, now));
    HeardIds(n, m, now);
    n2 := KeptAnswered(n1, m, hasPath, Cached(n.ids, m.src, m.bcastId), now, v);
    ResetLearned(n, n1, m.src, n1.order, n1.ids);
    KeptFinishes(n, m, now, n1, hasPath);
  }

  lemma RequestDiscarded(n: Node, m: Request, now: real, v: View) returns (e1: Entry)
    requires Good(n, v) && n.out == [] && m.src != n.id && !Kept(n, m, now)
    ensures RequestHandled(n, m, now, e1, n, RecvRequest(n, m, now))
  {
    KnownShape(n, m.src, v);
    AbsorbRequestExact(n, m, now);
    e1 := AbsorbRequest(n, m, now).0.table[m.src];
    assert RecvRequest(n, m, now) == AbsorbRequest(n, m, now).0;
  }

  /** What recvRequest does with any request that is not the node's own: which reverse path it stores, which packets it
      hands on, and what it sends. */
  lemma RequestExact(n: Node, m: Request, now: real, v: View) returns (e1: Entry, n2: Node)
    requires Good(n, v) && n.out == [] && m.src != n.id
    requires MsgOk(Rreq(m)) && MsgWithin(Rreq(m), v.own) && AdvertOf(Rreq(m)).value in v.log
    ensures RequestHandled(n, m, now, e1, n2, RecvRequest(n, m, now))
  {
    if Kept(n, m, now) {
      e1, n2 := RequestKept(n, m, now, v);
    } else {
      e1 := RequestDiscarded(n, m, now, v);
      n2 := n;
    }
  }

  // ---- Replies ----

  /** The forward path that reply `m` offers. */
  function Ahead(m: Reply, now: real): Offer {
    Offer(m.rpSrc, m.dstSeqno, m.hopCount, m.firstHop, now + m.lifetime)
  }

  lemma PutKnown(n: Node, d: Addr, e: Entry)
    ensures Put(EnsureEntry(n, d), d, e) == n.(table := n.table[d := e], order := OrderWith(n, d))
  {
    assert n.table[d := NewEntry(d)][d := e] == n.table[d := e];
  }

  lemma AbsorbsKnown(n: Node, m: Reply, now: real)
    ensures var (e, kept) := LearnForward(n.cfg, Known(n, m.dst), Ahead(m, now));
      AbsorbReply(n, m, now) == (Put(EnsureEntry(n, m.dst), m.dst, e), kept)
  {
    assert ReplyOffer(m, now) == Ahead(m, now);
    assert EnsureEntry(n, m.dst).table[m.dst] == Known(n, m.dst);
  }

  /** The part of recvReply that learns the forward path. */
  lemma AbsorbReplyExact(n: Node, m: Reply, now: real)
    requires EntryShape(n.cfg, m.dst, Known(n, m.dst))
    ensures var (n1, kept) := AbsorbReply(n, m, now);
      var e, o := Known(n, m.dst), Ahead(m, now);
      && n1 == n.(table := n.table[m.dst := n1.table[m.dst]], order := OrderWith(n, m.dst))
      && Learned(n.cfg, e, n1.table[m.dst], o) && (kept <==> Accepts(n.cfg, e, o))
  {
    AbsorbsKnown(n, m, now);
    PutKnown(n, m.dst, LearnForward(n.cfg, Known(n, m.dst), Ahead(m, now)).0);
    LearnForwardExact(n.cfg, m.dst, Known(n, m.dst), Ahead(m, now));
  }

  /** Reply `rp` is reply `m` as node `n` relays it: to the next hop of its preferred route to the node that asked, with
      its own preferred route to the node replied about, as it is now advertised. */
  ghost predicate Relayed(n: Node, m: Reply, rp: Reply) {
    && IsUp(n, m.ipDst) && n.table[m.ipDst].paths != []
    && IsUp(n, m.dst) && n.table[m.dst].paths != [] && n.table[m.dst].adv.Some?
    && var e := n.table[m.dst];
       rp == m.(nextHop := n.table[m.ipDst].paths[0].nexthop, rpSrc := n.id, hopCount := e.adv.value,
                firstHop := e.paths[0].lasthop)
  }

  /** Node `r` relays reply `m`. */
  predicate Relays(r: Node, m: Reply, cached: bool, count: nat) {
    m.ipDst != r.id && cached && count == 0 && IsUp(r, m.ipDst)
  }

  /** What node `r` has sent on after a kept reply `m`; `count` is how often the request had been replied to. */
  ghost predicate SentOn(r: Node, m: Reply, cached: bool, count: nat, msgs: seq<Msg>) {
    if Relays(r, m, cached, count) && m.ttl != 0 then |msgs| == 1 && msgs[0].Rrep? && Relayed(r, m, msgs[0].rp)
    else msgs == []
  }

  /** Route `e` after its preferred path has been used. */
  function Alive(e: Entry, now: real): Entry {
    if e.paths == [] then e
    else e.(paths := [e.paths[0].(expire := now + ACTIVE_ROUTE_TIMEOUT)] + e.paths[1..])
  }

  /** What relaying does to the routes: the reverse path is kept alive, the forward route is advertised, and its errors
      will be reported. */
  ghost predicate RelayRoutes(n: Node, r: Node, m: Reply, now: real) {
    && r.table.Keys == n.table.Keys
    && forall d | d in n.table ::
         var e := if d == m.ipDst then Alive(n.table[d], now) else n.table[d];
         if d == m.dst then Advertised(e, r.table[d], true) else r.table[d] == e
  }

  /** Node `r` is node `n` after relaying, if it did: the reply counts. */
  ghost predicate RelayNoted(n: Node, r: Node, m: Reply, relayed: bool, now: real) {
    if relayed then
      && r == n.(table := r.table, ids := r.ids, out := r.out, said := r.said) && SendsOne(n.out, r.out)
      && RelayRoutes(n, r, m, now) && Marked(n.ids, r.ids, m.ipDst, m.bcastId, true)
    else r == n
  }

  /** The relaying node after it has marked, advertised and kept alive what it relays along, before sending. */
  function RelayReady(n: Node, m: Reply, k: nat, now: real): Node
    requires k < |n.ids| && m.dst in n.table && m.ipDst in n.table
    requires n.table[m.dst].paths != [] && n.table[m.ipDst].paths != []
  {
    var n1 := Put(MarkReplied(n, k), m.dst, Advertise(n.table[m.dst]).(rtError := true));
    Put(n1, m.ipDst, TouchHead(n1.table[m.ipDst], now))
  }

  lemma TouchAlive(e: Entry, e': Entry, now: real, marked: bool)
    requires e.paths != [] && Advertised(e, e', marked)
    ensures TouchHead(e, now) == Alive(e, now) && Advertised(Alive(e, now), TouchHead(e', now), marked)
  {
    assert e'.paths[1..] == e.paths[1..];
    if e'.adv != e.adv {
      var k :| 0 <= k < |e.paths| && e.paths[k].hopcount == e'.adv.value;
      assert Alive(e, now).paths[k].hopcount == e'.adv.value;
    }
  }

  lemma ReadyRoutes(n: Node, m: Reply, k: nat, now: real, v: View)
    requires Good(n, v) && k < |n.ids| && IsUp(n, m.dst) && IsUp(n, m.ipDst)
    requires n.table[m.dst].paths != [] && n.table[m.ipDst].paths != []
    ensures RelayRoutes(n, RelayReady(n, m, k, now), m, now)
  {
    AdvertiseExact(n, m.dst, v);
    TouchAlive(n.table[m.dst], Advertise(n.table[m.dst]).(rtError := true), now, true);
    TouchAlive(n.table[m.ipDst], n.table[m.ipDst].(rtError := true), now, true);
  }

  lemma RelayExact(n: Node, m: Reply, now: real, v: View)
    requires Good(n, v) && Sent(n.out) == [] && IsUp(n, m.dst) && m.ipDst != n.id
    ensures var r, cached := RelayReply(n, m, now), Cached(n.ids, m.ipDst, m.bcastId);
      var count := Count(n.ids, m.ipDst, m.bcastId);
      SentOn(r, m, cached, count, Sent(r.out)) && RelayNoted(n, r, m, Relays(r, m, cached, count), now)
  {
    var f := FindId(n.ids, m.ipDst, m.bcastId);
    if f.Some? && IsUp(n, m.ipDst) && n.ids[f.value].count == 0 {
      RelaySends(n, m, f.value, now, v);
    } else {
      assert RelayReply(n, m, now) == n;
    }
  }

  lemma RelaySends(n: Node, m: Reply, k: nat, now: real, v: View)
    requires Good(n, v) && Sent(n.out) == [] && IsUp(n, m.dst) && IsUp(n, m.ipDst) && m.ipDst != n.id
    requires FindId(n.ids, m.ipDst, m.bcastId) == Some(k) && n.ids[k].count == 0
    ensures var r := RelayReply(n, m, now);
      Relays(r, m, true, 0) && SentOn(r, m, true, 0, Sent(r.out)) && RelayNoted(n, r, m, true, now)
  {
    UpHasPath(n, m.dst, v);
    UpHasPath(n, m.ipDst, v);
    var ready, r := RelayReady(n, m, k, now), RelayReply(n, m, now);
    assert r == EmitRelay(ready, m, Advertise(n.table[m.dst]).(rtError := true));
    ReadyRoutes(n, m, k, now, v);
    OneMarked(n.ids, k, m.ipDst, m.bcastId);
    if m.ttl != 0 { OneMore(ready, r, r.out[|n.out|].m); }
  }

  /** What recvReply comes to, for a reply that is not about the node itself. The forward route is `e1` after learning;
      `n2` is the node once the waiting packets are out. */
  ghost predicate ReplyHandled(n: Node, m: Reply, now: real, e1: Entry, n2: Node, r: Node) {
    var e, o := Known(n, m.dst), Ahead(m, now);
    && Learned(n.cfg, e, e1, o)
    && if Accepts(n.cfg, e, o) then AcceptedHandled(n, m, now, e1, n2, r)
       else r == n.(table := n.table[m.dst := e1], order := OrderWith(n, m.dst))
  }

  /** A kept reply: the waiting packets are handed on, and the reply is relayed if it has to be. */
  ghost predicate AcceptedHandled(n: Node, m: Reply, now: real, e1: Entry, n2: Node, r: Node) {
    var cached, count := Cached(n.ids, m.ipDst, m.bcastId), Count(n.ids, m.ipDst, m.bcastId);
    && Released(n.(table := n.table[m.dst := Reset(e1)], order := OrderWith(n, m.dst)), n2, m.dst, now)
    && SentOn(r, m, cached, count, Sent(r.out)) && RelayNoted(n2, r, m, Relays(r, m, cached, count), now)
  }

  lemma AcceptedReply(n: Node, m: Reply, now: real, v: View) returns (n1: Node)
    requires Good(n, v) && Accepts(n.cfg, Known(n, m.dst), Ahead(m, now)) && m.dst != n.id && m.nextHop == n.id
    requires MsgOk(Rrep(m)) && MsgWithin(Rrep(m), v.own) && AdvertOf(Rrep(m)).value in v.log
    ensures AbsorbReply(n, m, now) == (n1, true) && Learned(n.cfg, Known(n, m.dst), n1.table[m.dst], Ahead(m, now))
    ensures n1 == n.(table := n.table[m.dst := n1.table[m.dst]], order := OrderWith(n, m.dst))
    ensures Good(n1, v) && IsUp(n1, m.dst) && n1.table[m.dst].paths != []
  {
    KnownShape(n, m.dst, v);
    AbsorbReplyExact(n, m, now);
    AbsorbReplyGood(n, m, now, v);
    n1 := AbsorbReply(n, m, now).0;
    UpHasPath(n1, m.dst, v);
  }

  /** A kept reply is relayed once the waiting packets are out. */
  lemma AcceptedSentOn(n1: Node, m: Reply, now: real, v: View) returns (n2: Node)
    requires Good(n1, v) && n1.out == [] && IsUp(n1, m.dst) && n1.table[m.dst].paths != []
    ensures var r, cached := FinishReply(n1, m, now), Cached(n1.ids, m.ipDst, m.bcastId);
      var count := Count(n1.ids, m.ipDst, m.bcastId);
      && Released(Put(n1, m.dst, Reset(n1.table[m.dst])), n2, m.dst, now)
      && SentOn(r, m, cached, count, Sent(r.out)) && RelayNoted(n2, r, m, Relays(r, m, cached, count), now)
  {
    n2 := KeptSettled(n1, m.dst, now, v);
    if m.ipDst != n1.id { RelayExact(n2, m, now, v); }
  }

  lemma ReplyDiscarded(n: Node, m: Reply, now: real, v: View)
    requires Good(n, v) && n.out == [] && m.dst != n.id && !Accepts(n.cfg, Known(n, m.dst), Ahead(m, now))
    ensures ReplyHandled(n, m, now, Known(n, m.dst), n, RecvReply(n, m, now))
  {
    KnownShape(n, m.dst, v);
    AbsorbReplyExact(n, m, now);
    assert RecvReply(n, m, now) == AbsorbReply(n, m, now).0;
  }

  /** What recvReply does with any reply that is not about the node itself: which forward path it stores, which packets
      it hands on, and whether and where it sends the reply on. */
  lemma ReplyExact(n: Node, m: Reply, now: real, v: View) returns (e1: Entry, n2: Node)
    requires Good(n, v) && n.out == [] && m.dst != n.id && m.nextHop == n.id
    requires MsgOk(Rrep(m)) && MsgWithin(Rrep(m), v.own) && AdvertOf(Rrep(m)).value in v.log
    ensures ReplyHandled(n, m, now, e1, n2, RecvReply(n, m, now))
  {
    if Accepts(n.cfg, Known(n, m.dst), Ahead(m, now)) {
      var n1 := AcceptedReply(n, m, now, v);
      e1 := n1.table[m.dst];
      n2 := AcceptedSentOn(n1, m, now, v);
      ResetLearned(n, n1, m.dst, n1.order, n1.ids);
    } else {
      e1 := Known(n, m.dst);
      n2 := n;
      ReplyDiscarded(n, m, now, v);
    }
  }

  // ---- HELLOs ----

  /** The neighbours after a HELLO of `a`: a neighbour already known is kept for 4.5 seconds, another joins for 3. */
  ghost predicate Greeted(nbrs: seq<Neighbor>, nbrs': seq<Neighbor>, a: Addr, now: real) {
    if exists k :: 0 <= k < |nbrs| && nbrs[k].addr == a then
      && |nbrs'| == |nbrs|
      && forall k | 0 <= k < |nbrs| ::
           nbrs'[k] == if nbrs[k].addr == a then nbrs[k].(expire := now + 1.5 * ALLOWED_HELLO_LOSS * HELLO_INTERVAL)
                       else nbrs[k]
    else nbrs' == [Neighbor(a, now + ALLOWED_HELLO_LOSS * HELLO_INTERVAL)] + nbrs
  }

  lemma HearNeighborExact(n: Node, a: Addr, now: real)
    requires UniqueNeighbors(n.nbrs)
    ensures var r := HearNeighbor(n, a, now); r == n.(nbrs := r.nbrs) && Greeted(n.nbrs, r.nbrs, a, now)
  {
    var f := FindNeighbor(n.nbrs, a);
    if f.Some? { assert forall k | 0 <= k < |n.nbrs| && n.nbrs[k].addr == a :: k == f.value; }
  }

  /** The one-hop path that a HELLO offers to node `me`. */
  function Beside(me: Addr, m: Greeting, now: real): Offer {
    Offer(m.ipSrc, m.dstSeqno, 0, me, now + m.lifetime)
  }

  /** What recvHello comes to: the neighbour is noted, the path to it offered to the table, and if that takes it up the
      packets that wait for the neighbour are handed on. */
  ghost predicate HelloHandled(n: Node, m: Greeting, now: real, e1: Entry, r: Node) {
    var n1 := n.(nbrs := r.nbrs, order := OrderWith(n, m.dst));
    && Greeted(n.nbrs, r.nbrs, m.dst, now)
    && Learned(n.cfg, Known(n, m.dst), e1, Beside(n.id, m, now))
    && if Accepts(n.cfg, Known(n, m.dst), Beside(n.id, m, now))
       then Released(n1.(table := n.table[m.dst := Reset(e1)]), r, m.dst, now) && Sent(r.out) == []
       else r == n1.(table := n.table[m.dst := e1])
  }

  /** A HELLO is for the node itself, so it is never relayed. */
  lemma HelloTaken(n1: Node, m: Greeting, now: real, e1: Entry, n2: Node, r: Node)
    requires AcceptedHandled(n1, HelloReply(n1.id, m), now, e1, n2, r)
    ensures Released(n1.(table := n1.table[m.dst := Reset(e1)], order := OrderWith(n1, m.dst)), r, m.dst, now)
    ensures r.nbrs == n1.nbrs && Sent(r.out) == []
  {
    assert n2.id == n1.id && r == n2;
  }

  lemma HelloIsReply(n: Node, n1: Node, m: Greeting, now: real, e1: Entry, n2: Node, r: Node)
    requires n.out == [] && n1 == n.(nbrs := n1.nbrs) && Greeted(n.nbrs, n1.nbrs, m.dst, now)
    requires ReplyHandled(n1, HelloReply(n.id, m), now, e1, n2, r)
    ensures HelloHandled(n, m, now, e1, r)
  {
    assert Ahead(HelloReply(n.id, m), now) == Beside(n.id, m, now) && Known(n1, m.dst) == Known(n, m.dst);
    if Accepts(n.cfg, Known(n, m.dst), Beside(n.id, m, now)) { HelloTaken(n1, m, now, e1, n2, r); }
  }

  lemma HelloExact(n: Node, m: Greeting, now: real, v: View) returns (e1: Entry)
    requires Good(n, v) && n.out == [] && m.dst != n.id
    requires MsgOk(Hello(m)) && MsgWithin(Hello(m), v.own) && AdvertOf(Hello(m)).value in v.log
    ensures HelloHandled(n, m, now, e1, RecvHello(n, m, now))
  {
    HearNeighborExact(n, m.dst, now);
    HearNeighborGood(n, m.dst, now, v);
    var n1, n2 := HearNeighbor(n, m.dst, now), n;
    e1, n2 := ReplyExact(n1, HelloReply(n.id, m), now, v);
    HelloIsReply(n, n1, m, now, e1, n2, RecvReply(n1, HelloReply(n.id, m), now));
  }

  /** The timer sends a HELLO about the node itself, iff some route is up. */
  lemma HelloTimerExact(n: Node, now: real)
    ensures var r := Handle(n, Tick(HelloTime), now);
      if exists d :: IsUp(n, d)
      then r == n.(out := n.out + [Send(Hello(Greeting(n.id, 1, n.id, n.seqno, 4.0)))], said := r.said)
      else r == n
  {
    if HasActiveRoute(n) {
      var d :| d in n.table && n.table[d].flags.Up?;
      assert IsUp(n, d);
    }
  }

  // ---- In the network ----

  /** What holds of a message as its receiver handles it. */
  lemma Delivered(net: Net, f: Flight)
    requires Reachable(net) && f in net.air && f.to in net.nodes
    ensures var m := AfterHop(f.m);
      && Good(net.nodes[f.to], ViewOf(net, f.to))
      && net.nodes[f.to].id == f.to && net.nodes[f.to].out == []
      && MsgOk(m) && MsgWithin(m, Numbers(net)) && Addressed(m, f.to) && Adverts(m) <= net.log
  {
    ReachableSafe(net);
    assert FlightOk(net, f);
  }

  /** Request `f.m` as its receiver handles it. */
  function Heard(f: Flight): Request
    requires f.m.Rreq?
  {
    AfterHop(f.m).rq
  }

  /** Reply `f.m` as its receiver handles it. */
  function Got(f: Flight): Reply
    requires f.m.Rrep?
  {
    AfterHop(f.m).rp
  }

  lemma AfterRequest(net: Net, f: Flight)
    requires f.to in net.nodes && f.m.Rreq?
    ensures After(net, f.to, Receive(f.m)) == RecvRequest(net.nodes[f.to], Heard(f), net.now)
  {
  }

  lemma AfterReply(net: Net, f: Flight)
    requires f.to in net.nodes && f.m.Rrep?
    ensures After(net, f.to, Receive(f.m)) == RecvReply(net.nodes[f.to], Got(f), net.now)
  {
  }

  lemma AfterHello(net: Net, f: Flight)
    requires f.to in net.nodes && f.m.Hello?
    ensures After(net, f.to, Receive(f.m)) == RecvHello(net.nodes[f.to], AfterHop(f.m).hi, net.now)
  {
  }

  /** What any node of a reachable network does with a request: nothing, if it is its own. */
  lemma RequestReceived(net: Net, f: Flight) returns (e1: Entry, n2: Node, r: Node)
    requires Reachable(net) && f in net.air && f.m.Rreq? && f.to in net.nodes
    ensures r == After(net, f.to, Receive(f.m)) && net.nodes[f.to].id == f.to && net.nodes[f.to].out == []
    ensures if f.m.rq.src == f.to then r == net.nodes[f.to]
            else RequestHandled(net.nodes[f.to], Heard(f), net.now, e1, n2, r)
  {
    Delivered(net, f);
    AfterRequest(net, f);
    var n := net.nodes[f.to];
    r := RecvRequest(n, Heard(f), net.now);
    e1, n2 := NewEntry(f.m.rq.src), n;
    if f.m.rq.src != f.to { e1, n2 := RequestExact(n, Heard(f), net.now, ViewOf(net, f.to)); }
  }

  /** What any node of a reachable network does with a reply: nothing, if it is about itself. */
  lemma ReplyReceived(net: Net, f: Flight) returns (e1: Entry, n2: Node, r: Node)
    requires Reachable(net) && f in net.air && f.m.Rrep? && f.to in net.nodes
    ensures r == After(net, f.to, Receive(f.m)) && net.nodes[f.to].id == f.to && net.nodes[f.to].out == []
    ensures if f.m.rp.dst == f.to then r == net.nodes[f.to]
            else ReplyHandled(net.nodes[f.to], Got(f), net.now, e1, n2, r)
  {
    Delivered(net, f);
    AfterReply(net, f);
    var n := net.nodes[f.to];
    r := RecvReply(n, Got(f), net.now);
    e1, n2 := NewEntry(f.m.rp.dst), n;
    if f.m.rp.dst != f.to { e1, n2 := ReplyExact(n, Got(f), net.now, ViewOf(net, f.to)); }
  }

  /** What any node of a reachable network does with a HELLO of another node. */
  lemma HelloReceived(net: Net, f: Flight) returns (e1: Entry, r: Node)
    requires Reachable(net) && f in net.air && f.m.Hello? && f.to in net.nodes && f.m.hi.dst != f.to
    ensures r == After(net, f.to, Receive(f.m)) && HelloHandled(net.nodes[f.to], AfterHop(f.m).hi, net.now, e1, r)
  {
    Delivered(net, f);
    AfterHello(net, f);
    var n, m := net.nodes[f.to], AfterHop(f.m).hi;
    r := RecvHello(n, m, net.now);
    e1 := HelloExact(n, m, net.now, ViewOf(net, f.to));
  }

  lemma AnswerIsFresh(r: Node, m: Request, hasPath: bool, dup: bool, count: nat, now: real, rp: Reply)
    requires Answered(r, m, hasPath, dup, count, now, Sent(r.out)) && Rrep(rp) in Sent(r.out)
    ensures m.dstSeqno <= rp.dstSeqno
    ensures rp.nextHop == m.ipSrc && rp.ipDst == m.src && rp.bcastId == m.bcastId && rp.dst == m.dst
  {
  }

  lemma HandledIsFresh(n: Node, m: Request, now: real, e1: Entry, n2: Node, r: Node, rp: Reply)
    requires RequestHandled(n, m, now, e1, n2, r) && n.out == [] && Rrep(rp) in Sent(r.out)
    ensures m.dstSeqno <= rp.dstSeqno
    ensures rp.nextHop == m.ipSrc && rp.ipDst == m.src && rp.bcastId == m.bcastId && rp.dst == m.dst
  {
    if Kept(n, m, now) {
      AnswerIsFresh(r, m, BringsReverse(n.cfg, Known(n, m.src), Reverse(n.id, m, now)),
                    Cached(n.ids, m.src, m.bcastId), Count(n.ids, m.src, m.bcastId), now, rp);
    }
  }

  /** No reply is older than the number the request asked for, and every reply goes back to the node the request was
      heard from. */
  lemma RepliesAreFresh(net: Net, f: Flight, rp: Reply)
    requires Reachable(net) && f in net.air && f.m.Rreq? && f.to in net.nodes
    requires Send(Rrep(rp)) in After(net, f.to, Receive(f.m)).out
    ensures f.m.rq.dstSeqno <= rp.dstSeqno
    ensures rp.nextHop == f.m.rq.ipSrc && rp.ipDst == f.m.rq.src && rp.bcastId == f.m.rq.bcastId && rp.dst == f.m.rq.dst
  {
    var e1, n2, r := RequestReceived(net, f);
    assert Rrep(rp) in Sent(r.out);
    HandledIsFresh(net.nodes[f.to], Heard(f), net.now, e1, n2, r, rp);
  }

  /** Node `n` keeps request `m`, hears it for the first time, and is not the node asked for. */
  ghost predicate FirstCopy(n: Node, m: Request, now: real) {
    Kept(n, m, now) && !Cached(n.ids, m.src, m.bcastId) && m.dst != n.id
  }

  lemma TravelsOn(n: Node, m: Request, now: real, e1: Entry, n2: Node, r: Node) returns (rq: Request)
    requires RequestHandled(n, m, now, e1, n2, r) && FirstCopy(n, m, now) && m.ttl != 0 && !CanAnswer(r, m)
    ensures Sent(r.out) == [Rreq(rq)] && PassedOn(r, m, rq)
  {
    rq := Sent(r.out)[0].rq;
  }

  lemma IsAnswered(n: Node, m: Request, now: real, e1: Entry, n2: Node, r: Node) returns (rp: Reply)
    requires RequestHandled(n, m, now, e1, n2, r) && FirstCopy(n, m, now) && CanAnswer(r, m)
    requires BringsReverse(n.cfg, Known(n, m.src), Reverse(n.id, m, now))
    ensures Sent(r.out) == [Rrep(rp)] && TableAnswer(r, m, now, rp)
  {
    rp := Sent(r.out)[0].rp;
  }

  /** While the node has no route fresh enough, the request travels on as long as its TTL lasts, and asks for the newest
      number known. */
  lemma FirstCopyTravelsOn(net: Net, f: Flight) returns (rq: Request)
    requires Reachable(net) && f in net.air && f.m.Rreq? && f.to in net.nodes
    requires FirstCopy(net.nodes[f.to], Heard(f), net.now) && Heard(f).ttl != 0
    requires !CanAnswer(After(net, f.to, Receive(f.m)), f.m.rq)
    ensures Sent(After(net, f.to, Receive(f.m)).out) == [Rreq(rq)]
    ensures PassedOn(After(net, f.to, Receive(f.m)), Heard(f), rq)
  {
    var e1, n2, r := RequestReceived(net, f);
    rq := TravelsOn(net.nodes[f.to], Heard(f), net.now, e1, n2, r);
  }

  /** A route fresh enough stops it, and is told to the node the request came from if the request has brought a path
      back to it. */
  lemma FirstCopyIsAnswered(net: Net, f: Flight) returns (rp: Reply)
    requires Reachable(net) && f in net.air && f.m.Rreq? && f.to in net.nodes
    requires FirstCopy(net.nodes[f.to], Heard(f), net.now) && CanAnswer(After(net, f.to, Receive(f.m)), f.m.rq)
    requires BringsReverse(net.nodes[f.to].cfg, Known(net.nodes[f.to], f.m.rq.src), Reverse(f.to, f.m.rq, net.now))
    ensures Sent(After(net, f.to, Receive(f.m)).out) == [Rrep(rp)]
    ensures TableAnswer(After(net, f.to, Receive(f.m)), Heard(f), net.now, rp)
  {
    var e1, n2, r := RequestReceived(net, f);
    rp := IsAnswered(net.nodes[f.to], Heard(f), net.now, e1, n2, r);
  }

  /** The route to `d` is the same, but for having been told of. */
  ghost predicate SameFor(n: Node, r: Node, d: Addr) {
    && (d in r.table <==> d in n.table)
    && (d in n.table ==> r.table[d] == n.table[d].(adv := r.table[d].adv, rtError := r.table[d].rtError))
  }

  lemma KeptElsewhere(n: Node, m: Request, hasPath: bool, now: real, e1: Entry, n2: Node, r: Node, d: Addr)
    requires KeptHandled(n, m, hasPath, now, e1, n2, r) && d != m.src
    ensures SameFor(n, r, d)
  {
    assert d in n2.table <==> d in n.table;
    assert d in n.table ==> n2.table[d] == n.table[d];
  }

  /** A request touches no route but that to its source, except to tell of it. */
  lemma RequestElsewhere(n: Node, m: Request, now: real, e1: Entry, n2: Node, r: Node, d: Addr)
    requires RequestHandled(n, m, now, e1, n2, r) && d != m.src
    ensures SameFor(n, r, d)
  {
    if Kept(n, m, now) {
      KeptElsewhere(n, m, BringsReverse(n.cfg, Known(n, m.src), Reverse(n.id, m, now)), now, e1, n2, r, d);
    }
  }

  /** Whether a node can answer is settled before the request arrives, unless it asks for its own source. */
  lemma CanAnswerBefore(net: Net, f: Flight)
    requires Reachable(net) && f in net.air && f.m.Rreq? && f.to in net.nodes && f.m.rq.dst != f.m.rq.src
    ensures CanAnswer(After(net, f.to, Receive(f.m)), f.m.rq) <==> CanAnswer(net.nodes[f.to], f.m.rq)
    ensures Held(After(net, f.to, Receive(f.m)), f.m.rq.dst) == Held(net.nodes[f.to], f.m.rq.dst)
  {
    var e1, n2, r := RequestReceived(net, f);
    if f.m.rq.src != f.to { RequestElsewhere(net.nodes[f.to], Heard(f), net.now, e1, n2, r, f.m.rq.dst); }
  }

  /** The route to `d` is as it was before, as far as its hops go. */
  ghost predicate SameFirstHop(n: Node, r: Node, d: Addr) {
    && (IsUp(r, d) <==> IsUp(n, d))
    && (IsUp(r, d) && r.table[d].paths != [] ==>
          n.table[d].paths != [] && n.table[d].paths[0].nexthop == r.table[d].paths[0].nexthop)
  }

  lemma AcceptedElsewhere(n: Node, m: Reply, now: real, e1: Entry, n2: Node, r: Node, d: Addr)
    requires AcceptedHandled(n, m, now, e1, n2, r) && d != m.dst
    ensures SameFirstHop(n, r, d)
  {
    assert d in n2.table <==> d in n.table;
    assert d in n.table ==> n2.table[d] == n.table[d];
  }

  /** A reply brings no other route up or down and changes no other first hop. */
  lemma ReplyElsewhere(n: Node, m: Reply, now: real, e1: Entry, n2: Node, r: Node, d: Addr)
    requires ReplyHandled(n, m, now, e1, n2, r) && d != m.dst
    ensures SameFirstHop(n, r, d)
  {
    if Accepts(n.cfg, Known(n, m.dst), Ahead(m, now)) { AcceptedElsewhere(n, m, now, e1, n2, r, d); }
  }

  lemma SentOnHop(r: Node, m: Reply, cached: bool, count: nat, rp: Reply)
    requires SentOn(r, m, cached, count, Sent(r.out)) && Rrep(rp) in Sent(r.out)
    ensures Relayed(r, m, rp)
  {
  }

  lemma RelayIsHop(n: Node, m: Reply, now: real, e1: Entry, n2: Node, r: Node, rp: Reply)
    requires ReplyHandled(n, m, now, e1, n2, r) && n.out == [] && Rrep(rp) in Sent(r.out)
    ensures Relayed(r, m, rp) && (m.ipDst != m.dst ==> SameFirstHop(n, r, m.ipDst))
  {
    if Accepts(n.cfg, Known(n, m.dst), Ahead(m, now)) {
      SentOnHop(r, m, Cached(n.ids, m.ipDst, m.bcastId), Count(n.ids, m.ipDst, m.bcastId), rp);
      if m.ipDst != m.dst { ReplyElsewhere(n, m, now, e1, n2, r, m.ipDst); }
    }
  }

  /** The next hop is that of the preferred route to the node that asked, before and after. */
  lemma RelayHop(net: Net, f: Flight, rp: Reply) returns (r: Node)
    requires Reachable(net) && f in net.air && f.m.Rrep? && f.to in net.nodes
    requires Send(Rrep(rp)) in After(net, f.to, Receive(f.m)).out
    ensures r == After(net, f.to, Receive(f.m)) && Relayed(r, Got(f), rp)
    ensures rp.ipDst != rp.dst ==>
              IsUp(net.nodes[f.to], rp.ipDst) && net.nodes[f.to].table[rp.ipDst].paths != [] &&
              net.nodes[f.to].table[rp.ipDst].paths[0].nexthop == rp.nextHop
  {
    var e1, n2;
    e1, n2, r := ReplyReceived(net, f);
    assert Rrep(rp) in Sent(r.out);
    RelayIsHop(net.nodes[f.to], Got(f), net.now, e1, n2, r, rp);
  }

  /** A relayed reply goes one hop towards the node that asked: along a stored path, to a node strictly closer to it. */
  lemma RelayClimbs(net: Net, net': Net, f: Flight, rp: Reply)
    requires Reachable(net) && f.m.Rrep? && Step(net, net', f.to, Receive(f.m))
    requires Send(Rrep(rp)) in After(net, f.to, Receive(f.m)).out
    ensures Edge(net', rp.ipDst, f.to, rp.nextHop)
    ensures rp.nextHop in net'.nodes && Closer(net', rp.ipDst, f.to, rp.nextHop)
    ensures rp.ipDst == f.m.rp.ipDst && rp.dst == f.m.rp.dst && rp.dstSeqno == f.m.rp.dstSeqno
    ensures rp.ipDst != rp.dst ==> Edge(net, rp.ipDst, f.to, rp.nextHop) && Closer(net, rp.ipDst, f.to, rp.nextHop)
  {
    var r := RelayHop(net, f, rp);
    StepReachable(net, net', f.to, Receive(f.m));
    assert r.table[rp.ipDst].paths[0] in net'.nodes[f.to].table[rp.ipDst].paths;
    EdgeDescends(net', rp.ipDst, f.to, rp.nextHop);
    if rp.ipDst != rp.dst {
      assert net.nodes[f.to].table[rp.ipDst].paths[0] in net.nodes[f.to].table[rp.ipDst].paths;
      EdgeDescends(net, rp.ipDst, f.to, rp.nextHop);
    }
  }
}
