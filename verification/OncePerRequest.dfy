/** While a node remembers a request it passes it on at most once, and passes on or originates, as an
    intermediate node, at most one reply to it, however requests and replies interleave. */
module OncePerRequest {
  import opened Basics
  import opened Nodes
  import opened NodeInvariant
  import opened NodeSteps
  import opened Network
  import opened Outbox

  // ---- The cache ----

  ghost predicate Cached(ids: seq<BroadcastId>, src: Addr, id: nat) {
    FindId(ids, src, id).Some?
  }

  /** The reply count of a cached request. */
  function Count(ids: seq<BroadcastId>, src: Addr, id: nat): nat {
    match FindId(ids, src, id)
    case None => 0
    case Some(k) => ids[k].count
  }

  lemma CountAfterMark(ids: seq<BroadcastId>, k: nat, src: Addr, id: nat)
    requires UniqueIds(ids) && k < |ids|
    ensures var ids' := ids[k := ids[k].(count := 1)];
      && (Cached(ids', src, id) <==> Cached(ids, src, id))
      && Count(ids', src, id) == if ids[k].src == src && ids[k].id == id then 1 else Count(ids, src, id)
  {
    var ids' := ids[k := ids[k].(count := 1)];
    var f, f' := FindId(ids, src, id), FindId(ids', src, id);
    if f.Some? { assert ids'[f.value].src == src && ids'[f.value].id == id; }
    if f'.Some? { assert ids[f'.value].src == src && ids[f'.value].id == id; }
    if ids[k].src == src && ids[k].id == id { }
  }

  lemma CountAfterPurge(ids: seq<BroadcastId>, now: real, src: Addr, id: nat)
    requires UniqueIds(ids) && Cached(LiveIds(ids, now), src, id)
    ensures Cached(ids, src, id) && Count(LiveIds(ids, now), src, id) == Count(ids, src, id)
  {
    var b := LiveIds(ids, now)[FindId(LiveIds(ids, now), src, id).value];
    assert b in LiveIds(ids, now);
    var k :| 0 <= k < |ids| && ids[k] == b;
  }

  /** The timer forgets exactly the requests that are due. */
  lemma IdTimerExact(n: Node, now: real)
    ensures var r := Handle(n, Tick(IdTime), now);
      && r == n.(ids := r.ids) && (UniqueIds(n.ids) ==> UniqueIds(r.ids))
      && forall b :: b in r.ids <==> b in n.ids && now < b.expire
  {
    if UniqueIds(n.ids) { LiveIdsUnique(n.ids, now); }
  }

  // ---- One handler ----

  /** Message `m` passes request (src, id) on. */
  predicate Repeats(m: Msg, src: Addr, id: nat) {
    m.Rreq? && m.rq.src == src && m.rq.bcastId == id
  }

  /** Message `m` is a reply to request (src, id) about a node other than its sender `me`. */
  predicate RepliesTo(m: Msg, me: Addr, src: Addr, id: nat) {
    m.Rrep? && m.rp.ipDst == src && m.rp.bcastId == id && m.rp.dst != me
  }

  /** What one handler may do about request (src, id): `msgs` is what it sends. */
  ghost predicate Rule(me: Addr, src: Addr, id: nat, ids: seq<BroadcastId>, ids': seq<BroadcastId>, msgs: seq<Msg>) {
    && (forall m | m in msgs && Repeats(m, src, id) :: |msgs| == 1 && !Cached(ids, src, id))
    && (forall m | m in msgs && RepliesTo(m, me, src, id) ::
          |msgs| == 1 && Count(ids, src, id) == 0 && Count(ids', src, id) >= 1)
    && (Count(ids, src, id) >= 1 && Cached(ids', src, id) ==> Count(ids', src, id) >= 1)
  }

  /** How one answer goes with the cache: a reply about another node uses up the count. */
  ghost predicate Accounted(n: Node, r: Node, msgs: seq<Msg>, src: Addr, id: nat) {
    && Sent(r.out) == Sent(n.out) + msgs
    && |msgs| <= 1
    && (forall x | x in msgs && RepliesTo(x, n.id, src, id) :: Count(n.ids, src, id) == 0 && Count(r.ids, src, id) == 1)
    && (Count(n.ids, src, id) >= 1 ==> Count(r.ids, src, id) >= 1)
  }

  lemma ReplyFromTableRule(n: Node, m: Request, now: real, src: Addr, id: nat) returns (msgs: seq<Msg>)
    requires m.dst in n.table && UniqueIds(n.ids) && Cached(n.ids, m.src, m.bcastId)
    ensures Accounted(n, ReplyFromTable(n, m, now), msgs, src, id) && forall x | x in msgs :: x.Rrep?
  {
    var k := FindId(n.ids, m.src, m.bcastId).value;
    var r := ReplyFromTable(n, m, now);
    msgs := [];
    if r.out != n.out {
      CountAfterMark(n.ids, k, src, id);
      assert r.ids == n.ids[k := n.ids[k].(count := 1)] && n.ids[k].count == 0;
      msgs := [r.out[|n.out|].m];
      SentAppend(n.out, r.out[|n.out|]);
    }
  }

  lemma RebroadcastRule(n: Node, m: Request, src: Addr, id: nat) returns (msgs: seq<Msg>)
    requires m.src in n.table
    ensures Accounted(n, Rebroadcast(n, m), msgs, src, id)
    ensures forall x | x in msgs :: x.Rreq? && x.rq.src == m.src && x.rq.bcastId == m.bcastId
  {
    var r := Rebroadcast(n, m);
    msgs := [];
    if r.out != n.out {
      msgs := [r.out[|n.out|].m];
      SentAppend(n.out, r.out[|n.out|]);
    }
  }

  lemma DestinationRule(n: Node, m: Request, src: Addr, id: nat) returns (msgs: seq<Msg>)
    ensures Accounted(n, ReplyAsDestination(n, m), msgs, src, id) && forall x | x in msgs :: x.Rrep?
  {
    var r := ReplyAsDestination(n, m);
    msgs := [r.out[|n.out|].m];
    SentAppend(n.out, r.out[|n.out|]);
  }

  lemma AnswerRule(n: Node, m: Request, hasPath: bool, dup: bool, now: real, src: Addr, id: nat)
    returns (msgs: seq<Msg>)
    requires m.src in n.table && UniqueIds(n.ids) && Cached(n.ids, m.src, m.bcastId)
    ensures Accounted(n, AnswerRequest(n, m, hasPath, dup, now), msgs, src, id)
    ensures forall x | x in msgs && Repeats(x, src, id) :: !dup && src == m.src && id == m.bcastId
  {
    msgs := [];
    if m.dst == n.id {
      msgs := DestinationRule(n, m, src, id);
    } else if IsUp(n, m.dst) && n.table[m.dst].seqno >= m.dstSeqno {
      if hasPath { msgs := ReplyFromTableRule(n, m, now, src, id); }
    } else if !dup {
      msgs := RebroadcastRule(n, m, src, id);
    }
  }

  lemma CacheRule(n: Node, m: Request, now: real, src: Addr, id: nat)
    requires UniqueIds(n.ids)
    ensures var n1 := CacheId(n, m.src, m.bcastId, now);
      && UniqueIds(n1.ids) && Cached(n1.ids, m.src, m.bcastId)
      && Count(n1.ids, src, id) == Count(n.ids, src, id)
  {
    var ids' := CacheId(n, m.src, m.bcastId, now).ids;
    if ids' != n.ids {
      assert ids'[1..] == n.ids;
    }
  }

  lemma RequestRule(n: Node, m: Request, now: real, src: Addr, id: nat)
    requires n.out == [] && UniqueIds(n.ids)
    ensures var r := RecvRequest(n, m, now); Rule(n.id, src, id, n.ids, r.ids, Sent(r.out))
  {
    if m.src != n.id {
      CacheRule(n, m, now, src, id);
      var (n1, verdict) := AbsorbRequest(n, m, now);
      assert n1.out == [] && n1.id == n.id && n1.ids == CacheId(n, m.src, m.bcastId, now).ids;
      if verdict.Keep? {
        var dup := FindId(n.ids, m.src, m.bcastId).Some?;
        assert RecvRequest(n, m, now) == FinishRequest(n1, m, verdict.hasPath, dup, now);
        SettleSent(n1, m.src, now);
        var msgs := AnswerRule(Settle(n1, m.src, now), m, verdict.hasPath, dup, now, src, id);
      }
    }
  }

  lemma RelayRule(n: Node, m: Reply, now: real, src: Addr, id: nat) returns (msgs: seq<Msg>)
    requires m.dst in n.table && UniqueIds(n.ids) && m.ipDst != n.id
    ensures Accounted(n, RelayReply(n, m, now), msgs, src, id) && forall x | x in msgs :: x.Rrep?
  {
    msgs := RelaySent(n, m, now);
    var f := FindId(n.ids, m.ipDst, m.bcastId);
    if f.Some? { CountAfterMark(n.ids, f.value, src, id); }
    if msgs != [] { SentAppend(n.out, RelayReply(n, m, now).out[|n.out|]); }
  }

  lemma ReplyRule(n: Node, m: Reply, now: real, src: Addr, id: nat)
    requires n.out == [] && UniqueIds(n.ids)
    ensures var r := RecvReply(n, m, now); Rule(n.id, src, id, n.ids, r.ids, Sent(r.out))
  {
    if m.dst != n.id {
      var (n1, kept) := AbsorbReply(n, m, now);
      assert n1.out == [] && n1.id == n.id && n1.ids == n.ids;
      if kept {
        SettleSent(n1, m.dst, now);
        if m.ipDst != n.id { var msgs := RelayRule(Settle(n1, m.dst, now), m, now, src, id); }
      }
    }
  }

  lemma PassesNothingRule(n: Node, r: Node, src: Addr, id: nat)
    requires n.out == [] && PassesNothing(n, r) && src != n.id
    ensures Rule(n.id, src, id, n.ids, r.ids, Sent(r.out))
  {
  }

  lemma MessageRule(n: Node, m: Msg, now: real, src: Addr, id: nat)
    requires n.out == [] && UniqueIds(n.ids) && src != n.id
    ensures var r := HandleMessage(n, m, now); Rule(n.id, src, id, n.ids, r.ids, Sent(r.out))
  {
    match m
    case Rreq(rq) => RequestRule(n, rq, now, src, id);
    case Rrep(rp) => ReplyRule(n, rp, now, src, id);
    case Hello(hi) => ReplyRule(HearNeighbor(n, hi.dst, now), HelloReply(n.id, hi), now, src, id);
    case Rerr(re) =>
      ErrorAllOnlyTable(n, re.ipSrc, re.dests);
      var msgs := RecvErrorSent(n, re);
      PassesNothingRule(n, RecvError(n, re), src, id);
  }

  lemma TimerRule(n: Node, t: Timer, now: real, src: Addr, id: nat)
    requires n.out == [] && UniqueIds(n.ids) && src != n.id
    ensures var r := HandleTimer(n, t, now); Rule(n.id, src, id, n.ids, r.ids, Sent(r.out))
  {
    match t
    case HelloTime => EmitSent(n, Hello(Greeting(n.id, 1, n.id, n.seqno, (1.0 + ALLOWED_HELLO_LOSS) * HELLO_INTERVAL)));
    case IdTime => if Cached(LiveIds(n.ids, now), src, id) { CountAfterPurge(n.ids, now, src, id); }
    case NeighborTime => LoseExpiredPasses(n, n.nbrs, now); PassesNothingRule(n, NbPurge(n, now), src, id);
    case RouteTime => PurgeRoutesPasses(n, n.order, now); PassesNothingRule(n, RtPurge(n, now), src, id);
  }

  lemma HandleRule(n: Node, ev: Event, now: real, src: Addr, id: nat)
    requires n.out == [] && UniqueIds(n.ids) && src != n.id
    ensures var r := Handle(n, ev, now); Rule(n.id, src, id, n.ids, r.ids, Sent(r.out))
  {
    match ev
    case Receive(m) => MessageRule(n, AfterHop(m), now, src, id);
    case Data(p, isNew) =>
      match Admit(n.id, p, isNew) {
        case None => SentAppend(n.out, Dropped(p));
        case Some(q) => ResolvePasses(n, q, now); PassesNothingRule(n, Resolve(n, q, now), src, id);
      }
    case Queue(ifq) =>
    case Tick(t) => TimerRule(n, t, now, src, id);
  }

  // ---- Whole runs ----

  function Tally(msgs: seq<Msg>, p: Msg -> bool): nat {
    if msgs == [] then 0
    else
      var last := |msgs| - 1;
      Tally(msgs[..last], p) + if p(msgs[last]) then 1 else 0
  }

  function Repeat(src: Addr, id: nat): Msg -> bool {
    m => Repeats(m, src, id)
  }

  function ReplyBy(me: Addr, src: Addr, id: nat): Msg -> bool {
    m => RepliesTo(m, me, src, id)
  }

  /** How many messages with property `p` node `i` sends in steps `a` to `b` of a run. */
  ghost function Total(run: seq<Net>, acts: seq<(Addr, Event)>, i: Addr, p: Msg -> bool, a: nat, b: nat): nat
    requires IsRun(run, acts) && a <= b < |run|
    decreases b
  {
    if a == b then 0
    else Total(run, acts, i, p, a, b - 1) + InStep(run, acts, i, p, b - 1)
  }

  ghost function InStep(run: seq<Net>, acts: seq<(Addr, Event)>, i: Addr, p: Msg -> bool, k: nat): nat
    requires IsRun(run, acts) && k < |acts|
  {
    assert StepAt(run, acts, k);
    if acts[k].0 == i then Tally(Sent(After(run[k], i, acts[k].1).out), p) else 0
  }

  lemma {:induction false} TallyZero(msgs: seq<Msg>, p: Msg -> bool)
    requires forall m | m in msgs :: !p(m)
    ensures Tally(msgs, p) == 0
  {
    if msgs != [] {
      forall m | m in msgs[..|msgs| - 1] ensures !p(m) { assert m in msgs; }
      TallyZero(msgs[..|msgs| - 1], p);
    }
  }

  lemma TallyAtMostOne(msgs: seq<Msg>, p: Msg -> bool)
    requires forall m | m in msgs && p(m) :: |msgs| == 1
    ensures Tally(msgs, p) <= 1
    ensures Tally(msgs, p) == 1 ==> exists m :: m in msgs && p(m)
  {
    if exists m :: m in msgs && p(m) {
      assert Tally(msgs[..0], p) == 0;
    } else {
      TallyZero(msgs, p);
    }
  }

  ghost predicate CachedAt(run: seq<Net>, i: Addr, src: Addr, id: nat, k: nat)
    requires k < |run|
  {
    i in run[k].nodes && Cached(run[k].nodes[i].ids, src, id)
  }

  /** The rule for one step of a run. */
  lemma StepRule(run: seq<Net>, acts: seq<(Addr, Event)>, i: Addr, src: Addr, id: nat, k: nat)
    requires IsRun(run, acts) && k < |acts| && src != i && i in run[k].nodes
    requires CachedAt(run, i, src, id, k + 1)
    ensures var c, c' := run[k].nodes[i].ids, run[k + 1].nodes[i].ids;
      var f, r := InStep(run, acts, i, Repeat(src, id), k), InStep(run, acts, i, ReplyBy(i, src, id), k);
      && f <= 1 && (f == 1 ==> !Cached(c, src, id))
      && r <= 1 && (r == 1 ==> Count(c, src, id) == 0 && Count(c', src, id) >= 1)
      && (Count(c, src, id) >= 1 ==> Count(c', src, id) >= 1)
  {
    assert StepAt(run, acts, k);
    RunSafe(run, acts, k);
    if acts[k].0 == i {
      var n := run[k].nodes[i];
      HandleRule(n, acts[k].1, run[k].now, src, id);
      var msgs := Sent(After(run[k], i, acts[k].1).out);
      TallyAtMostOne(msgs, Repeat(src, id));
      TallyAtMostOne(msgs, ReplyBy(i, src, id));
    }
  }

  lemma {:induction false} OnceInWindow(run: seq<Net>, acts: seq<(Addr, Event)>, i: Addr, src: Addr, id: nat, a: nat,
                                        b: nat)
    requires IsRun(run, acts) && a <= b < |run| && src != i && i in run[a].nodes
    requires forall k | a < k <= b :: CachedAt(run, i, src, id, k)
    ensures i in run[b].nodes
    ensures Total(run, acts, i, Repeat(src, id), a, b) <= 1
    ensures Total(run, acts, i, ReplyBy(i, src, id), a, b) <= 1
    ensures Total(run, acts, i, ReplyBy(i, src, id), a, b) == 1 ==> Count(run[b].nodes[i].ids, src, id) >= 1
    ensures a == b ==> Total(run, acts, i, Repeat(src, id), a, b) == 0
    decreases b
  {
    if a < b {
      OnceInWindow(run, acts, i, src, id, a, b - 1);
      assert CachedAt(run, i, src, id, b);
      StepRule(run, acts, i, src, id, b - 1);
      if a < b - 1 { assert CachedAt(run, i, src, id, b - 1); }
    }
  }

  /** Once per request: from the step that caches request (src, id) for as long as it stays cached, node
      `i` passes the request on at most once and answers or relays at most one reply to it. */
  lemma OncePerRequest(run: seq<Net>, acts: seq<(Addr, Event)>, i: Addr, src: Addr, id: nat, a: nat, b: nat)
    requires IsRun(run, acts) && a <= b < |run| && src != i && i in run[a].nodes
    requires forall k | a < k <= b :: CachedAt(run, i, src, id, k)
    ensures Total(run, acts, i, Repeat(src, id), a, b) <= 1
    ensures Total(run, acts, i, ReplyBy(i, src, id), a, b) <= 1
  {
    OnceInWindow(run, acts, i, src, id, a, b);
  }
}
