/** Which offered paths a node takes up, and what its route is then: the conditions of recvRequest and recvReply, said
    of the paths that were stored before. */
module Learning {
  import opened Basics
  import opened Routes
  import opened NodeInvariant

  /** Path `p` has the next hop and the last hop that are offered. */
  predicate Matches(p: Path, o: Offer) {
    p.nexthop == o.via && p.lasthop == o.lasthop
  }

  ghost predicate Stored(ps: seq<Path>, o: Offer) {
    exists k :: 0 <= k < |ps| && Matches(ps[k], o)
  }

  /** Some stored path shares a hop with the offered one. */
  ghost predicate Clashes(ps: seq<Path>, o: Offer) {
    exists k :: 0 <= k < |ps| && (ps[k].nexthop == o.via || ps[k].lasthop == o.lasthop)
  }

  /** A path of length `len` is longer than no stored one, nor than INFINITY2, by more than `lenDiff`. */
  ghost predicate Near(cfg: Config, ps: seq<Path>, len: nat) {
    len - INFINITY2 <= cfg.lenDiff && forall k | 0 <= k < |ps| :: len - ps[k].hopcount <= cfg.lenDiff
  }

  /** There is room for the offered path beside the stored ones. */
  ghost predicate Fits(cfg: Config, ps: seq<Path>, o: Offer) {
    !Clashes(ps, o) && |ps| < cfg.maxPaths && Near(cfg, ps, o.hops + 1)
  }

  /** The offer is made under the number the route has, and is shorter than what has been advertised. */
  predicate Competes(e: Entry, o: Offer) {
    e.seqno == o.seqno && (e.adv.Some? ==> o.hops < e.adv.value)
  }

  /** The route takes the offered path up. */
  ghost predicate Accepts(cfg: Config, e: Entry, o: Offer) {
    e.seqno < o.seqno || (Competes(e, o) && (Stored(e.paths, o) || Fits(cfg, e.paths, o)))
  }

  /** Route `e'` is route `e` with the offered path: alone under a newer number, with a longer lifetime if it was known,
      behind the others if it is new. */
  ghost predicate Taken(e: Entry, e': Entry, o: Offer) {
    var offered := Path(o.via, o.hops + 1, o.expire, o.lasthop);
    if e.seqno < o.seqno then
      e' == e.(seqno := o.seqno, flags := Up, adv := None, paths := [offered], numPaths := 1, lastHops := o.hops + 1,
               pruned := false)
    else if Stored(e.paths, o) then
      && e' == e.(paths := e'.paths) && |e'.paths| == |e.paths|
      && forall k | 0 <= k < |e.paths| ::
           e'.paths[k] == if Matches(e.paths[k], o) then e.paths[k].(expire := MaxReal(e.paths[k].expire, o.expire))
                          else e.paths[k]
    else
      && e' == e.(paths := e.paths + [offered], numPaths := |e.paths| + 1, lastHops := e'.lastHops)
      && (forall k | 0 <= k < |e'.paths| :: e'.paths[k].hopcount <= e'.lastHops)
      && exists k :: 0 <= k < |e'.paths| && e'.paths[k].hopcount == e'.lastHops
  }

  /** Route `e'` is route `e` after the offer, taken up or not. */
  ghost predicate Learned(cfg: Config, e: Entry, e': Entry, o: Offer) {
    if Accepts(cfg, e, o) then Taken(e, e', o) else e' == e
  }

  /** Taking a path up loses none and shortens no lifetime; the offered path is stored. */
  lemma TakenStores(cfg: Config, d: Addr, e: Entry, e': Entry, o: Offer)
    requires EntryShape(cfg, d, e) && Accepts(cfg, e, o) && Taken(e, e', o)
    ensures exists k :: 0 <= k < |e'.paths| && Matches(e'.paths[k], o) && o.expire <= e'.paths[k].expire
    ensures e.seqno == o.seqno ==>
              && |e.paths| <= |e'.paths| <= |e.paths| + 1
              && forall k | 0 <= k < |e.paths| ::
                   SamePath(e.paths[k], e'.paths[k]) && e.paths[k].expire <= e'.paths[k].expire
  {
    if e.seqno < o.seqno {
      assert Matches(e'.paths[0], o);
    } else if Stored(e.paths, o) {
      var k :| 0 <= k < |e.paths| && Matches(e.paths[k], o);
      assert Matches(e'.paths[k], o);
    } else {
      assert Matches(e'.paths[|e.paths|], o);
    }
  }

  // ---- The three ways ----

  lemma AdoptTakes(e: Entry, o: Offer)
    requires e.seqno < o.seqno
    ensures Taken(e, Adopt(e, o), o)
  {
    var e' := Adopt(e, o);
    assert e'.paths == [OfferedPath(o)];
  }

  lemma OnlyOneMatches(ps: seq<Path>, o: Offer, k: nat)
    requires DistinctHops(ps) && FindPair(ps, o.via, o.lasthop) == Some(k)
    ensures forall j | 0 <= j < |ps| :: Matches(ps[j], o) <==> j == k
  {
  }

  lemma ExtendTakes(e: Entry, o: Offer, k: nat)
    requires DistinctHops(e.paths) && FindPair(e.paths, o.via, o.lasthop) == Some(k) && e.seqno == o.seqno
    ensures Stored(e.paths, o) && Taken(e, Extend(e, k, o.expire), o)
  {
    OnlyOneMatches(e.paths, o, k);
    assert Matches(e.paths[k], o);
  }

  lemma AppendTakes(e: Entry, o: Offer)
    requires e.numPaths == |e.paths| && e.seqno == o.seqno && !Stored(e.paths, o)
    ensures Taken(e, Append(e, o), o)
  {
    var e' := Append(e, o);
    assert e'.paths[|e.paths|].hopcount == o.hops + 1 && e'.lastHops == MaxHops(e'.paths);
  }

  lemma NotPaired(ps: seq<Path>, o: Offer)
    ensures FindPair(ps, o.via, o.lasthop).Some? <==> Stored(ps, o)
    ensures NewDisjoint(ps, o.via, o.lasthop) <==> !Clashes(ps, o)
    ensures Stored(ps, o) ==> Clashes(ps, o)
  {
    var f := FindPair(ps, o.via, o.lasthop);
    if f.Some? { assert Matches(ps[f.value], o); }
  }

  /** The shortest stored path decides. */
  lemma NearShortest(cfg: Config, ps: seq<Path>, len: nat)
    ensures Near(cfg, ps, len) <==> len - MinHops(ps) <= cfg.lenDiff
  {
    if MinHops(ps) != INFINITY2 {
      var k :| 0 <= k < |ps| && ps[k].hopcount == MinHops(ps);
    }
  }

  // ---- recvReply ----

  /** A reply is kept iff the route takes the offered path up; nothing is learned from the others. */
  lemma LearnForwardExact(cfg: Config, d: Addr, e: Entry, o: Offer)
    requires EntryShape(cfg, d, e)
    ensures var (e', kept) := LearnForward(cfg, e, o);
      (kept <==> Accepts(cfg, e, o)) && Learned(cfg, e, e', o)
  {
    NotPaired(e.paths, o);
    NearShortest(cfg, e.paths, o.hops + 1);
    if e.seqno < o.seqno {
      AdoptTakes(e, o);
    } else if Competes(e, o) {
      if Stored(e.paths, o) {
        ExtendTakes(e, o, FindPair(e.paths, o.via, o.lasthop).value);
      } else if Fits(cfg, e.paths, o) {
        AppendTakes(e, o);
      }
    }
  }

  // ---- recvRequest ----

  /** The request has brought a reverse path, new or known. */
  ghost predicate BringsReverse(cfg: Config, e: Entry, o: Offer) {
    Accepts(cfg, e, o) && (e.seqno < o.seqno || Stored(e.paths, o) || 0 <= cfg.lenDiff)
  }

  /** The offered path is longer than the stored one with the same last hop, if there is one. */
  ghost predicate Longer(ps: seq<Path>, o: Offer) {
    forall k | 0 <= k < |ps| && ps[k].lasthop == o.lasthop :: ps[k].hopcount < o.hops + 1
  }

  /** Processing goes on though the request has brought no reverse path: there is no room for it, or it shares a hop
      with another one. */
  ghost predicate GoesOnWithout(cfg: Config, e: Entry, o: Offer, forMe: bool) {
    && Competes(e, o) && !Stored(e.paths, o)
    && if Clashes(e.paths, o) then !forMe || !Longer(e.paths, o)
       else cfg.maxPaths <= |e.paths| && Near(cfg, e.paths, o.hops + 1)
  }

  lemma LongerMeans(ps: seq<Path>, o: Offer)
    requires DistinctHops(ps)
    ensures Longer(ps, o) <==>
            match FindLast(ps, o.lasthop) case None => true case Some(k) => o.hops + 1 > ps[k].hopcount
  {
    var f := FindLast(ps, o.lasthop);
    if f.Some? { assert forall j | 0 <= j < |ps| && ps[j].lasthop == o.lasthop :: j == f.value; }
  }

  /** After the new path has been appended, the length test asks only whether `lenDiff` is negative. */
  lemma AppendedNear(cfg: Config, e: Entry, o: Offer)
    requires Near(cfg, e.paths, o.hops + 1)
    ensures (o.hops + 1) - MinHops(Append(e, o).paths) <= cfg.lenDiff <==> 0 <= cfg.lenDiff
  {
    var ps := Append(e, o).paths;
    NearShortest(cfg, ps, o.hops + 1);
    assert ps[|e.paths|].hopcount == o.hops + 1;
    forall k | 0 <= k < |e.paths| ensures ps[k] == e.paths[k] {}
  }

  /** A path that is not stored is appended iff it fits. */
  lemma NewReversePath(cfg: Config, d: Addr, e: Entry, o: Offer, forMe: bool)
    requires EntryShape(cfg, d, e) && Competes(e, o) && !Stored(e.paths, o)
    ensures LearnReverse(cfg, e, o, forMe).0 == if Fits(cfg, e.paths, o) then Append(e, o) else e
  {
    NotPaired(e.paths, o);
    NearShortest(cfg, e.paths, o.hops + 1);
  }

  lemma ReversePaths(cfg: Config, d: Addr, e: Entry, o: Offer, forMe: bool)
    requires EntryShape(cfg, d, e)
    ensures Learned(cfg, e, LearnReverse(cfg, e, o, forMe).0, o)
  {
    if e.seqno < o.seqno {
      AdoptTakes(e, o);
    } else if Competes(e, o) {
      if Stored(e.paths, o) {
        NotPaired(e.paths, o);
        ExtendTakes(e, o, FindPair(e.paths, o.via, o.lasthop).value);
      } else {
        NewReversePath(cfg, d, e, o, forMe);
        if Fits(cfg, e.paths, o) { AppendTakes(e, o); }
      }
    }
  }

  /** The verdict on an offer of a path that is not stored. */
  lemma NewPathVerdict(cfg: Config, d: Addr, e: Entry, o: Offer, forMe: bool)
    requires EntryShape(cfg, d, e) && Competes(e, o) && !Stored(e.paths, o)
    ensures var verdict := LearnReverse(cfg, e, o, forMe).1;
      && (verdict == Keep(true) <==> Fits(cfg, e.paths, o) && 0 <= cfg.lenDiff)
      && (verdict == Keep(false) <==> GoesOnWithout(cfg, e, o, forMe))
  {
    NotPaired(e.paths, o);
    NearShortest(cfg, e.paths, o.hops + 1);
    LongerMeans(e.paths, o);
    if Fits(cfg, e.paths, o) { AppendedNear(cfg, e, o); }
  }

  /** The reverse route takes the same paths up as a forward route would. A request goes on iff it has brought a reverse
      path, or there is no room for one, or it shares a hop with another, which stops it only at its destination. */
  lemma LearnReverseExact(cfg: Config, d: Addr, e: Entry, o: Offer, forMe: bool)
    requires EntryShape(cfg, d, e)
    ensures var (e', verdict) := LearnReverse(cfg, e, o, forMe);
      && Learned(cfg, e, e', o)
      && (verdict == Keep(true) <==> BringsReverse(cfg, e, o))
      && (verdict == Keep(false) <==> GoesOnWithout(cfg, e, o, forMe))
  {
    ReversePaths(cfg, d, e, o, forMe);
    NotPaired(e.paths, o);
    if Competes(e, o) && !Stored(e.paths, o) { NewPathVerdict(cfg, d, e, o, forMe); }
  }
}
