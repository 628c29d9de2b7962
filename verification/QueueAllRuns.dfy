/** What survives all runs, however `removeIf` hands back. As coded, a purge can lose blocks: their hashes
    stay in the ready set while no queue holds them. Everything else the queue promises about its sets
    and its order still holds, with these strays accounted for. */
module QueueAllRuns {
  import opened QueueState
  import opened QueueInvariant
  import opened QueueSafety
  import opened QueuePurge
  import opened QueueUpdateBad
  import opened QueueRuns

  /** Ready hashes that are in no queue. */
  ghost function Strays(s: State): set<Hash> {
    s.ready - Hashes(Pipeline(s))
  }

  /** The sets are disjoint and the unknown set is the multimap's. Uncle hashes that a purge took for
      block hashes can stand in the bad set only. */
  ghost predicate Disjoint(s: State) {
    && s.ready !! s.draining !! s.unknownSet !! s.knownBad
    && s.chain !! s.ready + s.draining + s.unknownSet
    && (forall h :: h in s.chain && h in s.knownBad ==> h.UnclesHash?)
    && s.unknownSet == Hashes(s.unknown) && UniqueHashes(s.unknown)
    && (forall h :: h in s.ready || h in s.draining ==> h.HeaderHash?)
  }

  /** The line is without repetition, known, parents first and in the order of arrival. */
  ghost predicate InLine(s: State) {
    && UniqueHashes(Pipeline(s)) && Hashes(Pipeline(s)) <= s.ready + s.knownBad
    && Anchored(Pipeline(s), Roots(s) + Strays(s))
    && Subseq(s.drained + Pipeline(s), s.enqueued)
  }

  /** A finished slot's block is ready. */
  ghost predicate DoneReady(s: State) {
    forall e :: e in s.verifying && e.Done? ==> e.b.Hash() in s.ready
  }

  /** While a purge is under way, queued blocks may be marked already. */
  ghost predicate Purging(s: State) {
    Disjoint(s) && InLine(s) && Waiting(s) && JobsMatch(s, Strays(s)) && DoneReady(s)
  }

  /** Between the events every queued block is ready. */
  ghost predicate Settled(s: State) {
    Purging(s) && Hashes(Pipeline(s)) <= s.ready
  }

  // ----- shrinking the line

  lemma LineShrinks(s: State, t: State, gone: set<Hash>)
    requires InLine(s) && Pipeline(t) == Without(Pipeline(s), gone) && gone <= Hashes(Pipeline(s))
    requires t.drained == s.drained && t.enqueued == s.enqueued
    requires s.ready <= t.ready + t.knownBad && s.draining <= t.draining
    requires s.chain <= t.chain && s.knownBad <= t.knownBad
    ensures InLine(t)
  {
    hide UniqueHashes, Subseq, Pipeline, Without;
    var p := Pipeline(s);
    WithoutUnique(p, gone);
    WithoutMembers(p, gone);
    WithoutAnchored(p, gone, Roots(s) + Strays(s));
    SubseqWithout(s.drained, p, s.enqueued, gone);
    assert Roots(s) + Strays(s) + gone <= Roots(t) + Strays(t);
    AnchoredMore(Pipeline(t), Roots(s) + Strays(s) + gone, Roots(t) + Strays(t));
  }

  lemma LineStays(s: State, t: State)
    requires InLine(s) && Pipeline(t) == Pipeline(s) && t.drained == s.drained && t.enqueued == s.enqueued
    requires s.ready <= t.ready + t.knownBad && s.draining <= t.draining
    requires s.chain <= t.chain && s.knownBad <= t.knownBad
    ensures InLine(t)
  {
    hide InLine, Pipeline;
    WithoutNone(Pipeline(s), {});
    LineShrinks(s, t, {});
  }

  lemma JobsStay(s: State, t: State)
    requires JobsMatch(s, Strays(s)) && t.jobs == s.jobs && t.verifying == s.verifying && Pipeline(t) == Pipeline(s)
    requires s.ready <= t.ready + t.knownBad && s.knownBad <= t.knownBad
    ensures JobsMatch(t, Strays(t))
  {
    hide Pipeline;
  }

  // ----- marking

  /** A hash that may be marked: not draining, not waiting, not in the chain unless it is bad already. */
  ghost predicate Markable(s: State, h: Hash) {
    && h !in s.draining && h !in s.unknownSet && (h in s.chain ==> h in s.knownBad || h.UnclesHash?)
    && (forall e :: e in s.verifying && e.Done? ==> e.b.Hash() != h)
  }

  lemma MarkDisjoint(s: State, h: Hash)
    requires Disjoint(s) && Waiting(s) && Markable(s, h)
    ensures Disjoint(MarkOne(s, h)) && Waiting(MarkOne(s, h))
  {
    hide UniqueHashes;
    var (left, moved) := Harvest(s.unknown, [h]);
    HarvestPartition(s.unknown, [h]);
    HarvestClosed(s.unknown, [h]);
    UniqueParts(moved, left);
    HashesAppend(moved, left);
    assert h in [h];
    assert s.unknownSet == Hashes(moved) + Hashes(left);
  }

  lemma MarkPurging(s: State, h: Hash)
    requires Purging(s) && Markable(s, h)
    ensures Purging(MarkOne(s, h))
    ensures forall g :: Markable(s, g) ==> Markable(MarkOne(s, h), g)
  {
    hide InLine, JobsMatch, Harvest;
    var t := MarkOne(s, h);
    MarkDisjoint(s, h);
    assert Pipeline(t) == Pipeline(s);
    LineStays(s, t);
    JobsStay(s, t);
    MarkableStays(s, h);
  }

  lemma MarkableStays(s: State, h: Hash)
    requires Disjoint(s)
    ensures forall g :: Markable(s, g) ==> Markable(MarkOne(s, h), g)
  {
    hide UniqueHashes, Harvest;
  }

  lemma {:induction false} MarkAllPurging(s: State, hs: seq<Hash>)
    requires Purging(s) && forall h :: h in hs ==> Markable(s, h)
    ensures Purging(MarkAll(s, hs))
    decreases |hs|
  {
    hide Purging, Markable, MarkOne;
    if hs != [] {
      MarkPurging(s, hs[0]);
      MarkAllPurging(MarkOne(s, hs[0]), hs[1..]);
    }
  }

  // ----- purging

  /** Taking the doomed entries out of one queue. */
  lemma RemovalPurging(s: State, lane: Lane)
    requires Purging(s)
    ensures Purging(WithLane(s, lane, Keep(LaneOf(s, lane), lane, s.knownBad)))
  {
    var q := LaneOf(s, lane);
    var t := WithLane(s, lane, Keep(q, lane, s.knownBad));
    hide UniqueHashes, Anchored, Subseq, Pipeline, Without, Hashes, Gone, JobsMatch, Keep;
    PipelineWithout(s, lane);
    LineShrinks(s, t, Gone(q, lane, s.knownBad));
    KeepDropMembers(q, lane, s.knownBad);
    RemovalJobs(s, lane, t);
  }

  lemma RemovalJobs(s: State, lane: Lane, t: State)
    requires Purging(s) && t == WithLane(s, lane, Keep(LaneOf(s, lane), lane, s.knownBad))
    ensures JobsMatch(t, Strays(t))
  {
    hide UniqueHashes, Anchored, Subseq, Disjoint, Pipeline, Without;
    var q := LaneOf(s, lane);
    var gone := Gone(q, lane, s.knownBad);
    PipelineWithout(s, lane);
    KeepDropMembers(q, lane, s.knownBad);
    GoneMeaning(q, lane, s.knownBad);
    WithoutMembers(Pipeline(s), gone);
    forall w | w in s.jobs ensures Pending(w) in t.verifying || w.Hash() in t.knownBad || w.Hash() in Strays(t) {
      if Pending(w) in s.verifying && Pending(w) !in t.verifying { InLaneHash(s, Verifying, Pending(w)); }
    }
  }

  lemma InLaneHash(s: State, lane: Lane, e: Entry)
    requires e in LaneOf(s, lane)
    ensures e.b.Hash() in Hashes(Pipeline(s)) && e.b in Pipeline(s)
  {
    InPipeline(s, lane, e);
  }

  /** Entries of different queues, and different entries of one, have different hashes. */
  lemma OnePlace(s: State, x: Lane, e: Entry, y: Lane, f: Entry)
    requires UniqueHashes(Pipeline(s)) && e in LaneOf(s, x) && f in LaneOf(s, y) && e.b.Hash() == f.b.Hash()
    ensures x == y && e == f
  {
    hide UniqueHashes, Pipeline;
    var a, b, c := Blocks(s.verified), Blocks(s.verifying), Blocks(s.unverified);
    PipelineSplit(s);
    WithoutOneOfThree(a, b, c, {});
    InBlocks(LaneOf(s, x), e.b);
    InBlocks(LaneOf(s, y), f.b);
    assert e.b.Hash() in Hashes(Blocks(LaneOf(s, x))) && f.b.Hash() in Hashes(Blocks(LaneOf(s, y)));
    assert x == y;
    UniqueEntries(LaneOf(s, x), e, f);
  }

  /** What is handed back to a purge may be marked. */
  lemma HandedMarkable(m: Removal, s: State, lane: Lane, c: Cell)
    requires Purging(s) && c in Handed(m, LaneOf(s, lane), lane, s.knownBad)
    ensures Markable(WithLane(s, lane, Keep(LaneOf(s, lane), lane, s.knownBad)), CellHash(lane, c))
  {
    hide Anchored, Subseq, UniqueHashes, JobsMatch, Waiting;
    var q := LaneOf(s, lane);
    var t := WithLane(s, lane, Keep(q, lane, s.knownBad));
    var h := CellHash(lane, c);
    HandedFromQueue(m, q, lane, s.knownBad, c);
    KeepDropMembers(q, lane, s.knownBad);
    InLaneHash(s, lane, c.e);
    forall e | e in t.verifying && e.Done? ensures e.b.Hash() != h {
      assert e in LaneOf(s, Verifying);
      if e.b.Hash() == h { OnePlace(s, lane, c.e, Verifying, e); }
    }
  }

  lemma HandedFromQueue(m: Removal, q: seq<Entry>, lane: Lane, bad: set<Hash>, c: Cell)
    requires c in Handed(m, q, lane, bad)
    ensures c.e in q && (!c.moved ==> Doomed(lane, bad, c.e))
  {
    KeepDropLength(q, lane, bad);
    KeepDropMembers(q, lane, bad);
    var hs := Handed(m, q, lane, bad);
    var j :| 0 <= j < |hs| && hs[j] == c;
    if m == Partitioning { assert Drop(q, lane, bad)[j] in Drop(q, lane, bad); }
  }

  lemma PurgePurging(m: Removal, s: State, lane: Lane)
    requires Purging(s)
    ensures Purging(Purge(m, s, lane))
  {
    hide Purging, Markable, MarkAll, Keep, Handed;
    var q := LaneOf(s, lane);
    var t := WithLane(s, lane, Keep(q, lane, s.knownBad));
    var cs := Handed(m, q, lane, s.knownBad);
    var hs := CellHashes(lane, cs);
    RemovalPurging(s, lane);
    forall h | h in hs ensures Markable(t, h) {
      var i :| 0 <= i < |hs| && hs[i] == h;
      HandedMarkable(m, s, lane, cs[i]);
    }
    MarkAllPurging(t, hs);
  }

  /** In a state where nothing is doomed every queued block is ready. */
  lemma NothingDoomed(m: Removal, s: State)
    requires Purging(s) && |Pipeline(PurgeRound(m, s))| == |Pipeline(s)|
    ensures PurgeRound(m, s) == s && Settled(s)
  {
    hide Purge, Anchored, Subseq, UniqueHashes, JobsMatch, Waiting;
    QuietRound(m, s);
    PurgeShrinks(m, s, Verified);
    PurgeShrinks(m, Purge(m, s, Verified), Unverified);
    PurgeShrinks(m, Purge(m, Purge(m, s, Verified), Unverified), Verifying);
    EmptyDrop(m, s, Verified);
    EmptyDrop(m, s, Unverified);
    forall b | b in Pipeline(s) ensures b.Hash() in s.ready { NotDoomed(s, b); }
  }

  lemma NotDoomed(s: State, b: Block)
    requires Disjoint(s) && DoneReady(s) && Hashes(Pipeline(s)) <= s.ready + s.knownBad && b in Pipeline(s)
    requires forall lane :: Drop(LaneOf(s, lane), lane, s.knownBad) == []
    ensures b.Hash() in s.ready
  {
    hide UniqueHashes;
    PipelineSplit(s);
    var lane := if b in Blocks(s.verified) then Verified else if b in Blocks(s.verifying) then Verifying
        else Unverified;
    InBlocks(LaneOf(s, lane), b);
    var e :| e in LaneOf(s, lane) && e.b == b;
    KeepDropMembers(LaneOf(s, lane), lane, s.knownBad);
    assert !Doomed(lane, s.knownBad, e);
    assert b.Hash() in Hashes(Pipeline(s));
  }

  lemma {:induction false} LoopSettles(m: Removal, s: State)
    requires Purging(s)
    ensures Settled(PurgeLoop(m, s))
    decreases |Pipeline(s)|
  {
    hide Purging, Settled, Purge;
    RoundShrinks(m, s);
    PurgePurging(m, s, Verified);
    PurgePurging(m, Purge(m, s, Verified), Unverified);
    PurgePurging(m, Purge(m, Purge(m, s, Verified), Unverified), Verifying);
    var t := PurgeRound(m, s);
    if |Pipeline(t)| < |Pipeline(s)| { LoopSettles(m, t); } else { NothingDoomed(m, s); }
  }

  /** `updateBad` on a hash that may be marked leaves the queue settled. */
  lemma UpdateSettles(m: Removal, s: State, h: Hash)
    requires Purging(s) && Markable(s, h) && h !in s.ready
    ensures Settled(UpdateBad(m, s.(knownBad := s.knownBad + {h}), h))
  {
    hide Purging, Markable, Settled, PurgeLoop;
    MarkPurging(s, h);
    assert s.ready - {h} == s.ready;
    LoopSettles(m, MarkOne(s, h));
  }

  lemma {:induction false} ReportsSettle(m: Removal, s: State, bad: seq<Hash>)
    requires Settled(s) && forall h :: h in bad ==> h in s.knownBad
    ensures Settled(UpdateAll(m, s, bad))
    decreases |bad|
  {
    hide UpdateBad, JobsMatch, InLine, Waiting;
    if bad != [] {
      var h := bad[0];
      KnownMarkable(s, h);
      assert s.knownBad + {h} == s.knownBad;
      assert s.(knownBad := s.knownBad + {h}) == s;
      UpdateSettles(m, s, h);
      var t := UpdateBad(m, s, h);
      BadGrows(m, s, h);
      ReportsSettle(m, t, bad[1..]);
    }
  }

  lemma KnownMarkable(s: State, h: Hash)
    requires Settled(s) && h in s.knownBad
    ensures Markable(s, h) && h !in s.ready
  {
    hide InLine, JobsMatch, Waiting;
  }

  // ----- the verifiers

  lemma PendingSlots(s: State, w: Block)
    requires Settled(s) && w in s.jobs
    ensures forall e :: e in s.verifying && e.b.Hash() == w.Hash() ==> e == Pending(w)
    ensures w.Hash() in Hashes(Pipeline(s)) <==> Pending(w) in s.verifying
    ensures w.Hash() in s.ready || w.Hash() in s.knownBad
  {
    hide Anchored, Subseq, UniqueHashes, Waiting, Pipeline;
    if Pending(w) in s.verifying { InLaneHash(s, Verifying, Pending(w)); }
    forall e | e in s.verifying && e.b.Hash() == w.Hash() ensures e == Pending(w) {
      InLaneHash(s, Verifying, e);
      if Pending(w) in s.verifying { OnePlace(s, Verifying, e, Verifying, Pending(w)); }
    }
  }

  lemma SameLineSettled(s: State, t: State)
    requires Settled(s) && Pipeline(t) == Pipeline(s)
    requires t == s.(verified := t.verified, verifying := t.verifying, unverified := t.unverified, jobs := t.jobs)
    requires JobsMatch(t, Strays(s)) && (forall e :: e in t.verifying && e.Done? ==> e.b.Hash() in s.ready)
    ensures Settled(t)
  {
    hide Pipeline, Anchored, Subseq, UniqueHashes, JobsMatch;
    LineStays(s, t);
  }

  lemma TakeSettled(s: State)
    requires Settled(s) && s.unverified != []
    ensures Settled(Take(s))
  {
    hide Pipeline, Anchored, Subseq, UniqueHashes, Waiting, Hashes, Disjoint, InLine;
    var t, b := Take(s), s.unverified[0].b;
    SameLine(s);
    forall v | v in s.jobs ensures v.Hash() != b.Hash() {
      NoSecondJob(s, v);
    }
    SameLineSettled(s, t);
  }

  /** No verifier works on a block that is still unverified. */
  lemma NoSecondJob(s: State, v: Block)
    requires Settled(s) && s.unverified != [] && v in s.jobs
    ensures s.unverified[0].b.Hash() != v.Hash()
  {
    hide Anchored, Subseq, UniqueHashes, Waiting, Pipeline;
    PendingSlots(s, v);
    InLaneHash(s, Unverified, s.unverified[0]);
    if s.unverified[0].b.Hash() == v.Hash() { OnePlace(s, Unverified, s.unverified[0], Verifying, Pending(v)); }
  }

  lemma SameLine(s: State)
    requires s.unverified != []
    ensures Pipeline(Take(s)) == Pipeline(s)
  {
    assert Blocks(s.unverified) == [s.unverified[0].b] + Blocks(s.unverified[1..]);
  }

  /** A slot leaves and its block, or the block that failed without a slot, turns bad. */
  lemma TurnsBad(s: State, h: Hash, slots: seq<Entry>, jobs: set<Block>)
    requires Settled(s) && h.HeaderHash? && (h in s.ready || h in s.knownBad)
    requires Blocks(slots) == Without(Blocks(s.verifying), {h})
    requires h in Hashes(Pipeline(s)) ==> h in Hashes(Blocks(s.verifying))
    requires forall e :: e in slots <==> e in s.verifying && e.b.Hash() != h
    requires jobs <= s.jobs && forall w :: w in s.jobs && w !in jobs ==> w.Hash() == h
    ensures Settled(s.(verifying := slots, ready := s.ready - {h}, knownBad := s.knownBad + {h}, jobs := jobs))
  {
    hide Pipeline, Anchored, Subseq, UniqueHashes, Without, Blocks, Hashes, JobsMatch;
    var t := s.(verifying := slots, ready := s.ready - {h}, knownBad := s.knownBad + {h}, jobs := jobs);
    LineWithout(s, h, slots);
    PipelineSplit(t);
    LineShrinks(s, t, {h} * Hashes(Pipeline(s)));
    WithoutMembers(Pipeline(s), {h} * Hashes(Pipeline(s)));
    BadJobs(s, t, h);
    WaitingStill(s, h);
  }

  lemma LineWithout(s: State, h: Hash, slots: seq<Entry>)
    requires UniqueHashes(Pipeline(s)) && Blocks(slots) == Without(Blocks(s.verifying), {h})
    requires h in Hashes(Pipeline(s)) ==> h in Hashes(Blocks(s.verifying))
    ensures Blocks(s.verified) + Blocks(slots) + Blocks(s.unverified) ==
            Without(Pipeline(s), {h} * Hashes(Pipeline(s)))
  {
    hide UniqueHashes, Pipeline, Without;
    var a, b, c := Blocks(s.verified), Blocks(s.verifying), Blocks(s.unverified);
    PipelineSplit(s);
    if h in Hashes(Pipeline(s)) {
      assert {h} * Hashes(Pipeline(s)) == {h};
      WithoutOneOfThree(a, b, c, {h});
    } else {
      assert {h} * Hashes(Pipeline(s)) == {};
      HashesAppend(a + b, c);
      HashesAppend(a, b);
      WithoutNone(b, {h});
      WithoutNone(Pipeline(s), {});
    }
  }

  lemma BadJobs(s: State, t: State, h: Hash)
    requires JobsMatch(s, Strays(s)) && t.jobs <= s.jobs && t.knownBad == s.knownBad + {h} && t.ready == s.ready - {h}
    requires forall w :: w in s.jobs && w !in t.jobs ==> w.Hash() == h
    requires forall e :: e in t.verifying <==> e in s.verifying && e.b.Hash() != h
    requires Hashes(Pipeline(t)) <= Hashes(Pipeline(s))
    ensures JobsMatch(t, Strays(t))
  {
    hide Pipeline;
  }

  /** Nothing waits for a block that was ready or bad. */
  lemma WaitingStill(s: State, h: Hash)
    requires Waiting(s) && (h in s.ready || h in s.knownBad)
    ensures forall b :: b in s.unknown ==> b.parent != h
  {
  }

  lemma FrontSettled(s: State)
    requires Settled(s) && s.verifying != [] && s.verifying[0].Done?
    ensures Settled(DrainFront(s))
  {
    hide Pipeline, Anchored, Subseq, UniqueHashes, Waiting, Blocks, Hashes, Without;
    var e, t := s.verifying[0], DrainFront(s);
    VerifyingUnique(s);
    FirstSlot(s.verifying);
    InLaneHash(s, Verifying, e);
    if e.b.parent in s.knownBad {
      TurnsBad(s, e.b.Hash(), s.verifying[1..], s.jobs);
    } else {
      FrontMoves(s, s.jobs);
      SameLineSettled(s, t);
    }
  }

  /** The front slot keeps its place in line when it goes to the verified queue. */
  lemma FrontMoves(s: State, jobs: set<Block>)
    requires s.verifying != []
    ensures var e := s.verifying[0];
            Pipeline(s.(verifying := s.verifying[1..], verified := s.verified + [Done(e.b)], jobs := jobs)) ==
                Pipeline(s)
  {
    var e, t := s.verifying[0], s.(verifying := s.verifying[1..], verified := s.verified + [Done(s.verifying[0].b)],
        jobs := jobs);
    assert Blocks(t.verified + t.verifying + t.unverified) == Blocks(s.verified + s.verifying + s.unverified);
  }

  lemma {:induction false} DrainVerifiedSettled(s: State)
    requires Settled(s)
    ensures Settled(DrainVerified(s))
    decreases |s.verifying|
  {
    hide Settled;
    if s.verifying != [] && s.verifying[0].Done? {
      FrontSettled(s);
      DrainVerifiedSettled(DrainFront(s));
    }
  }

  lemma FailTurnsBad(s: State, w: Block)
    requires Settled(s) && w in s.jobs
    ensures var h := w.Hash();
            Settled(s.(ready := s.ready - {h}, knownBad := s.knownBad + {h},
                       verifying := Untagged(s.verifying, h), jobs := s.jobs - {w}))
  {
    hide Pipeline, Anchored, Subseq, UniqueHashes, Waiting, Untagged, Without;
    var h := w.Hash();
    PendingSlots(s, w);
    UntaggedIsWithout(s.verifying, h);
    if h in Hashes(Pipeline(s)) {
      InBlocks(s.verifying, w);
      assert w in Blocks(s.verifying);
    }
    TurnsBad(s, h, Untagged(s.verifying, h), s.jobs - {w});
  }

  lemma FailSettled(s: State, w: Block)
    requires Settled(s) && w in s.jobs
    ensures Settled(Fail(s, w))
  {
    hide Settled, DrainVerified;
    var h := w.Hash();
    FailTurnsBad(s, w);
    DrainVerifiedSettled(s.(ready := s.ready - {h}, knownBad := s.knownBad + {h},
                            verifying := Untagged(s.verifying, h), jobs := s.jobs - {w}));
  }

  /** The first slot with a job's tag is its own. */
  lemma FirstIsOwn(s: State, w: Block)
    requires Settled(s) && w in s.jobs && s.verifying != [] && s.verifying[0].Tag() == w.Hash()
    ensures s.verifying[0] == Pending(w)
  {
    hide Pipeline, Anchored, Subseq, UniqueHashes, Waiting;
    PendingSlots(s, w);
    assert s.verifying[0] in s.verifying;
  }

  lemma FinishSettled(s: State, w: Block)
    requires Settled(s) && w in s.jobs
    ensures Settled(Finish(s, w))
  {
    hide Pipeline, Anchored, Subseq, UniqueHashes, Waiting, DrainVerified, Replaced;
    PendingSlots(s, w);
    if s.verifying != [] && s.verifying[0].Tag() == w.Hash() {
      FirstIsOwn(s, w);
      FirstFinished(s, w);
    } else if Pending(w) in s.verifying {
      LaterFinished(s, w);
    } else {
      forall e | e in s.verifying ensures e.Tag() != w.Hash() {}
      ReplacedFirst(s.verifying, w.Hash(), Done(w), |s.verifying|);
      JobGone(s, w);
    }
  }

  lemma JobGone(s: State, w: Block)
    requires Settled(s) && w in s.jobs && Pending(w) !in s.verifying
    ensures Settled(s.(jobs := s.jobs - {w}))
  {
    var t := s.(jobs := s.jobs - {w});
    assert Pipeline(t) == Pipeline(s);
    hide Pipeline, Anchored, Subseq, UniqueHashes, Waiting;
    SameLineSettled(s, t);
  }

  /** The first slot's verifier is back: the state before the slots behind it are drained. */
  lemma FirstMoved(s: State, w: Block)
    requires Settled(s) && w in s.jobs && s.verifying != [] && s.verifying[0] == Pending(w)
    ensures var h, u := w.Hash(), s.(verifying := s.verifying[1..], jobs := s.jobs - {w});
            Settled(if w.parent in s.knownBad then u.(ready := u.ready - {h}, knownBad := u.knownBad + {h})
                    else u.(verified := u.verified + [Done(w)]))
  {
    hide Pipeline, Anchored, Subseq, UniqueHashes, Waiting, Blocks, Hashes, Without;
    var h, rest, jobs := w.Hash(), s.verifying[1..], s.jobs - {w};
    PendingSlots(s, w);
    VerifyingUnique(s);
    FirstSlot(s.verifying);
    InLaneHash(s, Verifying, Pending(w));
    if w.parent in s.knownBad {
      TurnsBad(s, h, rest, jobs);
    } else {
      FrontMoves(s, jobs);
      SameLineSettled(s, s.(verifying := rest, verified := s.verified + [Done(w)], jobs := jobs));
    }
  }

  lemma FirstFinished(s: State, w: Block)
    requires Settled(s) && w in s.jobs && s.verifying != [] && s.verifying[0] == Pending(w)
    ensures Settled(Finish(s, w))
  {
    hide Settled, DrainVerified;
    var h, u := w.Hash(), s.(verifying := s.verifying[1..], jobs := s.jobs - {w});
    FirstMoved(s, w);
    DrainVerifiedSettled(if w.parent in s.knownBad then u.(ready := u.ready - {h}, knownBad := u.knownBad + {h})
                         else u.(verified := u.verified + [Done(w)]));
  }

  lemma LaterFinished(s: State, w: Block)
    requires Settled(s) && w in s.jobs && Pending(w) in s.verifying && s.verifying[0].Tag() != w.Hash()
    ensures Settled(Finish(s, w))
  {
    hide Anchored, Subseq, UniqueHashes, Waiting, Disjoint, Pipeline;
    PendingSlots(s, w);
    var q := s.verifying;
    var k :| 0 <= k < |q| && q[k] == Pending(w);
    forall i | 0 <= i < k ensures q[i].Tag() != w.Hash() { assert q[i] in q; OnlySlot(s, w, i, k); }
    ReplacedFirst(q, w.Hash(), Done(w), k);
    var t := s.(verifying := q[k := Done(w)], jobs := s.jobs - {w});
    assert Blocks(t.verifying) == Blocks(q);
    PipelineSplit(s);
    PipelineSplit(t);
    ReplacedJobs(s, t, w, k);
    InLaneHash(s, Verifying, Pending(w));
    SameLineSettled(s, t);
  }

  lemma OnlySlot(s: State, w: Block, i: nat, k: nat)
    requires UniqueHashes(Pipeline(s)) && i < k < |s.verifying| && s.verifying[k] == Pending(w)
    ensures s.verifying[i].b.Hash() != w.Hash() && s.verifying[i].Tag() != w.Hash()
  {
    hide Pipeline;
    VerifyingUnique(s);
    assert Blocks(s.verifying)[i].Hash() != Blocks(s.verifying)[k].Hash();
  }

  lemma ReplacedJobs(s: State, t: State, w: Block, k: nat)
    requires Settled(s) && w in s.jobs && k < |s.verifying| && s.verifying[k] == Pending(w)
    requires t == s.(verifying := s.verifying[k := Done(w)], jobs := s.jobs - {w})
    ensures JobsMatch(t, Strays(s))
    ensures forall e :: e in t.verifying && e.Done? ==> e in s.verifying || e == Done(w)
  {
    hide Anchored, Subseq, Waiting, Disjoint, Pipeline;
    var q, r := s.verifying, t.verifying;
    forall v | v in t.jobs && Pending(v) in q ensures Pending(v) in r {
      var i :| 0 <= i < |q| && q[i] == Pending(v);
      assert r[i] == Pending(v);
    }
    forall e | e in r ensures e in q || e == Done(w) {
      var i :| 0 <= i < |r| && r[i] == e;
    }
    forall e | e in r && e.Pending? ensures e.b in t.jobs {
      var i :| 0 <= i < |r| && r[i] == e;
      assert i != k && e == q[i];
      if e.b == w { OtherSlot(s, i, k); }
    }
  }

  lemma OtherSlot(s: State, i: nat, k: nat)
    requires UniqueHashes(Pipeline(s)) && i < |s.verifying| && k < |s.verifying| && i != k
    ensures s.verifying[i].b != s.verifying[k].b
  {
    hide Pipeline;
    VerifyingUnique(s);
    assert Blocks(s.verifying)[i].Hash() != Blocks(s.verifying)[k].Hash();
  }

  // ----- imports and drains

  lemma AcceptDisjoint(s: State, b: Block, chain: set<Hash>)
    requires Disjoint(s) && b.Hash() !in s.ready + s.draining + s.unknownSet + s.knownBad + chain
    requires s.chain <= chain && chain !! s.ready + s.draining + s.unknownSet
    requires forall h :: h in chain && h in s.knownBad ==> h.UnclesHash?
    ensures Disjoint(Accept(s, b, chain))
  {
    hide Harvest, Pipeline;
    AcceptedFacts(s, b);
    AcceptPipeline(s, b, chain);
  }

  lemma AcceptLine(s: State, b: Block, chain: set<Hash>)
    requires Settled(s) && b.Hash() !in s.ready + s.unknownSet && s.chain <= chain
    requires b.parent in s.ready || b.parent in s.draining || b.parent in chain
    ensures InLine(Accept(s, b, chain)) && Hashes(Pipeline(Accept(s, b, chain))) <= Accept(s, b, chain).ready
    ensures Strays(Accept(s, b, chain)) == Strays(s)
  {
    hide Harvest, Pipeline, UniqueHashes, JobsMatch, Waiting;
    var t, p, added := Accept(s, b, chain), Pipeline(s), Accepted(s, b);
    AcceptedFacts(s, b);
    AcceptPipeline(s, b, chain);
    UniqueAppend(p, added);
    var roots := Roots(t) + Strays(t);
    assert Strays(t) == Strays(s);
    AnchoredMore(p, Roots(s) + Strays(s), roots);
    AcceptedAnchored(s, b, roots + Hashes(p));
    AnchoredAppend(p, added, roots);
    SubseqAppend(s.drained + p, s.enqueued, added);
    Assoc(s.drained, p, added);
  }

  lemma AcceptWaits(s: State, b: Block, chain: set<Hash>)
    requires Disjoint(s) && Waiting(s) && b.Hash() !in s.unknownSet
    ensures Waiting(Accept(s, b, chain))
  {
    hide Harvest, Pipeline, UniqueHashes;
    AcceptedFacts(s, b);
    AcceptPipeline(s, b, chain);
    HarvestPartition(s.unknown, [b.Hash()]);
  }

  lemma AcceptSettled(s: State, b: Block, chain: set<Hash>)
    requires Settled(s) && b.Hash() !in s.ready + s.draining + s.unknownSet + s.knownBad + chain
    requires s.chain <= chain && chain !! s.ready + s.draining + s.unknownSet
    requires forall h :: h in chain && h in s.knownBad ==> h.UnclesHash?
    requires b.parent in s.ready || b.parent in s.draining || b.parent in chain
    ensures Settled(Accept(s, b, chain))
  {
    AcceptDisjoint(s, b, chain);
    AcceptLine(s, b, chain);
    AcceptWaits(s, b, chain);
    hide InLine, Disjoint, Waiting, Harvest, Strays, Pipeline;
    assert JobsMatch(Accept(s, b, chain), Strays(s));
  }

  lemma UnknownSettled(s: State, b: Block)
    requires Settled(s) && b.Hash() !in s.ready + s.draining + s.unknownSet + s.knownBad + s.chain
    requires b.parent !in s.ready && b.parent !in s.draining && b.parent !in s.knownBad
    ensures Settled(s.(unknown := s.unknown + [b], unknownSet := s.unknownSet + {b.Hash()}))
  {
    hide Anchored, Subseq, JobsMatch;
    var t := s.(unknown := s.unknown + [b], unknownSet := s.unknownSet + {b.Hash()});
    HashesAppend(s.unknown, [b]);
    assert Hashes([b]) == {b.Hash()} by { assert b in [b]; }
    UniqueAppend(s.unknown, [b]);
    assert Pipeline(t) == Pipeline(s);
    LineStays(s, t);
    JobsStay(s, t);
  }

  lemma ImportSettled(m: Removal, s: State, b: Block, a: Answers)
    requires Settled(s) && Enabled(s, EImport(b, a))
    ensures Settled(Import(m, s, b, a).0)
  {
    hide InLine, JobsMatch, Waiting, DoneReady, UpdateBad, NoteReady;
    var (t, r) := Import(m, s, b, a);
    match r
    case BadChain =>
      NewMarkable(s, b.Hash());
      hide Settled;
      UpdateSettles(m, s, b.Hash());
    case UnknownParent => UnknownSettled(s, b);
    case Success =>
      AcceptSettled(s, b, if b.parent in s.ready || b.parent in s.draining then s.chain else s.chain + {b.parent});
    case _ =>
  }

  lemma NewMarkable(s: State, h: Hash)
    requires Settled(s) && h !in s.ready && h !in s.draining && h !in s.unknownSet && h !in s.chain
    ensures Purging(s) && Markable(s, h)
  {
    hide InLine, JobsMatch, Waiting, Disjoint;
  }

  lemma DrainSettled(s: State, max: nat)
    requires Settled(s)
    ensures Settled(Drain(s, max))
  {
    var t, batch := Drain(s, max), DrainBatch(s, max);
    var gone := Hashes(batch);
    DrainPipeline(s, max);
    hide UniqueHashes, Subseq, Pipeline;
    var q := Pipeline(t);
    assert Pipeline(s) == batch + q;
    HashesAppend(batch, q);
    UniqueParts(batch, q);
    assert Strays(t) == Strays(s);
    AnchoredParts(batch, q, Roots(s) + Strays(s));
    AnchoredMore(q, Roots(s) + Strays(s) + gone, Roots(t) + Strays(t));
    Assoc(s.drained, batch, q);
    hide Anchored;
    DrainedSlots(s, max, t);
  }

  /** Slots and jobs are untouched by a drain. */
  lemma DrainedSlots(s: State, max: nat, t: State)
    requires Settled(s) && t == Drain(s, max) && Strays(t) == Strays(s) && Hashes(DrainBatch(s, max)) <= s.ready
    ensures JobsMatch(t, Strays(t)) && DoneReady(t)
  {
    hide Anchored, Subseq, UniqueHashes, Strays, Waiting;
    forall e | e in t.verifying && e.Done? ensures e.b.Hash() in t.ready {
      if e.b.Hash() in Hashes(DrainBatch(s, max)) { StillQueued(s, max, e); }
    }
  }

  lemma StillQueued(s: State, max: nat, e: Entry)
    requires UniqueHashes(Pipeline(s)) && e in s.verifying
    ensures e.b.Hash() !in Hashes(DrainBatch(s, max))
  {
    hide UniqueHashes, Pipeline;
    var batch := DrainBatch(s, max);
    forall b | b in batch ensures b.Hash() != e.b.Hash() {
      var i :| 0 <= i < |batch| && batch[i] == b;
      var f := s.verified[i];
      assert f in s.verified && f.b == b;
      if b.Hash() == e.b.Hash() { OnePlace(s, Verified, f, Verifying, e); }
    }
  }

  lemma AfterDrainSettled(s: State, bad: seq<Hash>)
    requires Settled(s) && forall h :: h in bad ==> h in s.draining
    ensures Settled(AfterDrain(s, bad))
    ensures forall h :: h in bad ==> h in AfterDrain(s, bad).knownBad
  {
    hide UniqueHashes, Subseq;
    var t := AfterDrain(s, bad);
    assert Pipeline(t) == Pipeline(s);
    hide Pipeline;
    assert Roots(t) + Strays(t) == Roots(s) + Strays(s);
  }

  lemma DoneDrainSettled(m: Removal, s: State, bad: seq<Hash>)
    requires Settled(s) && Enabled(s, EDoneDrain(bad))
    ensures Settled(DoneDrain(m, s, bad))
  {
    hide Settled, UpdateAll;
    AfterDrainSettled(s, bad);
    ReportsSettle(m, AfterDrain(s, bad), bad);
  }

  // ----- what reports and bad chains take away

  /** By hash as well: exactly the blocks now bad have stopped waiting. */
  lemma WaitsByHash(s: State, t: State)
    requires Settled(t) && Culled(s, t)
    ensures forall b :: b in t.unknown <==> b in s.unknown && b.Hash() !in t.knownBad
  {
    hide InLine, JobsMatch, Waiting, DoneReady, UniqueHashes;
    forall b | b in t.unknown ensures b.Hash() !in t.knownBad { assert b.Hash() in Hashes(t.unknown); }
  }

  /** As coded, in every state of every run: the effect of `updateBad` on a newly bad block. */
  lemma UpdateExactAsCoded(m: Removal, s: State, h: Hash)
    requires Settled(s) && Markable(s, h) && h !in s.ready
    ensures var t := UpdateBad(m, s.(knownBad := s.knownBad + {h}), h);
            && Settled(t) && LeftExactly(s, t) && WaitsExactly(s, t)
            && (forall b :: b in t.unknown <==> b in s.unknown && b.Hash() !in t.knownBad)
  {
    hide Purging, Markable, UpdateBad, LeftExactly, Culled;
    var t := UpdateBad(m, s.(knownBad := s.knownBad + {h}), h);
    SettledDetached(s);
    UpdateBadExact(m, s, h, {});
    UpdateSettles(m, s, h);
    CulledMore(s, h, t);
    WaitsByHash(s, t);
  }

  lemma CulledMore(s: State, h: Hash, t: State)
    requires Culled(s.(knownBad := s.knownBad + {h}), t)
    ensures Culled(s, t)
  {
  }

  lemma SettledDetached(s: State)
    requires Settled(s)
    ensures Detached(s)
  {
    hide InLine, Disjoint, JobsMatch, DoneReady;
  }

  /** The effect of an import that turns out to extend a bad chain. */
  lemma BadChainExact(m: Removal, s: State, b: Block, a: Answers)
    requires Settled(s) && Enabled(s, EImport(b, a)) && Import(m, s, b, a).1 == BadChain
    ensures var t := Import(m, s, b, a).0;
            && Settled(t) && LeftExactly(s, t) && WaitsExactly(s, t)
            && (forall c :: c in t.unknown <==> c in s.unknown && c.Hash() !in t.knownBad)
  {
    hide Settled, Markable, UpdateBad, NoteReady, LeftExactly, WaitsExactly;
    NewMarkable(s, b.Hash());
    UpdateExactAsCoded(m, s, b.Hash());
  }

  /** The effect of the importer's reports. */
  lemma DoneDrainExact(m: Removal, s: State, bad: seq<Hash>)
    requires Settled(s) && Enabled(s, EDoneDrain(bad))
    ensures var t := DoneDrain(m, s, bad);
            && Settled(t) && WaitsExactly(s, t) && (bad != [] ==> LeftExactly(s, t))
            && (forall b :: b in t.unknown <==> b in s.unknown && b.Hash() !in t.knownBad)
  {
    hide Settled, UpdateAll, LeftExactly, Culled;
    var r := AfterDrain(s, bad);
    var t := UpdateAll(m, r, bad);
    DoneDrainSettled(m, s, bad);
    AfterDrainSettled(s, bad);
    SettledDetached(r);
    UpdateAllExact(m, r, bad, {});
    WaitsByHash(r, t);
    if bad != [] { SameLanes(s, r, t); }
  }

  lemma SameLanes(s: State, r: State, t: State)
    requires LeftExactly(r, t) && s.verified == r.verified && s.verifying == r.verifying && s.unverified == r.unverified
    ensures LeftExactly(s, t)
  {
    hide Keep;
    forall lane ensures LaneOf(s, lane) == LaneOf(r, lane) {}
  }

  // ----- runs

  lemma StepSettled(m: Removal, s: State, e: Event)
    requires Settled(s) && Enabled(s, e)
    ensures Settled(Step(m, s, e))
  {
    hide Settled;
    match e
    case EImport(b, a) => ImportSettled(m, s, b, a);
    case ETake => TakeSettled(s);
    case EFail(w) => FailSettled(s, w);
    case EFinish(w) => FinishSettled(s, w);
    case EDrain(max) => DrainSettled(s, max);
    case EDoneDrain(bad) => DoneDrainSettled(m, s, bad);
  }

  /** Any sequence of events that can happen. */
  ghost predicate AnyRun(m: Removal, s: State, es: seq<Event>, t: State)
    decreases |es|
  {
    if es == [] then s == t else Enabled(s, es[0]) && AnyRun(m, Step(m, s, es[0]), es[1..], t)
  }

  lemma {:induction false} AnyRunSettled(m: Removal, s: State, es: seq<Event>, t: State)
    requires Settled(s) && AnyRun(m, s, es, t)
    ensures Settled(t)
    decreases |es|
  {
    hide Settled;
    if es != [] {
      StepSettled(m, s, es[0]);
      AnyRunSettled(m, Step(m, s, es[0]), es[1..], t);
    }
  }

  /** As coded, over every run: distinct hashes in the queues, all of them ready; disjoint sets; the unknown
      set is the multimap's; arrival order; parents earlier, draining, in the chain, bad or stray; waiting
      blocks wait for nothing ready, draining or bad; every slot has its verifier and every verifier its
      slot unless its block is bad or stray. */
  lemma AllRunsSettle(m: Removal, es: seq<Event>, t: State)
    requires AnyRun(m, EmptyQueue, es, t)
    ensures Settled(t)
  {
    assert Pipeline(EmptyQueue) == [];
    assert Settled(EmptyQueue);
    AnyRunSettled(m, EmptyQueue, es, t);
  }

  lemma {:induction false} PartitioningRun(s: State, es: seq<Event>, t: State)
    requires AnyRun(Partitioning, s, es, t)
    ensures Run(Partitioning, s, es, t)
    decreases |es|
  {
    hide CleanEvent;
    if es != [] {
      PartitioningEventsAreClean(s, es[0]);
      PartitioningRun(Step(Partitioning, s, es[0]), es[1..], t);
    }
  }

  /** With a `removeIf` that returns what it removes, the full invariant holds over every run. */
  lemma PartitioningIsSafe(es: seq<Event>, t: State)
    requires AnyRun(Partitioning, EmptyQueue, es, t)
    ensures Inv(t)
  {
    hide Inv;
    PartitioningRun(EmptyQueue, es, t);
    RunsAreSafe(Partitioning, es, t);
  }

  /** With it, every batch a run hands to the importer is parents-first. */
  lemma PartitioningBatches(es: seq<Event>, t: State, max: nat)
    requires AnyRun(Partitioning, EmptyQueue, es, t)
    ensures Anchored(DrainBatch(t, max), t.chain) && UniqueHashes(DrainBatch(t, max))
  {
    hide Inv, Anchored, UniqueHashes;
    PartitioningIsSafe(es, t);
    BatchParentsFirst(t, max);
  }

  // ----- nothing is forgotten

  /** Every hash the queue has dealt with. */
  ghost function Known(s: State): set<Hash> {
    s.ready + s.draining + s.unknownSet + s.knownBad + s.chain
  }

  lemma MarkKnown(s: State, h: Hash)
    ensures Known(s) <= Known(MarkOne(s, h))
  {
    hide Harvest;
  }

  lemma {:induction false} MarkAllKnown(s: State, hs: seq<Hash>)
    ensures Known(s) <= Known(MarkAll(s, hs))
    decreases |hs|
  {
    hide MarkOne, Known;
    if hs != [] {
      MarkKnown(s, hs[0]);
      MarkAllKnown(MarkOne(s, hs[0]), hs[1..]);
    }
  }

  lemma PurgeKnown(m: Removal, s: State, lane: Lane)
    ensures Known(s) <= Known(Purge(m, s, lane))
  {
    hide MarkAll, Keep, Handed;
    var q := LaneOf(s, lane);
    var t := WithLane(s, lane, Keep(q, lane, s.knownBad));
    assert Known(t) == Known(s);
    MarkAllKnown(t, CellHashes(lane, Handed(m, q, lane, s.knownBad)));
  }

  lemma {:induction false} LoopKnown(m: Removal, s: State)
    ensures Known(s) <= Known(PurgeLoop(m, s))
    decreases |Pipeline(s)|
  {
    hide Purge, Known;
    RoundShrinks(m, s);
    PurgeKnown(m, s, Verified);
    PurgeKnown(m, Purge(m, s, Verified), Unverified);
    PurgeKnown(m, Purge(m, Purge(m, s, Verified), Unverified), Verifying);
    var t := PurgeRound(m, s);
    if |Pipeline(t)| < |Pipeline(s)| { LoopKnown(m, t); }
  }

  lemma UpdateKnown(m: Removal, s: State, h: Hash)
    ensures Known(s) <= Known(UpdateBad(m, s, h))
  {
    hide PurgeLoop, Harvest;
    LoopKnown(m, CollectUnknownBad(s, h));
  }

  lemma {:induction false} ReportsKnown(m: Removal, s: State, bad: seq<Hash>)
    ensures Known(s) <= Known(UpdateAll(m, s, bad))
    decreases |bad|
  {
    hide UpdateBad, Known;
    if bad != [] {
      UpdateKnown(m, s, bad[0]);
      ReportsKnown(m, UpdateBad(m, s, bad[0]), bad[1..]);
    }
  }

  lemma {:induction false} DrainVerifiedKnown(s: State)
    ensures Known(s) <= Known(DrainVerified(s))
    decreases |s.verifying|
  {
    if s.verifying != [] && s.verifying[0].Done? { DrainVerifiedKnown(DrainFront(s)); }
  }

  lemma StepKnown(m: Removal, s: State, e: Event)
    requires Enabled(s, e)
    ensures Known(s) <= Known(Step(m, s, e))
  {
    hide UpdateBad, UpdateAll, DrainVerified, Harvest;
    match e
    case EImport(b, a) => UpdateKnown(m, s.(knownBad := s.knownBad + {b.Hash()}), b.Hash());
    case ETake =>
    case EFail(w) =>
      DrainVerifiedKnown(s.(ready := s.ready - {w.Hash()}, knownBad := s.knownBad + {w.Hash()},
                            verifying := Untagged(s.verifying, w.Hash()), jobs := s.jobs - {w}));
    case EFinish(w) => FinishKnown(s, w);
    case EDrain(max) =>
    case EDoneDrain(bad) =>
      AfterDrainKnown(s, bad);
      ReportsKnown(m, AfterDrain(s, bad), bad);
  }

  lemma FinishKnown(s: State, w: Block)
    ensures Known(s) <= Known(Finish(s, w))
  {
    hide DrainVerified;
    var u := s.(jobs := s.jobs - {w}, verifying := if s.verifying == [] then [] else s.verifying[1..]);
    DrainVerifiedKnown(
      if w.parent in s.knownBad
      then u.(ready := u.ready - {w.Hash()}, knownBad := u.knownBad + {w.Hash()})
      else u.(verified := u.verified + [Done(w)]));
  }

  lemma AfterDrainKnown(s: State, bad: seq<Hash>)
    ensures Known(s) <= Known(AfterDrain(s, bad))
  {
  }

  /** As coded, over every run: a hash once ready, draining, waiting, bad or in the chain stays one of these. */
  lemma {:induction false} NothingIsForgotten(m: Removal, s: State, es: seq<Event>, t: State)
    requires AnyRun(m, s, es, t)
    ensures Known(s) <= Known(t)
    decreases |es|
  {
    hide Known;
    if es != [] {
      StepKnown(m, s, es[0]);
      NothingIsForgotten(m, Step(m, s, es[0]), es[1..], t);
    }
  }

  // ----- a verifier between two reports

  /** What is bad after clean reports is closed under children in the state before. */
  lemma ReportsClose(s: State, t: State)
    requires Purged(s, t) && NoBadParents(t) && Core(t, {})
    ensures ClosedOver(t.knownBad, s)
  {
    hide Anchored, Subseq, UniqueHashes, JobsMatch, Accounted, NoBadParent;
    WithoutMembers(Pipeline(s), t.knownBad);
    forall b | b in Pipeline(s) && b.parent in t.knownBad ensures b.Hash() in t.knownBad {
      if b.Hash() !in t.knownBad { GoodParent(t, b); }
    }
  }

  lemma GoodParent(t: State, b: Block)
    requires NoBadParents(t) && b in Pipeline(t)
    ensures b.parent !in t.knownBad
  {
    PipelineSplit(t);
    var lane := if b in Blocks(t.verified) then Verified else if b in Blocks(t.verifying) then Verifying
        else Unverified;
    InBlocks(LaneOf(t, lane), b);
    assert NoBadParent(LaneOf(t, lane), t.knownBad);
  }

  /** `doneDrain` gives up the lock of the verification queues between two reports. Where all removals are
      clean, a block taken by a verifier just then changes neither the line nor what is ready, waiting or bad. */
  lemma TakeMakesNoDifference(m: Removal, s: State, bad: seq<Hash>)
    requires bad != [] && s.unverified != [] && (forall h :: h in bad ==> h in s.knownBad)
    requires Core(s, {}) && ReportClean(m, s, bad) && ReportClean(m, Take(s), bad)
    ensures var t, u := UpdateAll(m, s, bad), UpdateAll(m, Take(s), bad);
            Pipeline(t) == Pipeline(u) && t.knownBad == u.knownBad && t.ready == u.ready && t.unknown == u.unknown
  {
    hide Core, UpdateAll, ReportClean, Pipeline, NoBadParents;
    var r := Take(s);
    var t, u := UpdateAll(m, s, bad), UpdateAll(m, r, bad);
    SameLine(s);
    TakeCore(s);
    UpdateAllExact(m, s, bad, u.knownBad);
    UpdateAllExact(m, r, bad, t.knownBad);
    ReportsClose(s, t);
    ReportsClose(r, u);
    assert t.knownBad == u.knownBad;
    CoreReady(t);
    CoreReady(u);
  }

  function TakeMany(s: State, n: nat): State
    decreases n
  {
    if n == 0 || s.unverified == [] then s else TakeMany(Take(s), n - 1)
  }

  /** The reports of a `doneDrain`, with some blocks taken by verifiers before each of them. */
  function UpdateTaking(m: Removal, s: State, bad: seq<Hash>, takes: seq<nat>): State
    requires |takes| == |bad|
    decreases |bad|
  {
    if bad == [] then s else UpdateTaking(m, UpdateBad(m, TakeMany(s, takes[0]), bad[0]), bad[1..], takes[1..])
  }

  lemma {:induction false} TakeManySettled(s: State, n: nat)
    requires Settled(s)
    ensures Settled(TakeMany(s, n)) && TakeMany(s, n).knownBad == s.knownBad
    decreases n
  {
    hide Settled;
    if n > 0 && s.unverified != [] {
      TakeSettled(s);
      TakeManySettled(Take(s), n - 1);
    }
  }

  /** As coded, and whatever verifiers take in between, the reports leave the queue settled. */
  lemma {:induction false} ReportsTakingSettle(m: Removal, s: State, bad: seq<Hash>, takes: seq<nat>)
    requires Settled(s) && |takes| == |bad| && forall h :: h in bad ==> h in s.knownBad
    ensures Settled(UpdateTaking(m, s, bad, takes))
    decreases |bad|
  {
    hide Settled, UpdateBad, TakeMany;
    if bad != [] {
      var r := TakeMany(s, takes[0]);
      TakeManySettled(s, takes[0]);
      ReportsSettle(m, r, [bad[0]]);
      assert [bad[0]][1..] == [];
      BadGrows(m, r, bad[0]);
      ReportsTakingSettle(m, UpdateBad(m, r, bad[0]), bad[1..], takes[1..]);
    }
  }
}
