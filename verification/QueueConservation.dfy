/** What becomes of a block the queue has taken in. It is queued, waiting, drained or known to be bad for
    ever after; as coded, it can also be a stray, and then it stays one unless it turns bad. */
module QueueConservation {
  import opened QueueState
  import opened QueueInvariant
  import opened QueueSafety
  import opened QueuePurge
  import opened QueueUpdateBad
  import opened QueueRuns
  import opened QueueAllRuns
  import opened QueueOrphans

  ghost predicate InLane(q: seq<Entry>, b: Block) {
    exists i :: 0 <= i < |q| && q[i].b == b
  }

  ghost predicate Queued(s: State, b: Block) {
    InLane(s.verified, b) || InLane(s.verifying, b) || InLane(s.unverified, b)
  }

  ghost predicate Followed(s: State, b: Block) {
    Queued(s, b) || b in s.unknown || b in s.drained || b.Hash() in s.knownBad
  }

  lemma LaneBlocks(q: seq<Entry>, b: Block)
    ensures InLane(q, b) <==> b in Blocks(q)
  {
    if i :| 0 <= i < |q| && q[i].b == b { assert Blocks(q)[i] == b; }
  }

  lemma QueuedIsPipeline(s: State, b: Block)
    ensures Queued(s, b) <==> b in Pipeline(s)
  {
    PipelineSplit(s);
    LaneBlocks(s.verified, b);
    LaneBlocks(s.verifying, b);
    LaneBlocks(s.unverified, b);
  }

  lemma LaneAppend(q: seq<Entry>, r: seq<Entry>, b: Block)
    ensures InLane(q + r, b) <==> InLane(q, b) || InLane(r, b)
  {
    BlocksAppend(q, r);
    LaneBlocks(q, b);
    LaneBlocks(r, b);
    LaneBlocks(q + r, b);
  }

  lemma LaneHead(q: seq<Entry>, b: Block)
    requires q != []
    ensures InLane(q, b) <==> q[0].b == b || InLane(q[1..], b)
  {
    LaneOne(q[0], b);
    LaneAppend([q[0]], q[1..], b);
    assert q == [q[0]] + q[1..];
  }

  lemma LaneOne(e: Entry, b: Block)
    ensures InLane([e], b) <==> e.b == b
  {
    assert [e][0] == e;
  }

  // ----- the events

  lemma {:induction false} DrainVerifiedFollows(s: State, b: Block)
    requires Followed(s, b)
    ensures Followed(DrainVerified(s), b)
    decreases |s.verifying|
  {
    if s.verifying != [] && s.verifying[0].Done? {
      var e := s.verifying[0];
      LaneHead(s.verifying, b);
      LaneAppend(s.verified, [e], b);
      LaneOne(e, b);
      var t := s.(verifying := s.verifying[1..]);
      DrainVerifiedFollows(
        if e.b.parent in s.knownBad
        then t.(ready := t.ready - {e.b.Hash()}, knownBad := t.knownBad + {e.b.Hash()})
        else t.(verified := t.verified + [e]), b);
    }
  }

  /** The slots whose parent is not in `bad`, in order. */
  function Sieve(q: seq<Entry>, bad: set<Hash>): seq<Entry> {
    if q == [] then [] else (if q[0].b.parent in bad then [] else [q[0]]) + Sieve(q[1..], bad)
  }

  /** The hashes of the slots whose parent is in `bad`. */
  ghost function Condemned(q: seq<Entry>, bad: set<Hash>): set<Hash> {
    if q == [] then {} else (if q[0].b.parent in bad then {q[0].b.Hash()} else {}) + Condemned(q[1..], bad)
  }

  /** `drainVerified` took the first `k` slots. */
  ghost predicate Taken(s: State, t: State, k: nat) {
    && k <= |s.verifying| && t.verifying == s.verifying[k..] && t.unverified == s.unverified
    && (forall i :: 0 <= i < k ==> s.verifying[i].Done?)
    && (t.verifying != [] ==> t.verifying[0].Pending?)
    && s.knownBad <= t.knownBad
  }

  lemma TakenMore(s: State, t: State, j: nat)
    requires s.verifying != [] && s.verifying[0].Done? && Taken(DrainFront(s), t, j)
    ensures Taken(s, t, j + 1)
  {
    assert s.verifying[1..][j..] == s.verifying[j + 1..];
    forall i | 0 <= i < j + 1 ensures s.verifying[i].Done? {
      if i > 0 { assert s.verifying[i] == s.verifying[1..][i - 1]; }
    }
  }

  /** A verified block without a bad parent keeps it so. */
  lemma {:induction false} ParentStaysGood(s: State, e: Entry)
    requires Settled(s) && e in s.verified && e.b.parent !in s.knownBad
    ensures e.b.parent !in DrainVerified(s).knownBad
    decreases |s.verifying|
  {
    hide Settled;
    if s.verifying != [] && s.verifying[0].Done? {
      assert Blocks(s.verifying)[0] == s.verifying[0].b && Blocks(s.verifying)[0] in Blocks(s.verifying);
      NoVerifiedChild(s, s.verifying[0].b.Hash());
      FrontSettled(s);
      ParentStaysGood(DrainFront(s), e);
    }
  }

  /** The same for the block at the front when it is moved over. */
  lemma FrontParentStaysGood(s: State)
    requires Settled(s) && s.verifying != [] && s.verifying[0].Done? && s.verifying[0].b.parent !in s.knownBad
    ensures s.verifying[0].b.parent !in DrainVerified(s).knownBad
  {
    hide Settled;
    FrontSettled(s);
    ParentStaysGood(DrainFront(s), s.verifying[0]);
  }

  /** The finished slots at the front leave, up to the first unfinished one. Exactly those without a bad
      parent are appended to the verified queue, in order; the others, and nothing else, become bad. */
  lemma {:induction false} DrainVerifiedExact(s: State) returns (k: nat)
    requires Settled(s)
    ensures var t := DrainVerified(s);
            && Taken(s, t, k)
            && t.verified == s.verified + Sieve(s.verifying[..k], t.knownBad)
            && t.knownBad == s.knownBad + Condemned(s.verifying[..k], t.knownBad)
    decreases |s.verifying|
  {
    hide Settled, Taken;
    if s.verifying != [] && s.verifying[0].Done? {
      var u, t := DrainFront(s), DrainVerified(s);
      FrontSettled(s);
      if s.verifying[0].b.parent !in s.knownBad { FrontParentStaysGood(s); }
      var j := DrainVerifiedExact(u);
      k := j + 1;
      TakenMore(s, t, j);
      ExactStep(s, t, j);
    } else {
      k := 0;
      NothingTaken(s);
      assert s.verifying[..0] == [] && s.verified + [] == s.verified && s.knownBad + {} == s.knownBad;
    }
  }

  lemma NothingTaken(s: State)
    requires s.verifying == [] || s.verifying[0].Pending?
    ensures Taken(s, s, 0)
  {
    assert s.verifying[0..] == s.verifying;
  }

  lemma ExactStep(s: State, t: State, j: nat)
    requires s.verifying != [] && s.verifying[0].Done? && Taken(DrainFront(s), t, j)
    requires s.verifying[0].b.parent !in s.knownBad ==> s.verifying[0].b.parent !in t.knownBad
    requires t.verified == DrainFront(s).verified + Sieve(DrainFront(s).verifying[..j], t.knownBad)
    requires t.knownBad == DrainFront(s).knownBad + Condemned(DrainFront(s).verifying[..j], t.knownBad)
    ensures t.verified == s.verified + Sieve(s.verifying[..j + 1], t.knownBad)
    ensures t.knownBad == s.knownBad + Condemned(s.verifying[..j + 1], t.knownBad)
  {
    hide Sieve, Condemned;
    var e, rest := s.verifying[0], s.verifying[1..][..j];
    assert s.verifying[..j + 1] == [e] + rest;
    SieveHead(e, rest, t.knownBad);
    if e.b.parent !in s.knownBad {
      assert s.verified + [e] + Sieve(rest, t.knownBad) == s.verified + ([e] + Sieve(rest, t.knownBad));
    }
  }

  lemma SieveHead(e: Entry, rest: seq<Entry>, bad: set<Hash>)
    ensures Sieve([e] + rest, bad) == if e.b.parent in bad then Sieve(rest, bad) else [e] + Sieve(rest, bad)
    ensures Condemned([e] + rest, bad) ==
            if e.b.parent in bad then {e.b.Hash()} + Condemned(rest, bad) else Condemned(rest, bad)
  {
    assert ([e] + rest)[1..] == rest;
  }

  lemma TakeFollows(s: State, b: Block)
    requires s.unverified != [] && Followed(s, b)
    ensures Followed(Take(s), b)
  {
    var e := s.unverified[0];
    LaneHead(s.unverified, b);
    LaneAppend(s.verifying, [Pending(e.b)], b);
    LaneOne(Pending(e.b), b);
  }

  lemma {:induction false} UntaggedFollows(q: seq<Entry>, h: Hash, b: Block)
    requires h.HeaderHash? && InLane(q, b)
    ensures InLane(Untagged(q, h), b) || b.Hash() == h
    decreases |q|
  {
    var p, l := q[..|q|-1], q[|q|-1];
    assert q == p + [l];
    LaneAppend(p, [l], b);
    LaneOne(l, b);
    LaneAppend(Untagged(p, h), if l.Tag() == h then [] else [l], b);
    if InLane(p, b) { UntaggedFollows(p, h, b); }
  }

  lemma FailFollows(s: State, w: Block, b: Block)
    requires Followed(s, b)
    ensures Followed(Fail(s, w), b)
  {
    hide DrainVerified;
    if InLane(s.verifying, b) { UntaggedFollows(s.verifying, w.Hash(), b); }
    DrainVerifiedFollows(s.(ready := s.ready - {w.Hash()}, knownBad := s.knownBad + {w.Hash()},
                            verifying := Untagged(s.verifying, w.Hash()), jobs := s.jobs - {w}), b);
  }

  lemma {:induction false} ReplacedFollows(q: seq<Entry>, h: Hash, w: Block, b: Block)
    requires InLane(q, b) && forall e :: e in q && e.Tag() == h ==> e.b == w
    ensures InLane(Replaced(q, h, Done(w)), b)
    decreases |q|
  {
    LaneHead(q, b);
    if q[0].Tag() == h {
      LaneOne(Done(w), b);
      LaneAppend([Done(w)], q[1..], b);
    } else {
      LaneOne(q[0], b);
      LaneAppend([q[0]], Replaced(q[1..], h, Done(w)), b);
      if q[0].b != b { ReplacedFollows(q[1..], h, w, b); }
    }
  }

  /** A slot tagged with the hash of a job is that job's. */
  lemma TaggedSlots(s: State, w: Block)
    requires Settled(s) && w in s.jobs
    ensures forall e :: e in s.verifying && e.Tag() == w.Hash() ==> e.b == w
  {
    hide Settled;
    PendingSlots(s, w);
  }

  lemma FinishFollows(s: State, w: Block, b: Block)
    requires Settled(s) && w in s.jobs && Followed(s, b)
    ensures Followed(Finish(s, w), b)
  {
    hide Settled, DrainVerified, Replaced;
    TaggedSlots(s, w);
    var t := s.(jobs := s.jobs - {w});
    if s.verifying != [] && s.verifying[0].Tag() == w.Hash() {
      assert s.verifying[0] in s.verifying;
      LaneHead(s.verifying, b);
      LaneAppend(s.verified, [Done(w)], b);
      LaneOne(Done(w), b);
      var u := t.(verifying := s.verifying[1..]);
      DrainVerifiedFollows(
        if w.parent in s.knownBad
        then u.(ready := u.ready - {w.Hash()}, knownBad := u.knownBad + {w.Hash()})
        else u.(verified := u.verified + [Done(w)]), b);
    } else if InLane(s.verifying, b) {
      ReplacedFollows(s.verifying, w.Hash(), w, b);
    }
  }

  lemma DrainFollows(s: State, max: nat, b: Block)
    requires Followed(s, b)
    ensures Followed(Drain(s, max), b)
  {
    var n := |DrainBatch(s, max)|;
    assert s.verified == s.verified[..n] + s.verified[n..];
    LaneAppend(s.verified[..n], s.verified[n..], b);
    LaneBlocks(s.verified[..n], b);
    assert DrainBatch(s, max) == Blocks(s.verified[..n]);
  }

  lemma {:induction false} LoopKeepsHistory(m: Removal, s: State)
    ensures PurgeLoop(m, s).drained == s.drained
    decreases |Pipeline(s)|
  {
    RoundShrinks(m, s);
    RoundKeepsHistory(m, s);
    var t := PurgeRound(m, s);
    if |Pipeline(t)| < |Pipeline(s)| { LoopKeepsHistory(m, t); }
  }

  lemma RoundKeepsHistory(m: Removal, s: State)
    ensures PurgeRound(m, s).drained == s.drained
  {
    hide Purge;
    PurgeKeepsHistory(m, s, Verified);
    PurgeKeepsHistory(m, Purge(m, s, Verified), Unverified);
    PurgeKeepsHistory(m, Purge(m, Purge(m, s, Verified), Unverified), Verifying);
  }

  lemma PurgeKeepsHistory(m: Removal, s: State, lane: Lane)
    ensures Purge(m, s, lane).drained == s.drained
  {
    var q := LaneOf(s, lane);
    MarkAllKeepsLanes(WithLane(s, lane, Keep(q, lane, s.knownBad)), CellHashes(lane, Handed(m, q, lane, s.knownBad)));
  }

  lemma UpdateKeepsHistory(m: Removal, s: State, h: Hash)
    ensures UpdateBad(m, s, h).drained == s.drained
  {
    LoopKeepsHistory(m, CollectUnknownBad(s, h));
  }

  lemma {:induction false} ReportsKeepHistory(m: Removal, s: State, bad: seq<Hash>)
    ensures UpdateAll(m, s, bad).drained == s.drained
    decreases |bad|
  {
    hide UpdateBad;
    if bad != [] {
      UpdateKeepsHistory(m, s, bad[0]);
      ReportsKeepHistory(m, UpdateBad(m, s, bad[0]), bad[1..]);
    }
  }

  lemma AcceptFollows(s: State, c: Block, chain: set<Hash>, b: Block)
    requires Disjoint(s) && c.Hash() !in s.unknownSet && (Followed(s, b) || b == c)
    ensures Followed(Accept(s, c, chain), b)
  {
    hide UniqueHashes, Harvest, Pipeline;
    var t := Accept(s, c, chain);
    AcceptPipeline(s, c, chain);
    HarvestPartition(s.unknown, [c.Hash()]);
    QueuedIsPipeline(s, b);
    QueuedIsPipeline(t, b);
    assert b in Accepted(s, c) <==> b == c || b in Harvest(s.unknown, [c.Hash()]).1;
  }

  lemma UnknownFollows(s: State, c: Block, b: Block)
    requires Followed(s, b) || b == c
    ensures Followed(s.(unknown := s.unknown + [c], unknownSet := s.unknownSet + {c.Hash()}), b)
  {
    hide Queued;
    var t := s.(unknown := s.unknown + [c], unknownSet := s.unknownSet + {c.Hash()});
    assert Queued(t, b) == Queued(s, b) by { QueuedIsPipeline(s, b); QueuedIsPipeline(t, b); }
  }

  // ----- strays

  /** Followed, or ready without standing in any queue. */
  ghost predicate Traced(s: State, b: Block) {
    Followed(s, b) || b.Hash() in Strays(s)
  }

  /** Only queued hashes leave the ready set without turning bad, and no ready hash comes back into the line. */
  ghost predicate Advances(s: State, t: State) {
    && s.knownBad <= t.knownBad
    && (forall h :: h in s.ready ==> h in t.ready || h in t.knownBad || h in Hashes(Pipeline(s)))
    && (forall h :: h in Hashes(Pipeline(t)) ==> h in Hashes(Pipeline(s)) || h !in s.ready)
  }

  /** Nothing new stands in the line, and what is no longer ready is bad. */
  ghost predicate Shrinks(s: State, t: State) {
    && s.knownBad <= t.knownBad && s.ready <= t.ready + t.knownBad
    && Hashes(Pipeline(t)) <= Hashes(Pipeline(s))
  }

  lemma StrayStays(s: State, t: State, h: Hash)
    requires Advances(s, t) && h in Strays(s)
    ensures h in Strays(t) || h in t.knownBad
  {
    hide Hashes, Pipeline;
  }

  lemma ShrinksAdvances(s: State, t: State)
    requires Shrinks(s, t)
    ensures Advances(s, t)
  {
    hide Hashes, Pipeline;
  }

  lemma HashesWithin(a: seq<Block>, b: seq<Block>)
    requires forall x :: x in a ==> x in b
    ensures Hashes(a) <= Hashes(b)
  {
  }

  lemma FrontShrinks(s: State)
    requires s.verifying != []
    ensures Shrinks(s, DrainFront(s))
  {
    hide Pipeline, Hashes;
    var t := DrainFront(s);
    PipelineSplit(s);
    PipelineSplit(t);
    assert Blocks(s.verifying) == [s.verifying[0].b] + Blocks(s.verifying[1..]);
    BlocksAppend(s.verified, [s.verifying[0]]);
    HashesWithin(Pipeline(t), Pipeline(s));
  }

  lemma {:induction false} DrainShrinks(s: State)
    ensures Shrinks(s, DrainVerified(s))
    decreases |s.verifying|
  {
    hide Pipeline, Hashes;
    if s.verifying != [] && s.verifying[0].Done? {
      FrontShrinks(s);
      DrainShrinks(DrainFront(s));
    }
  }

  lemma {:induction false} UntaggedWithin(q: seq<Entry>, h: Hash)
    ensures forall e :: e in Untagged(q, h) ==> e in q
    decreases |q|
  {
    if q != [] { UntaggedWithin(q[..|q| - 1], h); }
  }

  lemma LaneWithin(s: State, t: State)
    requires forall lane, e :: e in LaneOf(t, lane) ==> InLane(LaneOf(s, lane), e.b)
    ensures forall b :: b in Pipeline(t) ==> b in Pipeline(s)
    ensures Hashes(Pipeline(t)) <= Hashes(Pipeline(s))
  {
    forall b | b in Pipeline(t) ensures b in Pipeline(s) {
      QueuedIsPipeline(t, b);
      QueuedIsPipeline(s, b);
      assert LaneOf(t, Verified) == t.verified && LaneOf(t, Verifying) == t.verifying;
      assert LaneOf(t, Unverified) == t.unverified && LaneOf(s, Verified) == s.verified;
      assert LaneOf(s, Verifying) == s.verifying && LaneOf(s, Unverified) == s.unverified;
    }
    HashesWithin(Pipeline(t), Pipeline(s));
  }

  lemma FailShrinks(s: State, w: Block)
    ensures Shrinks(s, Fail(s, w))
  {
    hide DrainVerified, Pipeline, Hashes, Untagged;
    var h := w.Hash();
    var t := s.(ready := s.ready - {h}, knownBad := s.knownBad + {h},
                verifying := Untagged(s.verifying, h), jobs := s.jobs - {w});
    UntaggedWithin(s.verifying, h);
    LaneWithin(s, t);
    DrainShrinks(t);
  }

  lemma {:induction false} ReplacedBlocks(q: seq<Entry>, h: Hash, w: Block)
    requires forall e :: e in q && e.Tag() == h ==> e.b == w
    ensures Blocks(Replaced(q, h, Done(w))) == Blocks(q)
    decreases |q|
  {
    if q != [] && q[0].Tag() != h { ReplacedBlocks(q[1..], h, w); }
  }

  lemma FinishShrinks(s: State, w: Block)
    requires Settled(s) && w in s.jobs
    ensures Shrinks(s, Finish(s, w))
  {
    hide Settled, DrainVerified, Pipeline, Hashes, Replaced, Blocks;
    TaggedSlots(s, w);
    var t := s.(jobs := s.jobs - {w});
    if s.verifying != [] && s.verifying[0].Tag() == w.Hash() {
      assert s.verifying[0] in s.verifying;
      var u := t.(verifying := s.verifying[1..]);
      var v := if w.parent in s.knownBad then u.(ready := u.ready - {w.Hash()}, knownBad := u.knownBad + {w.Hash()})
               else u.(verified := u.verified + [Done(w)]);
      FirstShrinks(s, v, w);
      DrainShrinks(v);
    } else {
      ReplacedBlocks(s.verifying, w.Hash(), w);
      PipelineSplit(s);
      PipelineSplit(t.(verifying := Replaced(s.verifying, w.Hash(), Done(w))));
    }
  }

  lemma FirstShrinks(s: State, v: State, w: Block)
    requires s.verifying != [] && s.verifying[0].b == w
    requires v.verifying == s.verifying[1..] && v.unverified == s.unverified
    requires v.verified == s.verified || v.verified == s.verified + [Done(w)]
    ensures Hashes(Pipeline(v)) <= Hashes(Pipeline(s))
  {
    hide Pipeline, Hashes;
    PipelineSplit(s);
    PipelineSplit(v);
    assert Blocks(s.verifying) == [w] + Blocks(s.verifying[1..]);
    BlocksAppend(s.verified, [Done(w)]);
    HashesWithin(Pipeline(v), Pipeline(s));
  }

  lemma DrainAdvances(s: State, max: nat)
    ensures Advances(s, Drain(s, max))
  {
    var batch := DrainBatch(s, max);
    DrainPipeline(s, max);
    hide Pipeline, Hashes, DrainBatch;
    HashesAppend(batch, Pipeline(Drain(s, max)));
  }

  lemma AcceptAdvances(s: State, c: Block, chain: set<Hash>)
    requires Disjoint(s) && c.Hash() !in s.unknownSet && c.Hash() !in s.ready
    ensures Advances(s, Accept(s, c, chain))
  {
    hide UniqueHashes, Harvest, Pipeline, Hashes;
    AcceptPipeline(s, c, chain);
    AcceptedFacts(s, c);
  }

  /** A purge: what it takes out of the queues is bad or a stray. */
  lemma PurgeTraces(s: State, t: State, b: Block)
    requires Settled(s) && LeftExactly(s, t) && Culled(s, t) && t.drained == s.drained && Traced(s, b)
    ensures Traced(t, b)
  {
    hide Keep, Pipeline, Disjoint, JobsMatch, Waiting, DoneReady, Anchored, Subseq, UniqueHashes;
    PurgeWithin(s, t);
    QueuedIsPipeline(s, b);
    QueuedIsPipeline(t, b);
    if b in Pipeline(s) && b !in Pipeline(t) { GoneFromLine(s, t, b); }
  }

  lemma PurgeWithin(s: State, t: State)
    requires LeftExactly(s, t)
    ensures forall b :: b in Pipeline(t) ==> b in Pipeline(s)
    ensures Hashes(Pipeline(t)) <= Hashes(Pipeline(s))
  {
    hide Keep, Pipeline, Hashes;
    forall lane, e | e in LaneOf(t, lane) ensures InLane(LaneOf(s, lane), e.b) {
      KeepDropMembers(LaneOf(s, lane), lane, t.knownBad);
      var i :| 0 <= i < |LaneOf(s, lane)| && LaneOf(s, lane)[i] == e;
    }
    LaneWithin(s, t);
  }

  lemma GoneFromLine(s: State, t: State, b: Block)
    requires UniqueHashes(Pipeline(s)) && b in Pipeline(s) && b !in Pipeline(t)
    requires forall c :: c in Pipeline(t) ==> c in Pipeline(s)
    ensures b.Hash() !in Hashes(Pipeline(t)) && b.Hash() in Hashes(Pipeline(s))
  {
    hide Pipeline;
    forall c | c in Pipeline(t) ensures c.Hash() != b.Hash() {
      var i :| 0 <= i < |Pipeline(s)| && Pipeline(s)[i] == b;
      var j :| 0 <= j < |Pipeline(s)| && Pipeline(s)[j] == c;
    }
  }

  lemma PurgeShrinksLine(s: State, t: State)
    requires LeftExactly(s, t) && Culled(s, t)
    ensures Shrinks(s, t)
  {
    hide LeftExactly, Pipeline, Hashes;
    PurgeWithin(s, t);
  }

  // ----- every event, as coded

  lemma BadChainTraces(m: Removal, s: State, c: Block, a: Answers, b: Block)
    requires Settled(s) && Enabled(s, EImport(c, a)) && Import(m, s, c, a).1 == BadChain
    ensures var t := Import(m, s, c, a).0;
            Advances(s, t) && c.Hash() in t.knownBad && (Traced(s, b) ==> Traced(t, b))
  {
    hide Settled, UpdateBad, NoteReady, LeftExactly, Culled, Traced, Shrinks, Advances;
    var h := c.Hash();
    var s' := s.(knownBad := s.knownBad + {h});
    UpdateBadExact(m, s, h, {});
    UpdateKeepsHistory(m, s', h);
    BadGrows(m, s', h);
    CulledMore(s, h, UpdateBad(m, s', h));
    PurgeShrinksLine(s, UpdateBad(m, s', h));
    ShrinksAdvances(s, UpdateBad(m, s', h));
    if Traced(s, b) { PurgeTraces(s, UpdateBad(m, s', h), b); }
  }

  lemma AfterDrainTraces(s: State, bad: seq<Hash>, b: Block)
    ensures var r := AfterDrain(s, bad);
            && r.ready == s.ready && Pipeline(r) == Pipeline(s) && s.knownBad <= r.knownBad && Strays(r) == Strays(s)
            && Advances(s, r) && (Traced(s, b) ==> Traced(r, b))
  {
    assert Pipeline(AfterDrain(s, bad)) == Pipeline(s);
  }

  lemma AdvancesSame(s: State, r: State, t: State)
    requires r.ready == s.ready && Pipeline(r) == Pipeline(s) && s.knownBad <= r.knownBad && Advances(r, t)
    ensures Advances(s, t)
  {
    hide Pipeline, Hashes;
  }

  lemma DoneDrainTraces(m: Removal, s: State, bad: seq<Hash>, b: Block)
    requires Settled(s) && Enabled(s, EDoneDrain(bad))
    ensures var t := DoneDrain(m, s, bad); Advances(s, t) && (Traced(s, b) ==> Traced(t, b))
  {
    hide Settled, LeftExactly, Culled, Shrinks, Pipeline, Traced, Advances, Strays;
    var r := AfterDrain(s, bad);
    AfterDrainTraces(s, bad, b);
    if bad != [] {
      hide UpdateAll;
      var t := UpdateAll(m, r, bad);
      AfterDrainSettled(s, bad);
      SettledDetached(r);
      UpdateAllExact(m, r, bad, {});
      ReportsKeepHistory(m, r, bad);
      PurgeShrinksLine(r, t);
      ShrinksAdvances(r, t);
      AdvancesSame(s, r, t);
      if Traced(s, b) { PurgeTraces(r, t, b); }
    }
  }

  /** An accepted block is traced from then on, and so is everything that was. */
  lemma ImportTraces(m: Removal, s: State, c: Block, a: Answers, b: Block)
    requires Settled(s) && Enabled(s, EImport(c, a))
    ensures var (t, r) := Import(m, s, c, a);
            && Advances(s, t)
            && (Traced(s, b) || (b == c && r in {Success, UnknownParent, BadChain}) ==> Traced(t, b))
  {
    hide InLine, JobsMatch, Waiting, DoneReady, UniqueHashes, UpdateBad, NoteReady, Pipeline, Followed, Hashes;
    match Import(m, s, c, a).1
    case Success =>
      var chain := if c.parent in s.ready || c.parent in s.draining then s.chain else s.chain + {c.parent};
      AcceptAdvances(s, c, chain);
      if Followed(s, b) || b == c {
        AcceptFollows(s, c, chain, b);
      } else if b.Hash() in Strays(s) {
        StrayStaysTraced(s, Accept(s, c, chain), b);
      }
    case UnknownParent =>
      var t := s.(unknown := s.unknown + [c], unknownSet := s.unknownSet + {c.Hash()});
      SamePlaces(s, t);
      if Followed(s, b) || b == c { UnknownFollows(s, c, b); }
    case BadChain =>
      BadChainTraces(m, s, c, a, b);
      if b == c { BadIsFollowed(Import(m, s, c, a).0, b); }
    case _ =>
      SamePlaces(s, s);
  }

  lemma BadIsFollowed(s: State, b: Block)
    requires b.Hash() in s.knownBad
    ensures Followed(s, b)
  {
  }

  lemma SamePlaces(s: State, t: State)
    requires t == s.(unknown := t.unknown, unknownSet := t.unknownSet)
    ensures Strays(t) == Strays(s) && Advances(s, t)
  {
    assert Pipeline(t) == Pipeline(s);
  }

  lemma StrayStaysTraced(s: State, t: State, b: Block)
    requires Advances(s, t) && b.Hash() in Strays(s)
    ensures Traced(t, b)
  {
    hide Advances, Hashes, Pipeline;
    StrayStays(s, t, b.Hash());
  }

  /** What is followed stays followed through an event of the verifiers or a drain. */
  lemma QuietEventTraces(m: Removal, s: State, e: Event, b: Block)
    requires Settled(s) && Enabled(s, e) && !e.EImport? && !e.EDoneDrain?
    ensures Advances(s, Step(m, s, e)) && (Followed(s, b) ==> Followed(Step(m, s, e), b))
  {
    hide Settled, Followed, Advances, Shrinks, DrainVerified;
    match e
    case ETake =>
      if Followed(s, b) { TakeFollows(s, b); }
      TakeAdvances(s);
    case EFail(w) =>
      if Followed(s, b) { FailFollows(s, w, b); }
      FailShrinks(s, w);
      ShrinksAdvances(s, Fail(s, w));
    case EFinish(w) =>
      if Followed(s, b) { FinishFollows(s, w, b); }
      FinishShrinks(s, w);
      ShrinksAdvances(s, Finish(s, w));
    case EDrain(max) =>
      if Followed(s, b) { DrainFollows(s, max, b); }
      DrainAdvances(s, max);
  }

  lemma TakeAdvances(s: State)
    requires s.unverified != []
    ensures Advances(s, Take(s))
  {
    SameLine(s);
  }

  lemma StepTraces(m: Removal, s: State, e: Event, b: Block)
    requires Settled(s) && Enabled(s, e)
    ensures Advances(s, Step(m, s, e)) && (Traced(s, b) ==> Traced(Step(m, s, e), b))
  {
    hide Settled, Followed, Advances, Import, DoneDrain;
    match e
    case EImport(c, a) => ImportTraces(m, s, c, a, b);
    case EDoneDrain(bad) => DoneDrainTraces(m, s, bad, b);
    case _ =>
      QuietEventTraces(m, s, e, b);
      if b.Hash() in Strays(s) { StrayStaysTraced(s, Step(m, s, e), b); }
  }

  /** As coded, over every run: whatever was queued, waiting, drained or bad still is one of these or a stray.
      Where the invariant holds there are no strays. */
  lemma {:induction false} NothingIsLost(m: Removal, s: State, es: seq<Event>, t: State, b: Block)
    requires Settled(s) && AnyRun(m, s, es, t) && Traced(s, b)
    ensures Traced(t, b) && (Inv(t) ==> Followed(t, b))
    decreases |es|
  {
    hide Settled, Traced, Inv, Followed;
    if es == [] {
      if Inv(t) { NoStrays(t, b); }
    } else {
      StepSettled(m, s, es[0]);
      StepTraces(m, s, es[0], b);
      NothingIsLost(m, Step(m, s, es[0]), es[1..], t, b);
    }
  }

  lemma NoStrays(s: State, b: Block)
    requires Inv(s) && Traced(s, b)
    ensures Followed(s, b)
  {
    hide Followed, Anchored, Subseq, JobsMatch, Waiting, Pipeline, Hashes;
    assert Strays(s) == {};
  }

  /** A stray stays a stray until it turns bad, and it is never taken in again. */
  lemma {:induction false} StraysForever(m: Removal, s: State, es: seq<Event>, t: State, c: Block, a: Answers)
    requires Settled(s) && AnyRun(m, s, es, t) && (c.Hash() in Strays(s) || c.Hash() in s.knownBad)
    ensures c.Hash() in Strays(t) || c.Hash() in t.knownBad
    ensures Import(m, t, c, a) == (t, AlreadyKnown)
    decreases |es|
  {
    hide Settled, Traced;
    if es != [] {
      var u := Step(m, s, es[0]);
      StepSettled(m, s, es[0]);
      StepTraces(m, s, es[0], c);
      if c.Hash() in Strays(s) { StrayStays(s, u, c.Hash()); }
      StraysForever(m, u, es[1..], t, c, a);
    }
  }
}
