/** Bad-block propagation: `updateBad` removes and marks exactly the descendants of bad blocks, as
    long as every `removeIf` it issues finds its victims at the end of the queue; otherwise it
    loses a ready block. */
module QueueUpdateBad {
  import opened QueueState
  import opened QueueInvariant
  import opened QueueSafety
  import opened QueuePurge

  /** Every removal of one round is clean. */
  ghost predicate RoundClean(m: Removal, s: State) {
    var s1 := Purge(m, s, Verified);
    var s2 := Purge(m, s1, Unverified);
    Clean(m, s, Verified) && Clean(m, s1, Unverified) && Clean(m, s2, Verifying)
  }

  /** Every removal of the whole loop is clean. With `Shifting` this asks that each `removeIf` is
      handed a queue whose doomed entries stand at its end. */
  ghost predicate LoopClean(m: Removal, s: State)
    decreases |Pipeline(s)|
  {
    RoundShrinks(m, s);
    var t := PurgeRound(m, s);
    RoundClean(m, s) && (|Pipeline(t)| < |Pipeline(s)| ==> LoopClean(m, t))
  }

  lemma {:induction false} PartitioningIsClean(s: State)
    ensures LoopClean(Partitioning, s)
    decreases |Pipeline(s)|
  {
    RoundShrinks(Partitioning, s);
    var t := PurgeRound(Partitioning, s);
    if |Pipeline(t)| < |Pipeline(s)| { PartitioningIsClean(t); }
  }

  /** `closed` contains every child, in the queues or waiting, of what it contains. */
  ghost predicate ClosedOver(closed: set<Hash>, s: State) {
    && (forall b :: b in Pipeline(s) && b.parent in closed ==> b.Hash() in closed)
    && (forall b :: b in s.unknown && b.parent in closed ==> b.Hash() in closed)
  }

  /** The relation between the state before and after purging: blocks only leave the queues, those
      that leave become bad, and nothing else changes. */
  ghost predicate Purged(s: State, t: State) {
    && s.knownBad <= t.knownBad
    && Pipeline(t) == Without(Pipeline(s), t.knownBad)
    && t.unknown == s.unknown && t.unknownSet == s.unknownSet
    && t.draining == s.draining && t.chain == s.chain && t.jobs == s.jobs
    && t.enqueued == s.enqueued && t.drained == s.drained
  }

  lemma {:induction false} WithoutTwice(q: seq<Block>, a: set<Hash>, b: set<Hash>)
    requires a <= b
    ensures Without(Without(q, a), b) == Without(q, b)
    decreases |q|
  {
    if q != [] {
      var p, l := q[..|q|-1], q[|q|-1];
      WithoutTwice(p, a, b);
      if l.Hash() in a {
        assert Without(q, a) == Without(p, a);
      } else {
        assert Without(q, a)[..|Without(q, a)|-1] == Without(p, a);
      }
    }
  }

  lemma {:induction false} WithoutSame(q: seq<Block>, a: set<Hash>, b: set<Hash>)
    requires Hashes(q) * a == Hashes(q) * b
    ensures Without(q, a) == Without(q, b)
    decreases |q|
  {
    if q != [] {
      var p, l := q[..|q|-1], q[|q|-1];
      assert q == p + [l];
      HashesAppend(p, [l]);
      assert l.Hash() in Hashes(q) && forall h :: h in Hashes(p) ==> h in Hashes(q);
      assert forall h :: h in Hashes(p) ==> (h in a <==> h in b) by {
        forall h | h in Hashes(p) ensures h in a <==> h in b {
          assert h in Hashes(q) * a <==> h in Hashes(q) * b;
        }
      }
      assert l.Hash() in Hashes(q) * a <==> l.Hash() in Hashes(q) * b;
      assert Hashes(p) * a == Hashes(p) * b;
      WithoutSame(p, a, b);
    }
  }

  lemma PurgedTrans(s: State, t: State, u: State)
    requires Purged(s, t) && Purged(t, u)
    ensures Purged(s, u)
  {
    WithoutTwice(Pipeline(s), t.knownBad, u.knownBad);
  }

  /** One clean removal: what it does, and that it marks nothing but children of bad blocks. */
  lemma PurgeStep(m: Removal, s: State, lane: Lane, closed: set<Hash>)
    requires Core(s, {}) && Clean(m, s, lane)
    ensures var t := Purge(m, s, lane);
            && Core(t, {}) && Purged(s, t)
            && (s.knownBad <= closed && ClosedOver(closed, s) ==> t.knownBad <= closed && ClosedOver(closed, t))
  {
    hide Core, Pipeline, Purge, Gone, ClosedOver;
    PurgeCore(m, s, lane);
    PurgePurges(m, s, lane);
    if s.knownBad <= closed && ClosedOver(closed, s) {
      GoneLeast(s, lane, closed);
      PurgedClosed(s, Purge(m, s, lane), closed);
    }
  }

  lemma PurgePurges(m: Removal, s: State, lane: Lane)
    requires Core(s, {}) && Clean(m, s, lane)
    ensures Purged(s, Purge(m, s, lane))
  {
    hide Anchored, Subseq, UniqueHashes, Waiting, JobsMatch, Purge, Keep, Pipeline, Hashes, Gone;
    var t, p := Purge(m, s, lane), Pipeline(s);
    var q := LaneOf(s, lane);
    var gone := Gone(q, lane, s.knownBad);
    PurgeCore(m, s, lane);
    PipelineWithout(s, lane);
    SamePipelineFields(WithLane(s, lane, Keep(q, lane, s.knownBad)), t);
    assert Hashes(p) * t.knownBad == Hashes(p) * gone;
    WithoutSame(p, t.knownBad, gone);
  }

  lemma SamePipelineFields(s: State, t: State)
    requires s.verified == t.verified && s.verifying == t.verifying && s.unverified == t.unverified
    ensures Pipeline(s) == Pipeline(t)
  {
  }

  lemma GoneLeast(s: State, lane: Lane, closed: set<Hash>)
    requires Core(s, {}) && s.knownBad <= closed && ClosedOver(closed, s)
    ensures Gone(LaneOf(s, lane), lane, s.knownBad) <= closed
  {
    var q := LaneOf(s, lane);
    var d := Drop(q, lane, s.knownBad);
    KeepDropMembers(q, lane, s.knownBad);
    PipelineSplit(s);
    forall b | b in Blocks(d) ensures b.Hash() in closed {
      InBlocks(d, b);
      var e :| e in d && e.b == b;
      InBlocks(q, b);
      assert b in Pipeline(s);
      assert b.Hash() in s.ready;
    }
  }

  lemma RoundStep(m: Removal, s: State, closed: set<Hash>)
    requires Core(s, {}) && RoundClean(m, s)
    ensures var t := PurgeRound(m, s);
            && Core(t, {}) && Purged(s, t)
            && (s.knownBad <= closed && ClosedOver(closed, s) ==> t.knownBad <= closed && ClosedOver(closed, t))
  {
    var s1 := Purge(m, s, Verified);
    var s2 := Purge(m, s1, Unverified);
    var s3 := Purge(m, s2, Verifying);
    PurgeStep(m, s, Verified, closed);
    PurgeStep(m, s1, Unverified, closed);
    PurgeStep(m, s2, Verifying, closed);
    PurgedTrans(s, s1, s2);
    PurgedTrans(s, s2, s3);
  }

  lemma {:induction false} LoopStep(m: Removal, s: State, closed: set<Hash>)
    requires Core(s, {}) && LoopClean(m, s)
    ensures var t := PurgeLoop(m, s);
            && Core(t, {}) && Purged(s, t)
            && NoBadParents(t)
            && (s.knownBad <= closed && ClosedOver(closed, s) ==> t.knownBad <= closed)
    decreases |Pipeline(s)|
  {
    RoundShrinks(m, s);
    RoundStep(m, s, closed);
    var t := PurgeRound(m, s);
    if |Pipeline(t)| < |Pipeline(s)| {
      LoopStep(m, t, closed);
      PurgedTrans(s, t, PurgeLoop(m, t));
    } else {
      QuietRound(m, s);
    }
  }

  // ----- the entry points

  /** Whether the `updateBad` an import or a report triggers is clean. */
  ghost predicate UpdateClean(m: Removal, s: State, h: Hash) {
    LoopClean(m, CollectUnknownBad(s, h))
  }

  /** Declaring a block that nothing refers to yet bad, and collecting its waiting descendants. */
  lemma CollectCore(s: State, h: Hash)
    requires Core(s, {}) && h.HeaderHash?
    requires h !in s.ready && h !in s.draining && h !in s.unknownSet && h !in s.chain
    ensures var s' := s.(knownBad := s.knownBad + {h});
            var t := CollectUnknownBad(s', h);
            && Core(t, {}) && Pipeline(t) == Pipeline(s) && s'.knownBad <= t.knownBad
            && (forall b :: b in t.unknown <==> b in s.unknown && b.Hash() !in t.knownBad)
  {
    var s' := s.(knownBad := s.knownBad + {h});
    var t := CollectUnknownBad(s', h);
    var (left, moved) := Harvest(s.unknown, [h]);
    HarvestPartition(s.unknown, [h]);
    HarvestClosed(s.unknown, [h]);
    UniqueParts(moved, left);
    assert Hashes(moved) <= s.unknownSet;
    assert t.unknownSet == Hashes(left);
    assert h in [h];
    assert Roots(s) + {} <= Roots(t) + {};
    assert Pipeline(t) == Pipeline(s);
  }

  lemma CollectNothing(s: State, h: Hash)
    requires Core(s, {}) && h in s.knownBad
    ensures CollectUnknownBad(s, h) == s
  {
    HarvestNothing(s.unknown, h);
    assert s.unknownSet - {} == s.unknownSet && s.knownBad + {} == s.knownBad;
  }

  /** A block hash that can be declared bad: nothing but the unknown multimap refers to it. */
  ghost predicate Declarable(s: State, h: Hash) {
    h.HeaderHash? && h !in s.ready && h !in s.draining && h !in s.unknownSet && h !in s.chain
  }

  /** Effect of `updateBad` on a freshly declared bad block. In every state no queued block has a bad
      parent afterwards, exactly the entries that the bad set now dooms have left the queues, and, if no
      block waited for a bad one, exactly the children of bad blocks have stopped waiting. Where the
      invariant held and every removal was clean, the bad set is the least one closed under children. */
  lemma UpdateBadExact(m: Removal, s: State, h: Hash, closed: set<Hash>)
    ensures var s' := s.(knownBad := s.knownBad + {h});
            var t := UpdateBad(m, s', h);
            && NoBadParents(t) && LeftExactly(s, t) && Culled(s', t)
            && (Detached(s) ==> Detached(t) && WaitsExactly(s, t))
            && (Core(s, {}) && Declarable(s, h) && UpdateClean(m, s', h) ==>
                  && Core(t, {})
                  && Pipeline(t) == Without(Pipeline(s), t.knownBad)
                  && (forall b :: b in t.unknown <==> b in s.unknown && b.Hash() !in t.knownBad)
                  && s'.knownBad <= t.knownBad
                  && (s'.knownBad <= closed && ClosedOver(closed, s) ==> t.knownBad <= closed))
  {
    hide Core, UniqueHashes, NoBadParents, LeftExactly, Culled, UpdateBad, UpdateClean, ClosedOver;
    var s' := s.(knownBad := s.knownBad + {h});
    UpdateLeavesNoBadParent(m, s', h);
    UpdateWaitsExactly(m, s', h);
    NewlyLeftExactly(m, s, h);
    if Core(s, {}) && Declarable(s, h) && UpdateClean(m, s', h) { CleanUpdate(m, s, h, closed); }
  }

  lemma CleanUpdate(m: Removal, s: State, h: Hash, closed: set<Hash>)
    requires Core(s, {}) && Declarable(s, h) && UpdateClean(m, s.(knownBad := s.knownBad + {h}), h)
    ensures var s' := s.(knownBad := s.knownBad + {h});
            var t := UpdateBad(m, s', h);
            && Core(t, {})
            && Pipeline(t) == Without(Pipeline(s), t.knownBad)
            && (forall b :: b in t.unknown <==> b in s.unknown && b.Hash() !in t.knownBad)
            && s'.knownBad <= t.knownBad
            && (s'.knownBad <= closed && ClosedOver(closed, s) ==> t.knownBad <= closed)
  {
    hide Core, UniqueHashes, NoBadParents, Harvest;
    var c := CollectUnknownBad(s.(knownBad := s.knownBad + {h}), h);
    CollectCore(s, h);
    LoopStep(m, c, closed);
    if s.knownBad + {h} <= closed && ClosedOver(closed, s) { CollectLeast(s, h, closed); }
    StillWaiting(PurgeLoop(m, c));
  }

  lemma NewlyLeftExactly(m: Removal, s: State, h: Hash)
    ensures LeftExactly(s, UpdateBad(m, s.(knownBad := s.knownBad + {h}), h))
  {
    hide UpdateBad, Keep;
    var s' := s.(knownBad := s.knownBad + {h});
    UpdateLeavesExactly(m, s', h);
    forall lane ensures LaneOf(s', lane) == LaneOf(s, lane) {}
  }

  lemma CollectLeast(s: State, h: Hash, closed: set<Hash>)
    requires s.knownBad + {h} <= closed && ClosedOver(closed, s)
    ensures var c := CollectUnknownBad(s.(knownBad := s.knownBad + {h}), h);
            c.knownBad <= closed && ClosedOver(closed, c)
  {
    assert Elems([h]) == {h};
    HarvestExact(s.unknown, [h], closed);
    HarvestPartition(s.unknown, [h]);
    var c := CollectUnknownBad(s.(knownBad := s.knownBad + {h}), h);
    assert c.knownBad == s.knownBad + {h} + Hashes(Harvest(s.unknown, [h]).1);
    assert Pipeline(c) == Pipeline(s);
  }

  lemma StillWaiting(t: State)
    requires Core(t, {})
    ensures forall b :: b in t.unknown ==> b.Hash() !in t.knownBad
  {
    hide Anchored, Subseq, UniqueHashes, JobsMatch;
    forall b | b in t.unknown ensures b.Hash() !in t.knownBad {
      assert b.Hash() in Hashes(t.unknown);
    }
  }

  /** Reports about drained blocks: all of them are already marked when the first `updateBad` runs. */
  ghost predicate ReportClean(m: Removal, s: State, bad: seq<Hash>)
    decreases |bad|
  {
    bad != [] ==> UpdateClean(m, s, bad[0]) && ReportClean(m, UpdateBad(m, s, bad[0]), bad[1..])
  }

  /** The same for a list of reports. */
  lemma {:induction false} UpdateAllExact(m: Removal, s: State, bad: seq<Hash>, closed: set<Hash>)
    ensures var t := UpdateAll(m, s, bad);
            && (bad != [] ==> NoBadParents(t) && LeftExactly(s, t))
            && ((forall h :: h in bad ==> h in s.knownBad) && Detached(s) ==>
                  Culled(s, t) && Detached(t) && WaitsExactly(s, t))
            && (Core(s, {}) && (forall h :: h in bad ==> h in s.knownBad) && ReportClean(m, s, bad) ==>
                  && Core(t, {}) && Purged(s, t)
                  && (s.knownBad <= closed && ClosedOver(closed, s) ==> t.knownBad <= closed))
    decreases |bad|
  {
    hide NoBadParents, LeftExactly, Culled, Detached, WaitsExactly;
    if bad != [] {
      ReportsLeaveNoBadParent(m, s, bad);
      ReportsLeaveExactly(m, s, bad);
    }
    if (forall h :: h in bad ==> h in s.knownBad) && Detached(s) { ReportsWaitExactly(m, s, bad); }
    if Core(s, {}) && (forall h :: h in bad ==> h in s.knownBad) && ReportClean(m, s, bad) {
      CleanReports(m, s, bad, closed);
    }
  }

  lemma {:induction false} CleanReports(m: Removal, s: State, bad: seq<Hash>, closed: set<Hash>)
    requires Core(s, {}) && (forall h :: h in bad ==> h in s.knownBad) && ReportClean(m, s, bad)
    ensures var t := UpdateAll(m, s, bad);
            && Core(t, {}) && Purged(s, t)
            && (s.knownBad <= closed && ClosedOver(closed, s) ==> t.knownBad <= closed)
    decreases |bad|
  {
    hide NoBadParents;
    if bad == [] {
      WithoutNone(Pipeline(s), s.knownBad);
    } else {
      CollectNothing(s, bad[0]);
      LoopStep(m, s, closed);
      var t := UpdateBad(m, s, bad[0]);
      if ClosedOver(closed, s) { PurgedClosed(s, t, closed); }
      hide Core, ClosedOver;
      CleanReports(m, t, bad[1..], closed);
      PurgedTrans(s, t, UpdateAll(m, t, bad[1..]));
    }
  }

  lemma PurgedClosed(s: State, t: State, closed: set<Hash>)
    requires Purged(s, t) && ClosedOver(closed, s)
    ensures ClosedOver(closed, t)
  {
    WithoutMembers(Pipeline(s), t.knownBad);
  }

  // ----- what goes wrong otherwise

  /** A block that left the queues but stays in the ready set. */
  ghost predicate Lost(s: State, h: Hash) {
    h.HeaderHash? && h in s.ready && h !in Hashes(Pipeline(s))
  }

  lemma {:induction false} MarkAllReady(s: State, hs: seq<Hash>)
    ensures MarkAll(s, hs).ready == s.ready - Elems(hs)
    decreases |hs|
  {
    if hs == [] {
      assert s.ready - {} == s.ready;
    } else {
      MarkAllReady(MarkOne(s, hs[0]), hs[1..]);
      assert hs == [hs[0]] + hs[1..];
    }
  }

  /** The hashes marked by a purge are uncle hashes or belong to entries of the purged queue. */
  lemma MarkedHashes(s: State, lane: Lane, j: nat)
    requires j < |Handed(Shifting, LaneOf(s, lane), lane, s.knownBad)|
    ensures var q := LaneOf(s, lane);
            var k := |Keep(q, lane, s.knownBad)|;
            var h := CellHash(lane, Handed(Shifting, q, lane, s.knownBad)[j]);
            k + j < |q| && (h.UnclesHash? || h == q[k + j].b.Hash())
  {
    HandedEntry(LaneOf(s, lane), lane, s.knownBad, j);
  }

  lemma InPipeline(s: State, lane: Lane, e: Entry)
    requires e in LaneOf(s, lane)
    ensures e.b in Pipeline(s)
  {
    PipelineSplit(s);
    InBlocks(LaneOf(s, lane), e.b);
  }

  /** Later purges never find a lost block again. */
  lemma LostStays(s: State, lane: Lane, h: Hash)
    requires Lost(s, h)
    ensures Lost(Purge(Shifting, s, lane), h)
  {
    var q := LaneOf(s, lane);
    var t := WithLane(s, lane, Keep(q, lane, s.knownBad));
    var hs := CellHashes(lane, Handed(Shifting, q, lane, s.knownBad));
    MarkAllReady(t, hs);
    MarkAllKeepsLanes(t, hs);
    forall j | 0 <= j < |hs| ensures hs[j] != h {
      MarkedHashes(s, lane, j);
      var e := q[|Keep(q, lane, s.knownBad)| + j];
      assert e in q;
      InPipeline(s, lane, e);
    }
    KeepDropMembers(q, lane, s.knownBad);
    forall b | b in Pipeline(t) ensures b in Pipeline(s) {
      PipelineSplit(s);
      PipelineSplit(t);
      if b in Blocks(LaneOf(t, lane)) {
        InBlocks(LaneOf(t, lane), b);
        var e :| e in LaneOf(t, lane) && e.b == b;
        InPipeline(s, lane, e);
      }
    }
  }

  lemma {:induction false} LostStaysInLoop(s: State, h: Hash)
    requires Lost(s, h)
    ensures Lost(PurgeLoop(Shifting, s), h)
    decreases |Pipeline(s)|
  {
    LostStays(s, Verified, h);
    LostStays(Purge(Shifting, s, Verified), Unverified, h);
    LostStays(Purge(Shifting, Purge(Shifting, s, Verified), Unverified), Verifying, h);
    RoundShrinks(Shifting, s);
    var t := PurgeRound(Shifting, s);
    if |Pipeline(t)| < |Pipeline(s)| { LostStaysInLoop(t, h); }
  }

  /** If none of the first |Keep| entries is doomed, all the others are. */
  lemma {:induction false} KeptPrefixIsAll(q: seq<Entry>, lane: Lane, bad: set<Hash>, k: nat)
    requires k == |Keep(q, lane, bad)| && k <= |q|
    requires forall x :: 0 <= x < k ==> !Doomed(lane, bad, q[x])
    ensures forall x :: k <= x < |q| ==> Doomed(lane, bad, q[x])
    decreases |q|
  {
    if q != [] {
      var p, l := q[..|q|-1], q[|q|-1];
      KeepDropLength(p, lane, bad);
      assert forall x :: 0 <= x < |p| ==> p[x] == q[x];
      var j := |Keep(p, lane, bad)|;
      KeptPrefixIsAll(p, lane, bad, j);
      assert j < |p| ==> Doomed(lane, bad, p[j]) && p[j] == q[j];
      if Doomed(lane, bad, l) {
        assert k == j;
        forall x | k <= x < |q| ensures Doomed(lane, bad, q[x]) {
          assert x < |p| ==> p[x] == q[x];
        }
      }
    }
  }

  lemma DoomedBeforeTail(q: seq<Entry>, lane: Lane, bad: set<Hash>) returns (i: nat)
    requires !AtEnd(q, lane, bad)
    ensures i < |Keep(q, lane, bad)| <= |q| && Doomed(lane, bad, q[i])
  {
    KeepDropLength(q, lane, bad);
    var k := |Keep(q, lane, bad)|;
    if exists x :: 0 <= x < k && Doomed(lane, bad, q[x]) {
      i :| 0 <= i < k && Doomed(lane, bad, q[i]);
    } else {
      KeptPrefixIsAll(q, lane, bad, k);
      assert false;
    }
  }

  /** A removal whose victims do not all stand at the end loses one of them. */
  lemma UncleanLoses(s: State, lane: Lane) returns (h: Hash)
    requires Core(s, {}) && !AtEnd(LaneOf(s, lane), lane, s.knownBad)
    ensures Lost(Purge(Shifting, s, lane), h)
  {
    var q := LaneOf(s, lane);
    var k := |Keep(q, lane, s.knownBad)|;
    var i := DoomedBeforeTail(q, lane, s.knownBad);
    h := q[i].b.Hash();
    var t := WithLane(s, lane, Keep(q, lane, s.knownBad));
    var hs := CellHashes(lane, Handed(Shifting, q, lane, s.knownBad));
    MarkAllReady(t, hs);
    MarkAllKeepsLanes(t, hs);
    PipelineWithout(s, lane);
    InPipeline(s, lane, q[i]);
    forall j | 0 <= j < |hs| ensures hs[j] != h {
      MarkedHashes(s, lane, j);
      assert Blocks(q)[i].Hash() != Blocks(q)[k + j].Hash();
    }
    GoneMeaning(q, lane, s.knownBad);
    WithoutMembers(Pipeline(s), Gone(q, lane, s.knownBad));
  }

  lemma {:induction false} UncleanLoopLoses(s: State) returns (h: Hash)
    requires Core(s, {}) && !LoopClean(Shifting, s)
    ensures Lost(PurgeLoop(Shifting, s), h)
    decreases |Pipeline(s)|
  {
    var s1 := Purge(Shifting, s, Verified);
    var s2 := Purge(Shifting, s1, Unverified);
    var s3 := Purge(Shifting, s2, Verifying);
    RoundShrinks(Shifting, s);
    if !Clean(Shifting, s, Verified) {
      h := UncleanLoses(s, Verified);
      LostStays(s1, Unverified, h);
      LostStays(s2, Verifying, h);
    } else {
      PurgeCore(Shifting, s, Verified);
      if !Clean(Shifting, s1, Unverified) {
        h := UncleanLoses(s1, Unverified);
        LostStays(s2, Verifying, h);
      } else {
        PurgeCore(Shifting, s1, Unverified);
        if !Clean(Shifting, s2, Verifying) {
          h := UncleanLoses(s2, Verifying);
        } else {
          PurgeCore(Shifting, s2, Verifying);
          h := UncleanLoopLoses(s3);
          return;
        }
      }
    }
    if |Pipeline(s3)| < |Pipeline(s)| { LostStaysInLoop(s3, h); }
  }

  /** The code keeps "ready set = hashes of the three queues" through the purge loop exactly when
      every removal in it finds its victims at the end of the queue. */
  lemma PurgeLoopExact(s: State)
    requires Core(s, {})
    ensures var t := PurgeLoop(Shifting, s);
            t.ready == Hashes(Pipeline(t)) <==> LoopClean(Shifting, s)
  {
    if LoopClean(Shifting, s) {
      LoopStep(Shifting, s, {});
    } else {
      var h := UncleanLoopLoses(s);
    }
  }

  lemma {:induction false} LostStaysInReports(s: State, bad: seq<Hash>, h: Hash)
    requires Lost(s, h)
    ensures Lost(UpdateAll(Shifting, s, bad), h)
    decreases |bad|
  {
    if bad != [] {
      var c := CollectUnknownBad(s, bad[0]);
      assert Pipeline(c) == Pipeline(s) && c.ready == s.ready;
      LostStaysInLoop(c, h);
      LostStaysInReports(UpdateBad(Shifting, s, bad[0]), bad[1..], h);
    }
  }

  lemma CleanReport(s: State, h: Hash)
    requires Core(s, {}) && h in s.knownBad && UpdateClean(Shifting, s, h)
    ensures var t := UpdateBad(Shifting, s, h); Core(t, {}) && s.knownBad <= t.knownBad
  {
    hide Core, Pipeline, NoBadParent, ClosedOver, Without;
    CollectNothing(s, h);
    LoopStep(Shifting, s, {});
  }

  lemma UncleanReport(s: State, h: Hash) returns (g: Hash)
    requires Core(s, {}) && h in s.knownBad && !UpdateClean(Shifting, s, h)
    ensures Lost(UpdateBad(Shifting, s, h), g)
  {
    hide Core, Pipeline, Lost;
    CollectNothing(s, h);
    g := UncleanLoopLoses(s);
  }

  lemma CoreReady(s: State)
    requires Core(s, {})
    ensures s.ready == Hashes(Pipeline(s))
  {
    hide Hashes, Pipeline, UniqueHashes, Anchored, Subseq;
  }

  lemma LostMeans(s: State, h: Hash)
    requires Lost(s, h)
    ensures s.ready != Hashes(Pipeline(s))
  {
    hide Pipeline, Hashes;
  }

  /** The same for a whole list of reported blocks. */
  lemma {:induction false} ReportsExact(s: State, bad: seq<Hash>)
    requires Core(s, {}) && forall h :: h in bad ==> h in s.knownBad
    ensures var t := UpdateAll(Shifting, s, bad);
            t.ready == Hashes(Pipeline(t)) <==> ReportClean(Shifting, s, bad)
    decreases |bad|
  {
    hide Core, Pipeline, Hashes, UpdateBad, UpdateClean, Lost;
    if bad == [] {
      CoreReady(s);
    } else {
      var t := UpdateBad(Shifting, s, bad[0]);
      if UpdateClean(Shifting, s, bad[0]) {
        CleanReport(s, bad[0]);
        ReportsExact(t, bad[1..]);
      } else {
        var h := UncleanReport(s, bad[0]);
        LostStaysInReports(t, bad[1..], h);
        LostMeans(UpdateAll(Shifting, s, bad), h);
      }
    }
  }

  lemma NewlyBadExact(s: State, h: Hash)
    requires Core(s, {}) && h.HeaderHash?
    requires h !in s.ready && h !in s.draining && h !in s.unknownSet && h !in s.chain
    ensures var s' := s.(knownBad := s.knownBad + {h});
            var t := UpdateBad(Shifting, s', h);
            t.ready == Hashes(Pipeline(t)) <==> UpdateClean(Shifting, s', h)
  {
    hide Core, Pipeline, Hashes;
    CollectCore(s, h);
    PurgeLoopExact(CollectUnknownBad(s.(knownBad := s.knownBad + {h}), h));
  }
}
