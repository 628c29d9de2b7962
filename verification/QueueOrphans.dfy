/** Verified blocks with a bad parent. As coded, a verifier can outlive the slot of its block; when it
    then fails, the children that were verified meanwhile stay in the verified queue. */
module QueueOrphans {
  import opened QueueState
  import opened QueueInvariant
  import opened QueueSafety
  import opened QueuePurge
  import opened QueueRuns
  import opened QueueAllRuns

  /** A verified block is a child of `h`. */
  ghost predicate HasVerifiedChild(s: State, h: Hash) {
    exists e :: e in s.verified && e.b.parent == h
  }

  ghost predicate GoodVerified(s: State) {
    NoBadParent(s.verified, s.knownBad)
  }

  /** No verified block is a child of one that is still under verification. */
  lemma NoVerifiedChild(s: State, h: Hash)
    requires Settled(s) && h in Hashes(Blocks(s.verifying))
    ensures !HasVerifiedChild(s, h)
  {
    hide Subseq, Waiting, JobsMatch, Pipeline, DoneReady;
    var a, b, c := Blocks(s.verified), Blocks(s.verifying), Blocks(s.unverified);
    PipelineSplit(s);
    var j :| 0 <= j < |b| && b[j].Hash() == h;
    assert Pipeline(s)[|a| + j] == b[j];
    assert b[j] in Pipeline(s) && h in Hashes(Pipeline(s)) && h !in Strays(s);
    forall e | e in s.verified ensures e.b.parent != h {
      var i :| 0 <= i < |s.verified| && s.verified[i] == e;
      assert Pipeline(s)[i] == e.b;
      NotAmong(Pipeline(s), i, |a| + j);
    }
  }

  /** A hash that stands at `j` is not among the first `i`. */
  lemma NotAmong(q: seq<Block>, i: nat, j: nat)
    requires UniqueHashes(q) && i < j < |q|
    ensures q[j].Hash() !in Hashes(q[..i])
  {
    forall b | b in q[..i] ensures b.Hash() != q[j].Hash() {
      var k :| 0 <= k < i && q[..i][k] == b;
      assert q[k] == b;
    }
  }

  lemma FrontStaysGood(s: State)
    requires Settled(s) && GoodVerified(s) && s.verifying != [] && s.verifying[0].Done?
    ensures GoodVerified(DrainFront(s))
  {
    hide Settled;
    assert Blocks(s.verifying)[0] == s.verifying[0].b && Blocks(s.verifying)[0] in Blocks(s.verifying);
    NoVerifiedChild(s, s.verifying[0].b.Hash());
  }

  lemma {:induction false} DrainStaysGood(s: State)
    requires Settled(s) && GoodVerified(s)
    ensures GoodVerified(DrainVerified(s))
    decreases |s.verifying|
  {
    hide Settled, GoodVerified;
    if s.verifying != [] && s.verifying[0].Done? {
      FrontSettled(s);
      FrontStaysGood(s);
      DrainStaysGood(DrainFront(s));
    }
  }

  lemma {:induction false} DrainGrows(s: State)
    ensures var t := DrainVerified(s); s.knownBad <= t.knownBad && forall e :: e in s.verified ==> e in t.verified
    decreases |s.verifying|
  {
    if s.verifying != [] && s.verifying[0].Done? { DrainGrows(DrainFront(s)); }
  }

  /** A failed verification leaves a bad parent in the verified queue exactly if the block has a
      verified child: which takes a block whose slot was removed without being marked. */
  lemma FailExact(s: State, w: Block)
    requires Settled(s) && w in s.jobs && GoodVerified(s)
    ensures GoodVerified(Fail(s, w)) <==> !HasVerifiedChild(s, w.Hash())
    ensures HasVerifiedChild(s, w.Hash()) ==> w.Hash() in Strays(s) || w.Hash() in s.knownBad
  {
    hide Settled, DrainVerified, Untagged;
    var h := w.Hash();
    var t := s.(ready := s.ready - {h}, knownBad := s.knownBad + {h},
                verifying := Untagged(s.verifying, h), jobs := s.jobs - {w});
    if HasVerifiedChild(s, h) {
      DrainGrows(t);
      StaleParent(s, w);
    } else {
      FailTurnsBad(s, w);
      DrainStaysGood(t);
    }
  }

  lemma StaleParent(s: State, w: Block)
    requires Settled(s) && w in s.jobs && HasVerifiedChild(s, w.Hash())
    ensures w.Hash() in Strays(s) || w.Hash() in s.knownBad
  {
    hide InLine, Disjoint, Waiting, DoneReady;
    if Pending(w) in s.verifying {
      InBlocks(s.verifying, w);
      NoVerifiedChild(s, w.Hash());
    }
  }

  lemma FinishStaysGood(s: State, w: Block)
    requires Settled(s) && w in s.jobs && GoodVerified(s)
    ensures GoodVerified(Finish(s, w))
  {
    hide Settled, DrainVerified, Replaced;
    if s.verifying != [] && s.verifying[0].Tag() == w.Hash() {
      FirstIsOwn(s, w);
      var h, u := w.Hash(), s.(verifying := s.verifying[1..], jobs := s.jobs - {w});
      FirstMoved(s, w);
      assert Blocks(s.verifying)[0] == w && w in Blocks(s.verifying);
      NoVerifiedChild(s, h);
      DrainStaysGood(if w.parent in s.knownBad then u.(ready := u.ready - {h}, knownBad := u.knownBad + {h})
                     else u.(verified := u.verified + [Done(w)]));
    }
  }

  /** Every event, as coded, keeps bad parents out of the verified queue, except a failure of a block with a
      verified child. */
  lemma StepGoodExact(m: Removal, s: State, e: Event)
    requires Settled(s) && Enabled(s, e) && GoodVerified(s)
    ensures GoodVerified(Step(m, s, e)) <==> !(e.EFail? && HasVerifiedChild(s, e.w.Hash()))
  {
    hide Settled, Harvest, PurgeLoop, CollectUnknownBad;
    match e
    case EImport(b, a) =>
      if Import(m, s, b, a).1 == BadChain {
        UpdateLeavesNoBadParent(m, s.(knownBad := s.knownBad + {b.Hash()}), b.Hash());
        VerifiedLane(Import(m, s, b, a).0);
      }
    case ETake =>
    case EFail(w) => FailExact(s, w);
    case EFinish(w) => FinishStaysGood(s, w);
    case EDrain(max) =>
    case EDoneDrain(bad) =>
      if bad != [] {
        DoneDrainLeavesNoBadParent(m, s, bad);
        VerifiedLane(DoneDrain(m, s, bad));
      }
  }

  lemma VerifiedLane(s: State)
    requires NoBadParents(s)
    ensures GoodVerified(s)
  {
    assert LaneOf(s, Verified) == s.verified;
  }

  // ----- all that is missing from the invariant

  /** The full invariant is what every run keeps, together with three things: no stray, no verified block
      with a bad parent, and no uncle hash taken for a bad block. */
  lemma InvExact(s: State)
    ensures Inv(s) <==>
            Settled(s) && Strays(s) == {} && GoodVerified(s) && (forall h :: h in s.knownBad ==> h.HeaderHash?)
  {
    hide Anchored, Subseq, JobsMatch, Waiting, UniqueHashes, Pipeline;
    if Inv(s) {
      assert Strays(s) == {};
      forall e | e in s.verifying && e.Done? ensures e.b.Hash() in s.ready { InLaneHash(s, Verifying, e); }
    } else if Settled(s) && Strays(s) == {} {
      assert s.ready == Hashes(Pipeline(s));
    }
    assert Strays(s) == {} ==> Roots(s) + {} == Roots(s) + Strays(s);
  }

  // ----- drained batches

  /** As coded, in every state of every run: a batch has distinct blocks, and it is parents-first exactly
      if no block in it is the child of a stray or bad one that is not in the chain. */
  lemma BatchExact(s: State, max: nat)
    requires Settled(s)
    ensures var batch := DrainBatch(s, max);
            && UniqueHashes(batch)
            && (Anchored(batch, s.chain) <==>
                forall b :: b in batch ==> b.parent in s.chain || (b.parent !in Strays(s) && b.parent !in s.knownBad))
  {
    hide Subseq, Waiting, JobsMatch, DoneReady, UniqueHashes, Pipeline;
    var batch, q := DrainBatch(s, max), Pipeline(Drain(s, max));
    DrainPipeline(s, max);
    UniqueParts(batch, q);
    HashesAppend(batch, q);
    AnchoredParts(batch, q, Roots(s) + Strays(s));
    forall i | 0 <= i < |batch| ensures Hashes(batch[..i]) <= Hashes(batch) {
      assert forall b :: b in batch[..i] ==> b in batch;
    }
    forall b | b in batch && Anchored(batch, s.chain)
      ensures b.parent in s.chain || (b.parent !in Strays(s) && b.parent !in s.knownBad)
    {
      var i :| 0 <= i < |batch| && batch[i] == b;
    }
  }

  // ----- a run to such a failure

  const B4 := Block(4, B2.Hash(), 0)
  const T1 := S6.(unverified := [Pending(B3)], verifying := [Pending(B2)], jobs := {B2})
  const T2 := T1.(unverified := [], verifying := [Pending(B2), Pending(B3)], jobs := {B2, B3})
  const T3 := T2.(ready := {B2.Hash()}, draining := {}, knownBad := {B1.Hash(), B3.Hash()}, verifying := [])
  const T4 := T3.(unverified := [Pending(B4)], ready := {B2.Hash(), B4.Hash()}, enqueued := [B1, B2, B3, B4])
  const T5 := T4.(unverified := [], verifying := [Pending(B4)], jobs := {B2, B3, B4})
  const T6 := T5.(verifying := [], verified := [Done(B4)], jobs := {B2, B3})

  /** Child and grandchild of the drained block are under verification when it is reported bad; then a second
      grandchild arrives and is verified. */
  const Overtaken := [ETake, ETake, EDoneDrain([B1.Hash()]), EImport(B4, QUEUED), ETake, EFinish(B4)]

  lemma TakesTwo()
    ensures Take(S6) == T1 && Take(T1) == T2
  {
    assert [Pending(B2), Pending(B3)][1..] == [Pending(B3)] && [] + [Pending(B2)] == [Pending(B2)];
    assert {} + {B2} == {B2};
    assert [Pending(B3)][1..] == [] && [Pending(B2)] + [Pending(B3)] == [Pending(B2), Pending(B3)];
  }

  lemma EmptyLane(s: State, lane: Lane)
    requires LaneOf(s, lane) == []
    ensures Purge(Shifting, s, lane) == s
  {
    assert Handed(Shifting, [], lane, s.knownBad) == [];
    assert CellHashes(lane, []) == [];
  }

  /** Only the verifying queue holds anything. */
  lemma OneLaneRound(s: State)
    requires s.verified == [] && s.unverified == []
    ensures PurgeRound(Shifting, s) == Purge(Shifting, s, Verifying)
  {
    hide Purge;
    EmptyLane(s, Verified);
    EmptyLane(s, Unverified);
  }

  lemma NothingMarked(s: State, h: Hash)
    requires s.unknown == []
    ensures CollectUnknownBad(s, h) == s
  {
    HarvestNothing([], h);
    HashesNone();
    assert s.unknownSet - {} == s.unknownSet && s.knownBad + {} == s.knownBad;
  }

  lemma MarkedOne(s: State, h: Hash)
    requires s.unknown == []
    ensures MarkAll(s, [h]) == s.(knownBad := s.knownBad + {h}, ready := s.ready - {h})
  {
    hide CollectUnknownBad;
    var t := s.(knownBad := s.knownBad + {h}, ready := s.ready - {h});
    NothingMarked(t, h);
    assert [h][1..] == [] && MarkAll(t, []) == t;
  }

  /** The report as it stands before the purge, after its first round and after the second. */
  const R0 := T2.(draining := {}, knownBad := {B1.Hash()})
  const R1 := T3.(verifying := [Pending(B3)])

  lemma Handback()
    ensures var q, bad := [Pending(B2), Pending(B3)], {B1.Hash()};
            && Keep(q, Verifying, bad) == [Pending(B3)]
            && CellHashes(Verifying, Handed(Shifting, q, Verifying, bad)) == [B3.Hash()]
  {
    var q, bad := [Pending(B2), Pending(B3)], {B1.Hash()};
    assert q[..1] == [Pending(B2)] && q[..1][..0] == [];
    assert Keep(q[..1], Verifying, bad) == [];
    assert Keep(q, Verifying, bad) == [Pending(B3)];
    assert Handed(Shifting, q, Verifying, bad) == [Cell(Pending(B3), true)];
  }

  lemma FirstRound()
    ensures PurgeRound(Shifting, R0) == R1
  {
    hide MarkAll, PurgeRound, Keep, Handed, CellHashes;
    OneLaneRound(R0);
    Handback();
    MarkedOne(R0.(verifying := [Pending(B3)]), B3.Hash());
    assert {B1.Hash()} + {B3.Hash()} == {B1.Hash(), B3.Hash()};
    assert {B2.Hash(), B3.Hash()} - {B3.Hash()} == {B2.Hash()};
  }

  /** A queue whose only entry is doomed. */
  lemma PurgesOne(s: State, lane: Lane, e: Entry)
    requires LaneOf(s, lane) == [e] && e.Pending? && Doomed(lane, s.knownBad, e) && s.unknown == []
    ensures Purge(Shifting, s, lane) ==
            WithLane(s, lane, []).(knownBad := s.knownBad + {e.b.Hash()}, ready := s.ready - {e.b.Hash()})
  {
    hide MarkAll;
    assert [e][..0] == [];
    assert Keep([e], lane, s.knownBad) == [];
    assert Handed(Shifting, [e], lane, s.knownBad) == [Cell(e, false)];
    assert CellHashes(lane, [Cell(e, false)]) == [e.b.Hash()];
    MarkedOne(WithLane(s, lane, []), e.b.Hash());
  }

  lemma SecondRound()
    ensures PurgeRound(Shifting, R1) == T3
  {
    hide PurgeRound, Purge;
    OneLaneRound(R1);
    PurgesOne(R1, Verifying, Pending(B3));
    assert {B1.Hash(), B3.Hash()} + {B3.Hash()} == {B1.Hash(), B3.Hash()};
    assert {B2.Hash()} - {B3.Hash()} == {B2.Hash()};
  }

  /** The parent's slot is removed, but the grandchild is marked in its place. */
  lemma ReportLosesParent()
    ensures DoneDrain(Shifting, T2, [B1.Hash()]) == T3
  {
    hide PurgeRound, CollectUnknownBad;
    var bad := [B1.Hash()];
    assert (set h | h in bad) == {B1.Hash()};
    assert {} + {B1.Hash()} == {B1.Hash()} && {GENESIS} + ({B1.Hash()} - {B1.Hash()}) == {GENESIS};
    NothingMarked(R0, B1.Hash());
    FirstRound();
    SecondRound();
    OneLaneRound(T3);
    EmptyLane(T3, Verifying);
    assert PurgeLoop(Shifting, T3) == T3;
    assert PurgeLoop(Shifting, R1) == T3;
    assert PurgeLoop(Shifting, R0) == T3;
    assert bad[1..] == [] && UpdateAll(Shifting, T3, []) == T3;
  }

  /** With one verifier less, the report takes out the child first and then the grandchild. */
  const P0 := T1.(draining := {}, knownBad := {B1.Hash()})
  const P1 := P0.(verifying := [], ready := {B3.Hash()}, knownBad := {B1.Hash(), B2.Hash()})
  const P2 := P1.(unverified := [], ready := {}, knownBad := {B1.Hash(), B2.Hash(), B3.Hash()})

  lemma ChildFirst()
    ensures PurgeRound(Shifting, P0) == P1
  {
    hide Purge, Handed;
    EmptyLane(P0, Verified);
    var q := [Pending(B3)];
    assert q[..0] == [] && !Doomed(Unverified, P0.knownBad, q[0]);
    assert Drop(q, Unverified, P0.knownBad) == [];
    EmptyDrop(Shifting, P0, Unverified);
    PurgesOne(P0, Verifying, Pending(B2));
    assert {B1.Hash()} + {B2.Hash()} == {B1.Hash(), B2.Hash()};
    assert {B2.Hash(), B3.Hash()} - {B2.Hash()} == {B3.Hash()};
  }

  lemma GrandchildNext()
    ensures PurgeRound(Shifting, P1) == P2
  {
    hide Purge;
    EmptyLane(P1, Verified);
    PurgesOne(P1, Unverified, Pending(B3));
    assert {B1.Hash(), B2.Hash()} + {B3.Hash()} == {B1.Hash(), B2.Hash(), B3.Hash()};
    assert {B3.Hash()} - {B3.Hash()} == {};
    EmptyLane(P2, Verifying);
  }

  lemma ReportTakesAll()
    ensures UpdateAll(Shifting, P0, [B1.Hash()]) == P2
  {
    hide PurgeRound, CollectUnknownBad;
    NothingMarked(P0, B1.Hash());
    ChildFirst();
    GrandchildNext();
    OneLaneRound(P2);
    EmptyLane(P2, Verifying);
    assert PurgeLoop(Shifting, P2) == P2;
    assert PurgeLoop(Shifting, P1) == P2;
    assert PurgeLoop(Shifting, P0) == P2;
    assert [B1.Hash()][1..] == [] && UpdateAll(Shifting, P2, []) == P2;
  }

  lemma Reported()
    ensures AfterDrain(S6, [B1.Hash()]) == S6.(draining := {}, knownBad := {B1.Hash()})
    ensures Take(AfterDrain(S6, [B1.Hash()])) == P0
  {
    assert (set h | h in [B1.Hash()]) == {B1.Hash()};
    assert {} + {B1.Hash()} == {B1.Hash()} && {GENESIS} + ({B1.Hash()} - {B1.Hash()}) == {GENESIS};
    TakesTwo();
  }

  /** As coded, a report can lose a block that it takes out properly if a verifier has it in hand by then. */
  lemma TakeCanMakeADifference()
    ensures var s, bad := AfterDrain(S6, [B1.Hash()]), [B1.Hash()];
            var t, u := UpdateAll(Shifting, s, bad), UpdateAll(Shifting, Take(s), bad);
            t.ready != Hashes(Pipeline(t)) && u.ready == Hashes(Pipeline(u)) == {}
  {
    hide Run, UpdateAll;
    TheCodeLosesABlock();
    Reported();
    ReportTakesAll();
    HashesNone();
    assert Pipeline(P2) == [];
  }

  lemma SecondChild()
    ensures Import(Shifting, T3, B4, QUEUED).0 == T4 && Take(T4) == T5 && Finish(T5, B4) == T6
  {
    hide Import;
    PlainImport(T3, B4, QUEUED);
    assert [] + [Pending(B4)] == [Pending(B4)] && [B1, B2, B3] + [B4] == [B1, B2, B3, B4];
    assert {B2.Hash()} + {B4.Hash()} == {B2.Hash(), B4.Hash()};
    assert [Pending(B4)][1..] == [] && {B2, B3} + {B4} == {B2, B3, B4} && {B2, B3, B4} - {B4} == {B2, B3};
    assert [] + [Done(B4)] == [Done(B4)];
  }

  lemma OvertakenRun()
    ensures AnyRun(Shifting, S6, Overtaken, T6)
  {
    TakesTwo();
    ReportLosesParent();
    SecondChild();
    hide Import, DoneDrain, Finish;
    var es := Overtaken;
    assert es[5..][1..] == [] && AnyRun(Shifting, T5, es[5..], T6);
    assert es[4..][1..] == es[5..] && AnyRun(Shifting, T4, es[4..], T6);
    assert es[3..][1..] == es[4..] && AnyRun(Shifting, T3, es[3..], T6);
    assert es[2..][1..] == es[3..] && AnyRun(Shifting, T2, es[2..], T6);
    assert es[1..][1..] == es[2..] && AnyRun(Shifting, T1, es[1..], T6);
  }

  lemma {:induction false} CleanThenAny(s: State, es: seq<Event>, t: State, more: seq<Event>, u: State)
    requires Run(Shifting, s, es, t) && AnyRun(Shifting, t, more, u)
    ensures AnyRun(Shifting, s, es + more, u)
    decreases |es|
  {
    hide Step, CleanEvent;
    if es == [] {
      assert es + more == more;
    } else {
      CleanThenAny(Step(Shifting, s, es[0]), es[1..], t, more, u);
      assert (es + more)[0] == es[0] && (es + more)[1..] == es[1..] + more;
    }
  }

  /** From there the importer is handed a block whose parent is neither in the chain nor in the batch. */
  lemma TheCodeDrainsAnOrphan()
    ensures AnyRun(Shifting, EmptyQueue, ThreeInARow + Overtaken, T6)
    ensures DrainBatch(T6, 1) == [B4] && !Anchored(DrainBatch(T6, 1), T6.chain)
  {
    hide Run, AnyRun;
    RunToS6();
    OvertakenRun();
    CleanThenAny(EmptyQueue, ThreeInARow, S6, Overtaken, T6);
    assert T6.verified[..1] == [Done(B4)] && Blocks([Done(B4)]) == [B4];
    assert [B4][..0] == [] && B4.parent !in T6.chain;
    HashesNone();
  }

  /** From a state the queue reaches, a failure leaves a block with a bad parent in the verified queue. */
  lemma TheCodeKeepsAnOrphan()
    ensures AnyRun(Shifting, EmptyQueue, ThreeInARow + Overtaken, T6) && Enabled(T6, EFail(B2))
    ensures GoodVerified(T6) && !GoodVerified(Step(Shifting, T6, EFail(B2)))
  {
    hide Run, AnyRun, Settled, Fail;
    RunToS6();
    OvertakenRun();
    CleanThenAny(EmptyQueue, ThreeInARow, S6, Overtaken, T6);
    AllRunsSettle(Shifting, ThreeInARow + Overtaken, T6);
    assert Done(B4) in T6.verified;
    StepGoodExact(Shifting, T6, EFail(B2));
  }
}
