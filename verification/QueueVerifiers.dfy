/** The steps of the verifiers one by one, and a standstill they can come to: `updateBad` takes slots out of the
    verifying queue without moving finished ones on. If a finished slot is first afterwards, no verifier is ever
    next in line again, and nothing is verified until one fails or a purge takes the slot away. */
module QueueVerifiers {
  import opened QueueState
  import opened QueueInvariant
  import opened QueueSafety
  import opened QueuePurge
  import opened QueueRuns
  import opened QueueAllRuns
  import opened QueueOrphans

  /** A failure: the block is bad, its slot is gone, all others stand as they did, and finished slots move on. */
  lemma FailForm(s: State, w: Block) returns (slots: seq<Entry>)
    requires Settled(s) && w in s.jobs
    ensures forall e :: e in slots <==> e in s.verifying && e != Pending(w)
    ensures Blocks(slots) == Without(Blocks(s.verifying), {w.Hash()})
    ensures Fail(s, w) ==
            DrainVerified(s.(ready := s.ready - {w.Hash()}, knownBad := s.knownBad + {w.Hash()}, verifying := slots,
                             jobs := s.jobs - {w}))
  {
    hide Settled, DrainVerified, Untagged, Without;
    slots := Untagged(s.verifying, w.Hash());
    PendingSlots(s, w);
    UntaggedIsWithout(s.verifying, w.Hash());
  }

  /** A success: the verifier's slot is finished, and moves on with the finished ones behind it if it is first;
      without a slot nothing happens. */
  lemma FinishForm(s: State, w: Block)
    requires Settled(s) && w in s.jobs
    ensures Pending(w) !in s.verifying ==> Finish(s, w) == s.(jobs := s.jobs - {w})
    ensures forall k :: 0 <= k < |s.verifying| && s.verifying[k] == Pending(w) ==>
              var t := s.(verifying := s.verifying[k := Done(w)], jobs := s.jobs - {w});
              Finish(s, w) == if k == 0 then DrainVerified(t) else t
  {
    hide Settled, Replaced;
    PendingSlots(s, w);
    forall e | e in s.verifying && e.Tag() == w.Hash() ensures e == Pending(w) {}
    if Pending(w) !in s.verifying {
      ReplacedFirst(s.verifying, w.Hash(), Done(w), |s.verifying|);
      if s.verifying != [] { assert s.verifying[0] in s.verifying; }
    }
    forall k | 0 <= k < |s.verifying| && s.verifying[k] == Pending(w)
      ensures var t := s.(verifying := s.verifying[k := Done(w)], jobs := s.jobs - {w});
              Finish(s, w) == if k == 0 then DrainVerified(t) else t
    {
      if k == 0 { FirstFinishes(s, w); } else { LaterFinishes(s, w, k); }
    }
  }

  lemma FirstFinishes(s: State, w: Block)
    requires s.verifying != [] && s.verifying[0] == Pending(w)
    ensures Finish(s, w) == DrainVerified(s.(verifying := s.verifying[0 := Done(w)], jobs := s.jobs - {w}))
  {
    assert s.verifying[0 := Done(w)][1..] == s.verifying[1..];
  }

  lemma LaterFinishes(s: State, w: Block, k: nat)
    requires Settled(s) && w in s.jobs && 0 < k < |s.verifying| && s.verifying[k] == Pending(w)
    ensures Finish(s, w) == s.(verifying := s.verifying[k := Done(w)], jobs := s.jobs - {w})
  {
    hide Settled, Replaced;
    PendingSlots(s, w);
    SettledUnique(s);
    forall i | 0 <= i < k ensures s.verifying[i].Tag() != w.Hash() { OnlySlot(s, w, i, k); }
    ReplacedFirst(s.verifying, w.Hash(), Done(w), k);
  }

  lemma SettledUnique(s: State)
    requires Settled(s)
    ensures UniqueHashes(Pipeline(s))
  {
    hide Disjoint, JobsMatch, Waiting, DoneReady, UniqueHashes, Pipeline;
  }

  // ----- standstill

  /** The first slot is finished, and nobody is left to move it on. */
  ghost predicate Stalled(s: State) {
    s.verifying != [] && s.verifying[0].Done?
  }

  /** Neither a failure nor a purge. */
  ghost predicate Calm(m: Removal, s: State, e: Event)
    requires Enabled(s, e)
  {
    match e
    case EFail(_) => false
    case EImport(b, a) => Import(m, s, b, a).1 != BadChain
    case EDoneDrain(bad) => bad == []
    case _ => true
  }

  /** Through a calm event the slot stays first, and nothing joins the verified queue. */
  lemma StallStays(m: Removal, s: State, e: Event) returns (n: nat)
    requires Stalled(s) && Enabled(s, e) && Calm(m, s, e)
    ensures var t := Step(m, s, e);
            Stalled(t) && t.verifying[0] == s.verifying[0] && n <= |s.verified| && t.verified == s.verified[n..]
  {
    hide UpdateBad, Harvest, DrainVerified;
    n := 0;
    match e
    case EFinish(w) =>
      assert s.verifying[0].Tag() != w.Hash();
    case EDrain(max) => n := |DrainBatch(s, max)|;
    case _ =>
  }

  ghost predicate CalmRun(m: Removal, s: State, es: seq<Event>, t: State)
    decreases |es|
  {
    if es == [] then s == t
    else Enabled(s, es[0]) && Calm(m, s, es[0]) && CalmRun(m, Step(m, s, es[0]), es[1..], t)
  }

  /** However many blocks are imported, taken and verified meanwhile: the verified queue is only drained. */
  lemma {:induction false} StallForever(m: Removal, s: State, es: seq<Event>, t: State) returns (n: nat)
    requires Stalled(s) && CalmRun(m, s, es, t)
    ensures Stalled(t) && t.verifying[0] == s.verifying[0] && n <= |s.verified| && t.verified == s.verified[n..]
    decreases |es|
  {
    hide Step, Calm, Enabled;
    if es == [] {
      n := 0;
    } else {
      var k := StallStays(m, s, es[0]);
      var j := StallForever(m, Step(m, s, es[0]), es[1..], t);
      n := k + j;
      assert s.verified[k..][j..] == s.verified[n..];
    }
  }

  lemma {:induction false} DrainEndsStall(s: State)
    ensures !Stalled(DrainVerified(s))
    decreases |s.verifying|
  {
    if s.verifying != [] && s.verifying[0].Done? { DrainEndsStall(DrainFront(s)); }
  }

  /** Only a purge brings the queue to a standstill, and a failure always ends it. */
  lemma StallBegins(m: Removal, s: State, e: Event)
    requires Enabled(s, e)
    ensures e.EFail? ==> !Stalled(Step(m, s, e))
    ensures !Stalled(s) && Calm(m, s, e) ==> !Stalled(Step(m, s, e))
  {
    hide UpdateBad, Harvest, DrainVerified, Replaced, Untagged;
    match e
    case EFail(w) =>
      DrainEndsStall(s.(ready := s.ready - {w.Hash()}, knownBad := s.knownBad + {w.Hash()},
                        verifying := Untagged(s.verifying, w.Hash()), jobs := s.jobs - {w}));
    case EFinish(w) =>
      if s.verifying != [] && s.verifying[0].Tag() == w.Hash() {
        var u := s.(jobs := s.jobs - {w}, verifying := s.verifying[1..]);
        DrainEndsStall(u.(ready := u.ready - {w.Hash()}, knownBad := u.knownBad + {w.Hash()}));
        DrainEndsStall(u.(verified := u.verified + [Done(w)]));
      } else {
        ReplacedLater(s.verifying, w.Hash(), Done(w));
      }
    case _ =>
  }

  lemma ReplacedLater(q: seq<Entry>, h: Hash, e: Entry)
    requires q == [] || q[0].Tag() != h
    ensures var r := Replaced(q, h, e); (r == [] <==> q == []) && (q != [] ==> r[0] == q[0])
  {
  }

  // ----- a run into a standstill

  const C := Block(5, GENESIS, 7)
  const X := Block(6, GENESIS, 8)
  const U1 := S5.(unverified := [Pending(B2), Pending(C)], ready := {B2.Hash(), C.Hash()}, enqueued := [B1, B2, C])
  const U2 := S5.(unverified := [Pending(B2), Pending(C), Pending(X)], ready := {B2.Hash(), C.Hash(), X.Hash()},
                  enqueued := [B1, B2, C, X])
  const U3 := U2.(unverified := [Pending(C), Pending(X)], verifying := [Pending(B2)], jobs := {B2})
  const U4 := U2.(unverified := [Pending(X)], verifying := [Pending(B2), Pending(C)], jobs := {B2, C})
  const U5 := U2.(unverified := [], verifying := [Pending(B2), Pending(C), Pending(X)], jobs := {B2, C, X})
  const U6 := U5.(verifying := [Pending(B2), Done(C), Pending(X)], jobs := {B2, X})
  const U7 := U6.(draining := {}, knownBad := {B1.Hash()})
  const U8 := U7.(verifying := [Done(C), Pending(X)], knownBad := {B1.Hash(), X.Hash()}, ready := {B2.Hash(), C.Hash()})
  const U9 := U8.(verifying := [Done(C)])

  const IntoStall := [EImport(C, FINE), EImport(X, FINE), ETake, ETake, ETake, EFinish(C), EDoneDrain([B1.Hash()])]

  lemma StallImports()
    ensures Import(Shifting, S5, C, FINE).0 == U1 && Import(Shifting, U1, X, FINE).0 == U2
  {
    hide Import;
    PlainImport(S5, C, FINE);
    assert [Pending(B2)] + [Pending(C)] == [Pending(B2), Pending(C)] && [B1, B2] + [C] == [B1, B2, C];
    assert {B2.Hash()} + {C.Hash()} == {B2.Hash(), C.Hash()} && {GENESIS} + {GENESIS} == {GENESIS};
    PlainImport(U1, X, FINE);
    assert [Pending(B2), Pending(C)] + [Pending(X)] == [Pending(B2), Pending(C), Pending(X)];
    assert [B1, B2, C] + [X] == [B1, B2, C, X];
    assert {B2.Hash(), C.Hash()} + {X.Hash()} == {B2.Hash(), C.Hash(), X.Hash()};
  }

  lemma StallTakes()
    ensures Take(U2) == U3 && Take(U3) == U4 && Take(U4) == U5
  {
    assert [Pending(B2), Pending(C), Pending(X)][1..] == [Pending(C), Pending(X)];
    assert [] + [Pending(B2)] == [Pending(B2)] && {} + {B2} == {B2};
    assert [Pending(C), Pending(X)][1..] == [Pending(X)] && {B2} + {C} == {B2, C};
    assert [Pending(B2)] + [Pending(C)] == [Pending(B2), Pending(C)];
    assert [Pending(X)][1..] == [] && {B2, C} + {X} == {B2, C, X};
    assert [Pending(B2), Pending(C)] + [Pending(X)] == [Pending(B2), Pending(C), Pending(X)];
  }

  lemma StallFinishes()
    ensures Finish(U5, C) == U6
  {
    var q := [Pending(B2), Pending(C), Pending(X)];
    assert q[1..] == [Pending(C), Pending(X)] && q[1..][1..] == [Pending(X)];
    assert Replaced(q[1..], C.Hash(), Done(C)) == [Done(C)] + [Pending(X)];
    assert Replaced(q, C.Hash(), Done(C)) == [Pending(B2)] + ([Done(C)] + [Pending(X)]);
    assert {B2, C, X} - {C} == {B2, X};
  }

  lemma StallHandback()
    ensures var q, bad := [Pending(B2), Done(C), Pending(X)], {B1.Hash()};
            && Keep(q, Verifying, bad) == [Done(C), Pending(X)]
            && CellHashes(Verifying, Handed(Shifting, q, Verifying, bad)) == [X.Hash()]
  {
    var q, bad := [Pending(B2), Done(C), Pending(X)], {B1.Hash()};
    assert q[..2] == [Pending(B2), Done(C)] && q[..2][..1] == [Pending(B2)] && q[..2][..1][..0] == [];
    assert Keep(q[..2][..1], Verifying, bad) == [];
    assert Keep(q[..2], Verifying, bad) == [Done(C)];
    assert Keep(q, Verifying, bad) == [Done(C)] + [Pending(X)];
    assert Handed(Shifting, q, Verifying, bad) == [Cell(Pending(X), true)];
  }

  lemma StallRoundOne()
    ensures PurgeRound(Shifting, U7) == U8
  {
    hide MarkAll, PurgeRound, Keep, Handed, CellHashes;
    OneLaneRound(U7);
    StallHandback();
    MarkedOne(U7.(verifying := [Done(C), Pending(X)]), X.Hash());
    assert {B1.Hash()} + {X.Hash()} == {B1.Hash(), X.Hash()};
    assert {B2.Hash(), C.Hash(), X.Hash()} - {X.Hash()} == {B2.Hash(), C.Hash()};
  }

  lemma StallHandbackTwo()
    ensures var q, bad := [Done(C), Pending(X)], {B1.Hash(), X.Hash()};
            && Keep(q, Verifying, bad) == [Done(C)]
            && CellHashes(Verifying, Handed(Shifting, q, Verifying, bad)) == [X.Hash()]
  {
    var q, bad := [Done(C), Pending(X)], {B1.Hash(), X.Hash()};
    assert q[..1] == [Done(C)] && q[..1][..0] == [];
    assert Keep(q[..1], Verifying, bad) == [Done(C)];
    assert Keep(q, Verifying, bad) == [Done(C)];
    assert Handed(Shifting, q, Verifying, bad) == [Cell(Pending(X), false)];
  }

  lemma StallRoundTwo()
    ensures PurgeRound(Shifting, U8) == U9
  {
    hide MarkAll, PurgeRound, Keep, Handed, CellHashes;
    OneLaneRound(U8);
    StallHandbackTwo();
    MarkedOne(U8.(verifying := [Done(C)]), X.Hash());
    assert {B1.Hash(), X.Hash()} + {X.Hash()} == {B1.Hash(), X.Hash()};
    assert {B2.Hash(), C.Hash()} - {X.Hash()} == {B2.Hash(), C.Hash()};
  }

  lemma StallRoundThree()
    ensures PurgeRound(Shifting, U9) == U9
  {
    hide Purge;
    OneLaneRound(U9);
    var q, bad := [Done(C)], {B1.Hash(), X.Hash()};
    assert q[..0] == [] && !Doomed(Verifying, bad, q[0]);
    assert Drop(q, Verifying, bad) == [];
    EmptyDrop(Shifting, U9, Verifying);
  }

  lemma StallReport()
    ensures DoneDrain(Shifting, U6, [B1.Hash()]) == U9
  {
    hide PurgeRound, CollectUnknownBad;
    var bad := [B1.Hash()];
    assert (set h | h in bad) == {B1.Hash()};
    assert {} + {B1.Hash()} == {B1.Hash()} && {GENESIS} + ({B1.Hash()} - {B1.Hash()}) == {GENESIS};
    NothingMarked(U7, B1.Hash());
    StallRoundOne();
    StallRoundTwo();
    StallRoundThree();
    assert PurgeLoop(Shifting, U9) == U9;
    assert PurgeLoop(Shifting, U8) == U9;
    assert PurgeLoop(Shifting, U7) == U9;
    assert bad[1..] == [] && UpdateAll(Shifting, U9, []) == U9;
  }

  lemma IntoStallRun()
    ensures AnyRun(Shifting, S5, IntoStall, U9)
  {
    StallImports();
    StallTakes();
    StallFinishes();
    StallReport();
    hide Import, DoneDrain, Finish, Take;
    var es := IntoStall;
    assert es[6..][1..] == [] && AnyRun(Shifting, U6, es[6..], U9);
    assert es[5..][1..] == es[6..] && AnyRun(Shifting, U5, es[5..], U9);
    assert es[4..][1..] == es[5..] && AnyRun(Shifting, U4, es[4..], U9);
    assert es[3..][1..] == es[4..] && AnyRun(Shifting, U3, es[3..], U9);
    assert es[2..][1..] == es[3..] && AnyRun(Shifting, U2, es[2..], U9);
    assert es[1..][1..] == es[2..] && AnyRun(Shifting, U1, es[1..], U9);
  }

  const FiveSteps := [EImport(B1, FINE)] + ([ETake] + ([EFinish(B1)] + ([EDrain(1)] + ([EImport(B2, QUEUED)] + []))))

  lemma RunToS5()
    ensures Run(Shifting, EmptyQueue, FiveSteps, S5)
  {
    hide Leads, Run;
    Imports();
    Verification();
    Draining();
    assert Run(Shifting, S5, [], S5) by { RunNothing(S5); }
    RunOne(S4, EImport(B2, QUEUED), S5, [], S5);
    RunOne(S3, EDrain(1), S4, [EImport(B2, QUEUED)] + [], S5);
    RunOne(S2, EFinish(B1), S3, [EDrain(1)] + ([EImport(B2, QUEUED)] + []), S5);
    RunOne(S1, ETake, S2, [EFinish(B1)] + ([EDrain(1)] + ([EImport(B2, QUEUED)] + [])), S5);
    RunOne(EmptyQueue, EImport(B1, FINE), S1,
           [ETake] + ([EFinish(B1)] + ([EDrain(1)] + ([EImport(B2, QUEUED)] + []))), S5);
  }

  /** Block 1, drained, is reported bad while its child and two other blocks are under verification, one of them
      finished: the child is lost, the last block is condemned although its parent is in the chain, and the finished
      one is first for good. */
  lemma TheCodeStalls()
    ensures AnyRun(Shifting, EmptyQueue, FiveSteps + IntoStall, U9)
    ensures Stalled(U9) && B2.Hash() in Strays(U9)
    ensures X.Hash() in U9.knownBad && X.parent in U9.chain
  {
    hide AnyRun;
    RunToS5();
    IntoStallRun();
    CleanThenAny(EmptyQueue, FiveSteps, S5, IntoStall, U9);
    assert Pipeline(U9) == [C];
  }
}
