/** What an import is answered and what it lets in. Each answer is tied to the sets before the call and to
    what the chain and the clock say; over whole runs, whatever is in line or waiting has passed the checks. */
module QueueImports {
  import opened QueueState
  import opened QueueInvariant
  import opened QueueSafety
  import opened QueuePurge
  import opened QueueRuns
  import opened QueueAllRuns
  import opened QueueConservation

  /** The queue has the hash in one of its four sets. */
  ghost predicate Filed(s: State, h: Hash) {
    h in s.ready + s.draining + s.unknownSet + s.knownBad
  }

  /** What must hold of a block before it can join the line or wait. */
  ghost predicate Admissible(a: Answers) {
    !a.malformed && !a.inChain && !a.irreversible && !a.inFuture
  }

  ghost predicate ParentAtHand(s: State, b: Block, a: Answers) {
    b.parent in s.ready + s.draining || a.parentInChain
  }

  /** When each answer is given; the six refusals change nothing. */
  lemma AnswerExact(m: Removal, s: State, b: Block, a: Answers)
    ensures var (t, r) := Import(m, s, b, a);
            var filed, unseen := Filed(s, b.Hash()), !Filed(s, b.Hash()) && !a.malformed && !a.inChain;
            && (r == AlreadyKnown <==> filed)
            && (r == Malformed <==> !filed && a.malformed)
            && (r == AlreadyInChain <==> !filed && !a.malformed && a.inChain)
            && (r == Irreversible <==> unseen && a.irreversible)
            && (r == FutureTimeKnown <==> unseen && !a.irreversible && a.inFuture && ParentAtHand(s, b, a))
            && (r == FutureTimeUnknown <==> unseen && !a.irreversible && a.inFuture && !ParentAtHand(s, b, a))
            && (r == BadChain <==> !filed && Admissible(a) && b.parent in s.knownBad)
            && (r == UnknownParent <==>
                  !filed && Admissible(a) && b.parent !in s.knownBad && !ParentAtHand(s, b, a))
            && (r == Success <==> !filed && Admissible(a) && b.parent !in s.knownBad && ParentAtHand(s, b, a))
            && (r !in {BadChain, UnknownParent, Success} ==> t == s)
  {
    hide UpdateBad, NoteReady;
  }

  /** Where a block goes that is let in: to the end of the line, followed by everything that waited for it, or
      among the waiting. */
  lemma LetInExact(m: Removal, s: State, b: Block, a: Answers)
    requires Settled(s)
    ensures var (t, r) := Import(m, s, b, a);
            && (r == UnknownParent ==>
                  t == s.(unknown := s.unknown + [b], unknownSet := s.unknownSet + {b.Hash()}))
            && (r == Success ==>
                  && Pipeline(s) + [b] <= Pipeline(t) && s.enqueued + [b] <= t.enqueued
                  && t.verified == s.verified && t.verifying == s.verifying
                  && t.ready == s.ready + Hashes(Pipeline(t)[|Pipeline(s)|..])
                  && t.enqueued[|s.enqueued|..] == Pipeline(t)[|Pipeline(s)|..]
                  && (forall c :: c in s.unknown <==> c in t.unknown || c in t.enqueued[|s.enqueued| + 1..])
                  && (forall c :: c in t.unknown ==> c.parent !in t.ready - s.ready)
                  && Anchored(t.enqueued[|s.enqueued| + 1..], {b.Hash()}))
  {
    hide InLine, JobsMatch, Waiting, DoneReady, UpdateBad, UniqueHashes, Harvest, Pipeline, Hashes, Anchored;
    var (t, r) := Import(m, s, b, a);
    if r == Success { SuccessExact(s, b, t.chain); }
  }

  lemma SuccessExact(s: State, b: Block, chain: set<Hash>)
    requires Disjoint(s) && b.Hash() !in s.unknownSet && b.Hash() !in s.ready
    ensures var t := Accept(s, b, chain);
            && Pipeline(s) + [b] <= Pipeline(t) && s.enqueued + [b] <= t.enqueued
            && t.verified == s.verified && t.verifying == s.verifying
            && t.ready == s.ready + Hashes(Pipeline(t)[|Pipeline(s)|..])
            && t.enqueued[|s.enqueued|..] == Pipeline(t)[|Pipeline(s)|..]
            && (forall c :: c in s.unknown <==> c in t.unknown || c in t.enqueued[|s.enqueued| + 1..])
            && (forall c :: c in t.unknown ==> c.parent !in t.ready - s.ready)
            && Anchored(t.enqueued[|s.enqueued| + 1..], {b.Hash()})
  {
    hide UniqueHashes, Harvest, Pipeline, Hashes, Anchored;
    var t, added := Accept(s, b, chain), Accepted(s, b);
    AcceptPipeline(s, b, chain);
    AcceptedFacts(s, b);
    HarvestPartition(s.unknown, [b.Hash()]);
    HarvestAnchored(s.unknown, [b.Hash()]);
    assert Elems([b.Hash()]) == {b.Hash()};
    assert Pipeline(t)[|Pipeline(s)|..] == added && t.enqueued[|s.enqueued|..] == added;
    assert t.enqueued[|s.enqueued| + 1..] == added[1..] == Harvest(s.unknown, [b.Hash()]).1;
    assert added[..1] == [b];
    assert Pipeline(s) + added == Pipeline(s) + [b] + added[1..];
    assert s.enqueued + added == s.enqueued + [b] + added[1..];
  }

  // ----- draining

  /** A batch is handed out only when the last one is done: the oldest verified blocks, as many as asked for or as
      there are. They leave the ready set for the draining one, and nothing else changes. */
  lemma DrainForm(s: State, max: nat)
    ensures var t, batch := Drain(s, max), DrainBatch(s, max);
            && t == s.(verified := t.verified, draining := t.draining, ready := t.ready, drained := s.drained + batch)
            && Blocks(s.verified) == batch + Blocks(t.verified)
            && |batch| == (if s.draining != {} then 0 else if max < |s.verified| then max else |s.verified|)
            && t.draining == s.draining + Hashes(batch) && t.ready == s.ready - Hashes(batch)
            && (|batch| == 0 ==> t == s)
  {
    var batch := DrainBatch(s, max);
    assert s.verified == s.verified[..|batch|] + s.verified[|batch|..];
    BlocksAppend(s.verified[..|batch|], s.verified[|batch|..]);
    if |batch| == 0 {
      HashesNone();
      assert s.drained + [] == s.drained && s.verified[0..] == s.verified;
      assert s.draining + {} == s.draining && s.ready - {} == s.ready;
    }
  }

  /** A report ends the draining and marks every block it names. */
  lemma DoneDrainForm(m: Removal, s: State, bad: seq<Hash>)
    ensures var t := DoneDrain(m, s, bad); t.draining == {} && forall h :: h in bad ==> h in t.knownBad
  {
    hide UpdateAll;
    ReportsGrow(m, AfterDrain(s, bad), bad);
    ReportsKeepDraining(m, AfterDrain(s, bad), bad);
  }

  lemma {:induction false} ReportsKeepDraining(m: Removal, s: State, bad: seq<Hash>)
    ensures UpdateAll(m, s, bad).draining == s.draining
    decreases |bad|
  {
    hide PurgeLoop, Harvest;
    if bad != [] {
      LoopKeepsDraining(m, CollectUnknownBad(s, bad[0]));
      ReportsKeepDraining(m, UpdateBad(m, s, bad[0]), bad[1..]);
    }
  }

  lemma {:induction false} LoopKeepsDraining(m: Removal, s: State)
    ensures PurgeLoop(m, s).draining == s.draining
    decreases |Pipeline(s)|
  {
    hide Purge;
    RoundShrinks(m, s);
    PurgeKeepsDraining(m, s, Verified);
    PurgeKeepsDraining(m, Purge(m, s, Verified), Unverified);
    PurgeKeepsDraining(m, Purge(m, Purge(m, s, Verified), Unverified), Verifying);
    var t := PurgeRound(m, s);
    if |Pipeline(t)| < |Pipeline(s)| { LoopKeepsDraining(m, t); }
  }

  lemma PurgeKeepsDraining(m: Removal, s: State, lane: Lane)
    ensures Purge(m, s, lane).draining == s.draining
  {
    var q := LaneOf(s, lane);
    MarkAllKeepsLanes(WithLane(s, lane, Keep(q, lane, s.knownBad)), CellHashes(lane, Handed(m, q, lane, s.knownBad)));
  }

  // ----- what stands in line has passed

  /** The event brings the block in, past all checks. */
  ghost predicate Brings(e: Event, b: Block) {
    e.EImport? && e.b == b && Admissible(e.a)
  }

  lemma ImportBrings(m: Removal, s: State, c: Block, a: Answers, b: Block)
    requires var t := Import(m, s, c, a).0; b in t.enqueued || b in t.unknown
    ensures b in s.enqueued || b in s.unknown || Brings(EImport(c, a), b)
  {
    hide UpdateBad, NoteReady;
    match Import(m, s, c, a).1
    case BadChain =>
      UpdateBrings(m, s.(knownBad := s.knownBad + {c.Hash()}), c.Hash());
    case Success =>
      var chain := if c.parent in s.ready || c.parent in s.draining then s.chain else s.chain + {c.parent};
      AdmittedWaited(s.(unverified := s.unverified + [Pending(c)], ready := s.ready + {c.Hash()},
                        enqueued := s.enqueued + [c], chain := chain), c.Hash());
    case _ =>
  }

  lemma AdmittedWaited(s: State, h: Hash)
    ensures var t := NoteReady(s, h);
            && (forall b :: b in t.unknown ==> b in s.unknown)
            && (forall b :: b in t.enqueued ==> b in s.enqueued || b in s.unknown)
  {
    hide Harvest;
    HarvestPartition(s.unknown, [h]);
  }

  lemma UpdateBrings(m: Removal, s: State, h: Hash)
    ensures var t := UpdateBad(m, s, h);
            t.enqueued == s.enqueued && forall b :: b in t.unknown ==> b in s.unknown
  {
    hide PurgeLoop, Harvest;
    HarvestPartition(s.unknown, [h]);
    LoopCulls(m, CollectUnknownBad(s, h));
    LoopEnqueues(m, CollectUnknownBad(s, h));
  }

  lemma {:induction false} LoopEnqueues(m: Removal, s: State)
    ensures PurgeLoop(m, s).enqueued == s.enqueued
    decreases |Pipeline(s)|
  {
    hide Purge;
    RoundShrinks(m, s);
    PurgeEnqueues(m, s, Verified);
    PurgeEnqueues(m, Purge(m, s, Verified), Unverified);
    PurgeEnqueues(m, Purge(m, Purge(m, s, Verified), Unverified), Verifying);
    var t := PurgeRound(m, s);
    if |Pipeline(t)| < |Pipeline(s)| { LoopEnqueues(m, t); }
  }

  lemma PurgeEnqueues(m: Removal, s: State, lane: Lane)
    ensures Purge(m, s, lane).enqueued == s.enqueued
  {
    var q := LaneOf(s, lane);
    MarkAllKeepsLanes(WithLane(s, lane, Keep(q, lane, s.knownBad)), CellHashes(lane, Handed(m, q, lane, s.knownBad)));
  }

  lemma {:induction false} ReportsBring(m: Removal, s: State, bad: seq<Hash>)
    ensures var t := UpdateAll(m, s, bad);
            t.enqueued == s.enqueued && forall b :: b in t.unknown ==> b in s.unknown
    decreases |bad|
  {
    hide UpdateBad;
    if bad != [] {
      UpdateBrings(m, s, bad[0]);
      ReportsBring(m, UpdateBad(m, s, bad[0]), bad[1..]);
    }
  }

  lemma {:induction false} DrainBrings(s: State)
    ensures DrainVerified(s).enqueued == s.enqueued && DrainVerified(s).unknown == s.unknown
    decreases |s.verifying|
  {
    if s.verifying != [] && s.verifying[0].Done? { DrainBrings(DrainFront(s)); }
  }

  lemma StepBrings(m: Removal, s: State, e: Event, b: Block)
    requires Enabled(s, e) && var t := Step(m, s, e); b in t.enqueued || b in t.unknown
    ensures b in s.enqueued || b in s.unknown || Brings(e, b)
  {
    hide DrainVerified, Import, UpdateAll;
    match e
    case EImport(c, a) => ImportBrings(m, s, c, a, b);
    case ETake =>
    case EFail(w) =>
      DrainBrings(s.(ready := s.ready - {w.Hash()}, knownBad := s.knownBad + {w.Hash()},
                     verifying := Untagged(s.verifying, w.Hash()), jobs := s.jobs - {w}));
    case EFinish(w) =>
      var u := s.(jobs := s.jobs - {w}, verifying := if s.verifying == [] then [] else s.verifying[1..]);
      DrainBrings(u.(ready := u.ready - {w.Hash()}, knownBad := u.knownBad + {w.Hash()}));
      DrainBrings(u.(verified := u.verified + [Done(w)]));
    case EDrain(_) =>
    case EDoneDrain(bad) => ReportsBring(m, AfterDrain(s, bad), bad);
  }

  lemma {:induction false} RunBrings(m: Removal, s: State, es: seq<Event>, t: State, b: Block)
    requires AnyRun(m, s, es, t) && (b in t.enqueued || b in t.unknown)
    ensures b in s.enqueued || b in s.unknown || exists e :: e in es && Brings(e, b)
    decreases |es|
  {
    hide Brings, Step;
    if es != [] {
      var u := Step(m, s, es[0]);
      RunBrings(m, u, es[1..], t, b);
      if e :| e in es[1..] && Brings(e, b) {
        assert e in es;
      } else {
        StepBrings(m, s, es[0], b);
        assert es[0] in es;
      }
    }
  }

  /** Over every run, as coded: a block that is waiting, in line, in a verifier's hands or drained came in by an
      import that found it well-formed, not in the chain, not below the irreversible block and not ahead of time. */
  lemma OnlyCheckedBlocks(m: Removal, es: seq<Event>, t: State, b: Block)
    requires AnyRun(m, EmptyQueue, es, t)
    requires b in t.unknown || b in t.enqueued || b in Pipeline(t) || b in t.drained
    ensures exists e :: e in es && Brings(e, b)
  {
    hide Brings, Pipeline;
    AllRunsSettle(m, es, t);
    if b in Pipeline(t) || b in t.drained {
      SubseqMembers(t.drained + Pipeline(t), t.enqueued);
      assert b in t.drained + Pipeline(t);
    }
    RunBrings(m, EmptyQueue, es, t, b);
  }

  lemma {:induction false} SubseqMembers(a: seq<Block>, b: seq<Block>)
    requires Subseq(a, b)
    ensures forall x :: x in a ==> x in b
    decreases |b|
  {
    if a != [] {
      if b != [] && a[|a| - 1] == b[|b| - 1] && Subseq(a[..|a| - 1], b[..|b| - 1]) {
        SubseqMembers(a[..|a| - 1], b[..|b| - 1]);
        assert a == a[..|a| - 1] + [a[|a| - 1]];
      } else {
        SubseqMembers(a, b[..|b| - 1]);
      }
    }
  }
}
