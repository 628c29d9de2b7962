/** Every interleaving of the queue's critical sections keeps the invariant. */
module QueueRuns {
  import opened QueueState
  import opened QueueInvariant
  import opened QueueSafety
  import opened QueueUpdateBad

  // ----- verification

  /** The parent of a verified block is verified too, or no longer ready. */
  lemma VerifiedParents(s: State, e: Entry)
    requires Core(s, {}) && e in s.verified && e.b.parent in s.ready
    ensures e.b.parent in Hashes(Blocks(s.verified))
  {
    hide Subseq, UniqueHashes, Waiting, JobsMatch, Pipeline;
    var a, b := Blocks(s.verified), Blocks(s.verifying) + Blocks(s.unverified);
    PipelineSplit(s);
    assert Pipeline(s) == a + b;
    AnchoredParts(a, b, Roots(s) + {});
    hide Anchored, Hashes;
    var i :| 0 <= i < |s.verified| && s.verified[i] == e;
    assert a[i] == e.b;
    AnchoredAt(a, Roots(s) + {}, i);
    HashesAppend(a[..i], a[i..]);
    assert a[..i] + a[i..] == a;
  }

  lemma AnchoredAt(q: seq<Block>, roots: set<Hash>, i: nat)
    requires Anchored(q, roots) && i < |q|
    ensures q[i].parent in roots || q[i].parent in Hashes(q[..i])
  {
  }

  /** A block under verification turns bad: it leaves its slot, and no verified block is its child. */
  lemma SlotTurnsBad(s: State, h: Hash, slots: seq<Entry>, jobs: set<Block>)
    requires Core(s, {}) && NoBadParent(s.verified, s.knownBad)
    requires h in Hashes(Blocks(s.verifying))
    requires Blocks(slots) == Without(Blocks(s.verifying), {h})
    requires var t := s.(verifying := slots, ready := s.ready - {h}, knownBad := s.knownBad + {h}, jobs := jobs);
             JobsMatch(t, {})
    ensures Inv(s.(verifying := slots, ready := s.ready - {h}, knownBad := s.knownBad + {h}, jobs := jobs))
  {
    hide UniqueHashes, Anchored, Subseq, Without, JobsMatch;
    var t := s.(verifying := slots, ready := s.ready - {h}, knownBad := s.knownBad + {h}, jobs := jobs);
    var p := Pipeline(s);
    PipelineSplit(s);
    PipelineSplit(t);
    WithoutOneOfThree(Blocks(s.verified), Blocks(s.verifying), Blocks(s.unverified), {h});
    assert Pipeline(t) == Without(p, {h});
    WithoutMembers(p, {h});
    WithoutUnique(p, {h});
    WithoutAnchored(p, {h}, Roots(s) + {});
    assert Roots(s) + {} + {h} == Roots(t) + {};
    SubseqWithout(s.drained, p, s.enqueued, {h});
    forall e | e in t.verified ensures e.b.parent !in t.knownBad {
      if e.b.parent == h { VerifiedParents(s, e); }
    }
  }

  /** Dropping the first slot is dropping its hash. */
  lemma FirstSlot(q: seq<Entry>)
    requires q != [] && UniqueHashes(Blocks(q))
    ensures Blocks(q[1..]) == Without(Blocks(q), {q[0].b.Hash()})
    ensures q[0].b.Hash() in Hashes(Blocks(q))
    ensures forall e :: e in q[1..] <==> e in q && e.b.Hash() != q[0].b.Hash()
  {
    var h := q[0].b.Hash();
    assert Blocks(q) == [q[0].b] + Blocks(q[1..]);
    UniqueParts([q[0].b], Blocks(q[1..]));
    assert q[0].b in [q[0].b];
    WithoutAppend([q[0].b], Blocks(q[1..]), {h});
    WithoutNone(Blocks(q[1..]), {h});
    assert Without([q[0].b], {h}) == [];
    assert Blocks(q)[0] == q[0].b;
    forall e | e in q ensures e in q[1..] <==> e.b.Hash() != h {
      var i :| 0 <= i < |q| && q[i] == e;
      assert i > 0 ==> q[1..][i - 1] == e;
      if e in q[1..] { InBlocks(q[1..], e.b); }
    }
  }

  lemma VerifyingUnique(s: State)
    requires UniqueHashes(Pipeline(s))
    ensures UniqueHashes(Blocks(s.verifying))
    ensures Hashes(Blocks(s.verifying)) <= Hashes(Pipeline(s))
  {
    PipelineSplit(s);
    WithoutOneOfThree(Blocks(s.verified), Blocks(s.verifying), Blocks(s.unverified), {});
  }

  /** Moving blocks along the pipeline without changing it. */
  lemma SamePipelineCore(s: State, t: State)
    requires Core(s, {}) && Pipeline(t) == Pipeline(s) && JobsMatch(t, {})
    requires t == s.(verified := t.verified, verifying := t.verifying, unverified := t.unverified, jobs := t.jobs)
    ensures Core(t, {})
  {
    hide JobsMatch, Subseq, Anchored;
    assert Roots(t) + {} == Roots(s) + {};
  }

  lemma SamePipeline(s: State, t: State)
    requires Inv(s) && Pipeline(t) == Pipeline(s)
    requires t == s.(verified := t.verified, verifying := t.verifying, unverified := t.unverified, jobs := t.jobs)
    requires JobsMatch(t, {}) && NoBadParent(t.verified, t.knownBad)
    ensures Inv(t)
  {
    hide Core, JobsMatch;
    SamePipelineCore(s, t);
  }

  /** The first slot's block moves on to the verified queue. */
  lemma SlotTurnsVerified(s: State, jobs: set<Block>)
    requires Inv(s)
    requires s.verifying != [] && s.verifying[0].b.parent !in s.knownBad
    requires var b := s.verifying[0].b;
             JobsMatch(s.(verifying := s.verifying[1..], verified := s.verified + [Done(b)], jobs := jobs), {})
    ensures var b := s.verifying[0].b;
            Inv(s.(verifying := s.verifying[1..], verified := s.verified + [Done(b)], jobs := jobs))
  {
    hide Core, JobsMatch;
    var b := s.verifying[0].b;
    var t := s.(verifying := s.verifying[1..], verified := s.verified + [Done(b)], jobs := jobs);
    assert Pipeline(t) == Pipeline(s);
    SamePipeline(s, t);
  }

  /** One turn of the loop in `drainVerified`. */
  function DrainFront(s: State): State
    requires s.verifying != []
  {
    var e, t := s.verifying[0], s.(verifying := s.verifying[1..]);
    if e.b.parent in s.knownBad
    then t.(ready := t.ready - {e.b.Hash()}, knownBad := t.knownBad + {e.b.Hash()})
    else t.(verified := t.verified + [e])
  }

  lemma DrainFrontInv(s: State)
    requires Inv(s) && s.verifying != [] && s.verifying[0].Done?
    ensures Inv(DrainFront(s))
  {
    var e, u := s.verifying[0], DrainFront(s);
    VerifyingUnique(s);
    FirstSlot(s.verifying);
    assert JobsMatch(u, {});
    if e.b.parent in s.knownBad {
      var h := e.b.Hash();
      assert u == s.(verifying := s.verifying[1..], ready := s.ready - {h}, knownBad := s.knownBad + {h},
          jobs := s.jobs);
      SlotTurnsBad(s, h, s.verifying[1..], s.jobs);
    } else {
      assert u == s.(verifying := s.verifying[1..], verified := s.verified + [Done(e.b)], jobs := s.jobs);
      SlotTurnsVerified(s, s.jobs);
    }
  }

  lemma {:induction false} DrainVerifiedInv(s: State)
    requires Inv(s)
    ensures Inv(DrainVerified(s))
    decreases |s.verifying|
  {
    hide Inv;
    if s.verifying != [] && s.verifying[0].Done? {
      DrainFrontInv(s);
      DrainVerifiedInv(DrainFront(s));
    }
  }

  /** No verifier is running for a block that is still unverified. */
  lemma FreshJob(s: State, v: Block)
    requires Core(s, {}) && s.unverified != [] && v in s.jobs
    ensures v.Hash() != s.unverified[0].b.Hash()
  {
    var b := s.unverified[0].b;
    PipelineSplit(s);
    WithoutOneOfThree(Blocks(s.verified), Blocks(s.verifying), Blocks(s.unverified), {});
    assert Blocks(s.unverified)[0] == b && b in Blocks(s.unverified);
    assert b.Hash() in Hashes(Blocks(s.unverified));
    if Pending(v) in s.verifying { InBlocks(s.verifying, v); }
  }

  lemma TakeCore(s: State)
    requires Core(s, {}) && s.unverified != []
    ensures Core(Take(s), {})
  {
    var t, b := Take(s), s.unverified[0].b;
    assert Pipeline(t) == Pipeline(s);
    assert JobsMatch(t, {}) by {
      forall v | v in s.jobs ensures v.Hash() != b.Hash() { FreshJob(s, v); }
    }
    SamePipelineCore(s, t);
  }

  lemma TakeInv(s: State)
    requires Inv(s) && s.unverified != []
    ensures Inv(Take(s))
  {
    hide Core;
    TakeCore(s);
  }

  /** Slots tagged with a header hash are the pending ones of that block. */
  lemma {:induction false} UntaggedIsWithout(q: seq<Entry>, h: Hash)
    requires h.HeaderHash? && forall e :: e in q && e.Done? ==> e.b.Hash() != h
    ensures Blocks(Untagged(q, h)) == Without(Blocks(q), {h})
    ensures forall e :: e in Untagged(q, h) <==> e in q && e.b.Hash() != h
    decreases |q|
  {
    if q != [] {
      var p, l := q[..|q|-1], q[|q|-1];
      assert q == p + [l];
      UntaggedIsWithout(p, h);
      assert Blocks(q)[..|q|-1] == Blocks(p) && Blocks(q)[|q|-1] == l.b;
      if l.b.Hash() != h {
        BlocksAppend(Untagged(p, h), [l]);
      } else {
        assert Untagged(q, h) == Untagged(p, h);
        assert Without(Blocks(q), {h}) == Without(Blocks(p), {h});
      }
    }
  }

  lemma JobSlot(s: State, w: Block)
    requires Core(s, {}) && w in s.jobs
    ensures forall e :: e in s.verifying && e.b.Hash() == w.Hash() ==> e == Pending(w)
    ensures w.Hash() in s.knownBad <==> Pending(w) !in s.verifying
    ensures Pending(w) in s.verifying <==> w.Hash() in Hashes(Blocks(s.verifying))
  {
    VerifyingUnique(s);
    forall e | e in s.verifying && e.b.Hash() == w.Hash() ensures e == Pending(w) {
      InBlocks(s.verifying, e.b);
      assert e.b.Hash() in Hashes(Blocks(s.verifying));
      assert e.b.Hash() in s.ready;
      UniqueEntries(s.verifying, e, Pending(w));
    }
    if Pending(w) in s.verifying {
      InBlocks(s.verifying, w);
      assert w.Hash() in Hashes(Blocks(s.verifying));
    }
    if w.Hash() in Hashes(Blocks(s.verifying)) {
      var b :| b in Blocks(s.verifying) && b.Hash() == w.Hash();
      InBlocks(s.verifying, b);
    }
  }

  lemma JobsAfterFail(s: State, w: Block)
    requires Core(s, {}) && w in s.jobs
    ensures var h := w.Hash();
            && JobsMatch(s.(ready := s.ready - {h}, knownBad := s.knownBad + {h},
                            verifying := Untagged(s.verifying, h), jobs := s.jobs - {w}), {})
            && Blocks(Untagged(s.verifying, h)) == Without(Blocks(s.verifying), {h})
  {
    hide UniqueHashes, Anchored, Subseq, Without, Waiting, Accounted;
    JobSlot(s, w);
    UntaggedIsWithout(s.verifying, w.Hash());
  }

  lemma FailInv(s: State, w: Block)
    requires Inv(s) && w in s.jobs
    ensures Inv(Fail(s, w))
  {
    hide UniqueHashes, Anchored, Subseq, Without, Waiting, NoBadParent, JobsMatch, Untagged, Hashes, Pipeline;
    var h := w.Hash();
    JobSlot(s, w);
    JobsAfterFail(s, w);
    var slots := Untagged(s.verifying, h);
    var t := s.(ready := s.ready - {h}, knownBad := s.knownBad + {h}, verifying := slots, jobs := s.jobs - {w});
    if Pending(w) in s.verifying {
      SlotTurnsBad(s, h, slots, s.jobs - {w});
    } else {
      WithoutNone(Blocks(s.verifying), {h});
      StaleJob(s, t);
    }
    DrainVerifiedInv(t);
  }

  /** A verifier whose slot was taken away changes nothing. */
  lemma StaleJob(s: State, t: State)
    requires Inv(s) && JobsMatch(t, {})
    requires Blocks(t.verifying) == Blocks(s.verifying) && t == s.(verifying := t.verifying, jobs := t.jobs)
    ensures Inv(t)
  {
    hide Core, JobsMatch;
    PipelineSplit(s);
    PipelineSplit(t);
    SamePipeline(s, t);
  }

  /** `replace` overwrites the first slot with the tag, if there is one. */
  lemma {:induction false} ReplacedFirst(q: seq<Entry>, h: Hash, e: Entry, k: nat)
    requires k <= |q| && (forall i :: 0 <= i < k ==> q[i].Tag() != h) && (k < |q| ==> q[k].Tag() == h)
    ensures Replaced(q, h, e) == if k < |q| then q[k := e] else q
    decreases |q|
  {
    if q != [] && k > 0 {
      assert q[0].Tag() != h;
      forall i | 0 <= i < k - 1 ensures q[1..][i].Tag() != h { assert q[1..][i] == q[i + 1]; }
      ReplacedFirst(q[1..], h, e, k - 1);
      assert q == [q[0]] + q[1..];
      if k < |q| { assert q[k := e] == [q[0]] + q[1..][k - 1 := e]; }
    }
  }

  lemma StaleFinish(s: State, w: Block)
    requires Inv(s) && w in s.jobs && Pending(w) !in s.verifying
    ensures Finish(s, w) == s.(jobs := s.jobs - {w}) && Inv(Finish(s, w))
  {
    JobSlot(s, w);
    forall e | e in s.verifying ensures e.Tag() != w.Hash() { }
    ReplacedFirst(s.verifying, w.Hash(), Done(w), |s.verifying|);
    StaleJob(s, s.(jobs := s.jobs - {w}));
  }

  lemma SlotIndex(s: State, w: Block) returns (k: nat)
    requires Core(s, {}) && w in s.jobs && Pending(w) in s.verifying
    ensures k < |s.verifying| && s.verifying[k] == Pending(w)
    ensures forall i :: 0 <= i < |s.verifying| && i != k ==> s.verifying[i].b.Hash() != w.Hash()
  {
    hide Anchored, Subseq, Waiting, JobsMatch;
    VerifyingUnique(s);
    var q := s.verifying;
    k :| 0 <= k < |q| && q[k] == Pending(w);
    forall i | 0 <= i < |q| && i != k ensures q[i].b.Hash() != w.Hash() {
      assert Blocks(q)[i].Hash() != Blocks(q)[k].Hash();
    }
  }

  lemma FinishBehind(s: State, w: Block)
    requires Inv(s) && w in s.jobs && Pending(w) in s.verifying && s.verifying[0].Tag() != w.Hash()
    ensures Inv(Finish(s, w))
  {
    hide Accounted, Anchored, Subseq, Waiting, NoBadParent;
    var q := s.verifying;
    var k := SlotIndex(s, w);
    ReplacedFirst(q, w.Hash(), Done(w), k);
    var t := s.(verifying := q[k := Done(w)], jobs := s.jobs - {w});
    assert Blocks(t.verifying) == Blocks(q);
    forall v | v in t.jobs && Pending(v) in q ensures Pending(v) in t.verifying {
      var i :| 0 <= i < |q| && q[i] == Pending(v);
      assert t.verifying[i] == Pending(v);
    }
    assert JobsMatch(t, {});
    StaleJob(s, t);
  }

  lemma FirstIsPending(s: State, w: Block)
    requires Inv(s) && w in s.jobs && s.verifying != [] && s.verifying[0].Tag() == w.Hash()
    ensures s.verifying[0] == Pending(w)
  {
    hide Accounted, Anchored, Subseq, Waiting, UniqueHashes, NoBadParent, JobsMatch;
    JobSlot(s, w);
    assert s.verifying[0] in s.verifying;
  }

  lemma JobsWithout(s: State, w: Block, t: State)
    requires JobsMatch(s, {}) && w in s.jobs && t.jobs == s.jobs - {w} && s.knownBad <= t.knownBad
    requires forall e :: e in t.verifying <==> e in s.verifying && e.b.Hash() != w.Hash()
    ensures JobsMatch(t, {})
  {
  }

  lemma JobsAfterFirst(s: State, w: Block, t: State)
    requires Inv(s) && w in s.jobs && s.verifying != [] && s.verifying[0].Tag() == w.Hash()
    requires t.verifying == s.verifying[1..] && t.jobs == s.jobs - {w} && s.knownBad <= t.knownBad
    ensures s.verifying[0] == Pending(w) && JobsMatch(t, {})
  {
    hide Anchored, Subseq, Waiting, UniqueHashes, NoBadParent, JobsMatch, Blocks, Hashes;
    FirstIsPending(s, w);
    VerifyingUnique(s);
    FirstSlot(s.verifying);
    JobsWithout(s, w, t);
  }

  lemma FinishFirst(s: State, w: Block)
    requires Inv(s) && w in s.jobs && s.verifying != [] && s.verifying[0].Tag() == w.Hash()
    ensures Inv(Finish(s, w))
  {
    VerifyingUnique(s);
    hide Core, JobsMatch;
    var h, jobs, rest := w.Hash(), s.jobs - {w}, s.verifying[1..];
    FirstSlot(s.verifying);
    if w.parent in s.knownBad {
      var u := s.(verifying := rest, ready := s.ready - {h}, knownBad := s.knownBad + {h}, jobs := jobs);
      JobsAfterFirst(s, w, u);
      SlotTurnsBad(s, h, rest, jobs);
      DrainVerifiedInv(u);
    } else {
      var u := s.(verifying := rest, verified := s.verified + [Done(w)], jobs := jobs);
      JobsAfterFirst(s, w, u);
      SlotTurnsVerified(s, jobs);
      DrainVerifiedInv(u);
    }
  }

  lemma FinishInv(s: State, w: Block)
    requires Inv(s) && w in s.jobs
    ensures Inv(Finish(s, w))
  {
    JobSlot(s, w);
    if Pending(w) !in s.verifying {
      StaleFinish(s, w);
    } else if s.verifying[0].Tag() == w.Hash() {
      FinishFirst(s, w);
    } else {
      FinishBehind(s, w);
    }
  }

  // ----- import

  lemma ImportUnknownInv(s: State, b: Block)
    requires Inv(s) && b.Hash() !in s.ready && b.Hash() !in s.draining && b.Hash() !in s.unknownSet
    requires b.Hash() !in s.knownBad && b.Hash() !in s.chain
    requires b.parent !in s.ready && b.parent !in s.draining && b.parent !in s.knownBad
    ensures Inv(s.(unknown := s.unknown + [b], unknownSet := s.unknownSet + {b.Hash()}))
  {
    var t := s.(unknown := s.unknown + [b], unknownSet := s.unknownSet + {b.Hash()});
    HashesAppend(s.unknown, [b]);
    assert b in [b] && Hashes([b]) == {b.Hash()};
    UniqueAppend(s.unknown, [b]);
    assert Pipeline(t) == Pipeline(s);
    assert Roots(t) + {} == Roots(s) + {};
  }

  /** The accepted block and everything that was waiting for it, in the order they are queued. */
  ghost function Accepted(s: State, b: Block): seq<Block> {
    [b] + Harvest(s.unknown, [b.Hash()]).1
  }

  lemma AcceptedFacts(s: State, b: Block)
    requires s.unknownSet == Hashes(s.unknown) && UniqueHashes(s.unknown) && b.Hash() !in s.unknownSet
    ensures var (left, moved) := Harvest(s.unknown, [b.Hash()]);
            var added := Accepted(s, b);
            && UniqueHashes(added) && Hashes(added) == {b.Hash()} + Hashes(moved)
            && Hashes(moved) <= s.unknownSet && Hashes(left) == s.unknownSet - Hashes(moved)
            && UniqueHashes(left)
            && (forall c :: c in left ==> c in s.unknown && c.parent !in Hashes(added))
  {
    var h := b.Hash();
    var (left, moved) := Harvest(s.unknown, [h]);
    HarvestPartition(s.unknown, [h]);
    HarvestClosed(s.unknown, [h]);
    UniqueParts(moved, left);
    assert Elems([h]) == {h} && b in [b] && Hashes([b]) == {h};
    HashesAppend([b], moved);
    UniqueAppend([b], moved);
  }

  lemma AcceptedAnchored(s: State, b: Block, roots: set<Hash>)
    requires b.parent in roots
    ensures Anchored(Accepted(s, b), roots)
  {
    var h := b.Hash();
    var moved := Harvest(s.unknown, [h]).1;
    HarvestAnchored(s.unknown, [h]);
    assert Elems([h]) == {h} && b in [b] && Hashes([b]) == {h};
    AnchoredMore(moved, {h}, roots + Hashes([b]));
    AnchoredAppend([b], moved, roots);
  }

  lemma AnchoredMore(q: seq<Block>, roots: set<Hash>, more: set<Hash>)
    requires Anchored(q, roots) && roots <= more
    ensures Anchored(q, more)
  {
  }

  /** The state after an import whose parent is known; `chain` may have learned the parent. */
  function Accept(s: State, b: Block, chain: set<Hash>): State {
    NoteReady(s.(unverified := s.unverified + [Pending(b)], ready := s.ready + {b.Hash()},
                 enqueued := s.enqueued + [b], chain := chain), b.Hash())
  }

  lemma AcceptPipeline(s: State, b: Block, chain: set<Hash>)
    requires s.unknownSet == Hashes(s.unknown) && UniqueHashes(s.unknown) && b.Hash() !in s.unknownSet
    ensures var t := Accept(s, b, chain);
            var added := Accepted(s, b);
            && Pipeline(t) == Pipeline(s) + added && t.enqueued == s.enqueued + added
            && Hashes(Pipeline(t)) == Hashes(Pipeline(s)) + Hashes(added)
            && t.ready == s.ready + Hashes(added)
            && t.unknownSet == s.unknownSet - (Hashes(added) - {b.Hash()})
            && t.unknown == Harvest(s.unknown, [b.Hash()]).0
  {
    hide Harvest, UniqueHashes, Anchored, Subseq;
    AcceptedFacts(s, b);
    var moved := Harvest(s.unknown, [b.Hash()]).1;
    HashesAppend(Pipeline(s), Accepted(s, b));
  }

  lemma AcceptAccounted(s: State, b: Block, chain: set<Hash>)
    requires Core(s, {}) && b.Hash() !in s.ready + s.draining + s.unknownSet + s.knownBad + chain
    requires chain !! (s.ready + s.draining + s.unknownSet + s.knownBad)
    ensures Accounted(Accept(s, b, chain), {})
  {
    hide Harvest, UniqueHashes, Anchored, Subseq, JobsMatch, Accepted, Pipeline, Hashes, Waiting;
    AcceptPipeline(s, b, chain);
    AcceptedFacts(s, b);
    UniqueAppend(Pipeline(s), Accepted(s, b));
  }

  lemma AcceptWaiting(s: State, b: Block, chain: set<Hash>)
    requires Core(s, {}) && b.Hash() !in s.unknownSet
    ensures Waiting(Accept(s, b, chain))
  {
    hide Harvest, UniqueHashes, Anchored, Subseq, JobsMatch, Accepted, Pipeline, Hashes;
    AcceptPipeline(s, b, chain);
    AcceptedFacts(s, b);
  }

  lemma AcceptAnchored(s: State, b: Block, chain: set<Hash>)
    requires Core(s, {}) && b.Hash() !in s.unknownSet && s.chain <= chain
    requires b.parent in s.ready + s.draining + chain
    ensures var t := Accept(s, b, chain); Anchored(Pipeline(t), Roots(t) + {})
  {
    var t, p, added := Accept(s, b, chain), Pipeline(s), Accepted(s, b);
    AcceptPipeline(s, b, chain);
    assert Roots(s) + {} <= Roots(t) + {};
    AcceptedAnchored(s, b, Roots(t) + {} + Hashes(p));
    hide *;
    AnchoredMore(p, Roots(s) + {}, Roots(t) + {});
    AnchoredAppend(p, added, Roots(t) + {});
  }

  lemma AcceptHistory(s: State, b: Block, chain: set<Hash>)
    requires Core(s, {}) && b.Hash() !in s.unknownSet
    ensures var t := Accept(s, b, chain); Subseq(t.drained + Pipeline(t), t.enqueued)
  {
    AcceptPipeline(s, b, chain);
    hide Accounted, Waiting, JobsMatch, Anchored, Subseq, Pipeline, Accepted, Harvest, Hashes;
    SubseqAppend(s.drained + Pipeline(s), s.enqueued, Accepted(s, b));
    Assoc(s.drained, Pipeline(s), Accepted(s, b));
  }

  lemma ImportReadyInv(s: State, b: Block, chain: set<Hash>)
    requires Inv(s) && b.Hash() !in s.ready + s.draining + s.unknownSet + s.knownBad + chain
    requires s.chain <= chain && chain !! (s.ready + s.draining + s.unknownSet + s.knownBad)
    requires b.parent in s.ready + s.draining + chain
    ensures Inv(Accept(s, b, chain))
  {
    AcceptAccounted(s, b, chain);
    AcceptWaiting(s, b, chain);
    AcceptAnchored(s, b, chain);
    AcceptHistory(s, b, chain);
    hide Accounted, UniqueHashes, Anchored, Subseq, Waiting, Pipeline, Harvest;
  }

  /** Whether the purge an event triggers, if any, is clean. */
  ghost predicate CleanEvent(m: Removal, s: State, e: Event)
    requires Enabled(s, e)
  {
    match e
    case EImport(b, a) =>
      Import(m, s, b, a).1 == BadChain ==>
        UpdateClean(m, s.(knownBad := s.knownBad + {b.Hash()}), b.Hash())
    case EDoneDrain(bad) => ReportClean(m, AfterDrain(s, bad), bad)
    case _ => true
  }

  lemma AllDisjoint(s: State)
    requires Inv(s)
    ensures s.ready !! s.draining !! s.unknownSet !! s.knownBad !! s.chain
  {
  }

  lemma ImportBadInv(m: Removal, s: State, h: Hash)
    requires Inv(s) && h.HeaderHash?
    requires h !in s.ready && h !in s.draining && h !in s.unknownSet && h !in s.chain
    requires UpdateClean(m, s.(knownBad := s.knownBad + {h}), h)
    ensures Inv(UpdateBad(m, s.(knownBad := s.knownBad + {h}), h))
  {
    hide Core, UpdateClean, UpdateBad, NoBadParent, ClosedOver;
    UpdateBadExact(m, s, h, {});
    var t := UpdateBad(m, s.(knownBad := s.knownBad + {h}), h);
    assert NoBadParent(LaneOf(t, Verified), t.knownBad);
  }

  lemma ImportInv(m: Removal, s: State, b: Block, a: Answers)
    requires Inv(s) && Enabled(s, EImport(b, a)) && CleanEvent(m, s, EImport(b, a))
    ensures Inv(Import(m, s, b, a).0)
  {
    hide Inv, UpdateClean, NoteReady, UpdateBad;
    AllDisjoint(s);
    match Import(m, s, b, a).1
    case BadChain => ImportBadInv(m, s, b.Hash());
    case UnknownParent => ImportUnknownInv(s, b);
    case Success =>
      var chain := if b.parent in s.ready || b.parent in s.draining then s.chain else s.chain + {b.parent};
      ImportReadyInv(s, b, chain);
    case _ =>
  }

  // ----- draining

  lemma DrainPipeline(s: State, max: nat)
    ensures Pipeline(s) == DrainBatch(s, max) + Pipeline(Drain(s, max))
  {
    var t := Drain(s, max);
    var batch := DrainBatch(s, max);
    assert s.verified == s.verified[..|batch|] + t.verified;
    BlocksAppend(s.verified[..|batch|], t.verified);
    assert batch == Blocks(s.verified[..|batch|]);
    PipelineSplit(s);
    PipelineSplit(t);
    var a, b, c := Blocks(t.verified), Blocks(s.verifying), Blocks(s.unverified);
    assert batch + a + b + c == batch + (a + b + c);
  }

  lemma DrainOrder(s: State, max: nat)
    requires Anchored(Pipeline(s), Roots(s) + {})
    ensures var t := Drain(s, max);
            Anchored(Pipeline(t), Roots(t) + {}) && t.drained + Pipeline(t) == s.drained + Pipeline(s)
  {
    hide Anchored, Pipeline, DrainBatch;
    var t := Drain(s, max);
    var batch := DrainBatch(s, max);
    DrainPipeline(s, max);
    AnchoredParts(batch, Pipeline(t), Roots(s) + {});
    assert Roots(s) + {} + Hashes(batch) == Roots(t) + {};
    Assoc(s.drained, batch, Pipeline(t));
  }

  lemma DrainInv(s: State, max: nat)
    requires Inv(s)
    ensures Inv(Drain(s, max))
  {
    var t := Drain(s, max);
    var batch := DrainBatch(s, max);
    assert forall e :: e in t.verified ==> e in s.verified;
    DrainOrder(s, max);
    DrainPipeline(s, max);
    hide UniqueHashes, Anchored, Subseq, Pipeline, DrainBatch, Roots;
    HashesAppend(batch, Pipeline(t));
    UniqueParts(batch, Pipeline(t));
  }

  /** A drained batch is parents-first: each block's parent is in the chain already or stands
      earlier in the batch. */
  lemma BatchParentsFirst(s: State, max: nat)
    requires Inv(s)
    ensures Anchored(DrainBatch(s, max), s.chain)
    ensures UniqueHashes(DrainBatch(s, max))
  {
    var batch := DrainBatch(s, max);
    var q := Pipeline(Drain(s, max));
    assert Pipeline(s) == batch + q;
    UniqueParts(batch, q);
    AnchoredParts(batch, q, Roots(s) + {});
    forall i | 0 <= i < |batch| ensures batch[i].parent in s.chain || batch[i].parent in Hashes(batch[..i]) {
      assert s.verified[i] in s.verified && batch[i] == s.verified[i].b;
      assert batch[i].parent in Roots(s) + {} || batch[i].parent in Hashes(batch[..i]);
    }
  }

  /** `doneDrain` before it follows up on the reported blocks. */
  function AfterDrain(s: State, bad: seq<Hash>): State {
    var b := set h | h in bad;
    s.(draining := {}, knownBad := s.knownBad + b, chain := s.chain + (s.draining - b))
  }

  lemma AfterDrainCore(s: State, bad: seq<Hash>)
    requires Inv(s) && forall h :: h in bad ==> h in s.draining
    ensures Core(AfterDrain(s, bad), {})
    ensures forall h :: h in bad ==> h in AfterDrain(s, bad).knownBad
  {
    var t := AfterDrain(s, bad);
    var b := set h | h in bad;
    assert Pipeline(t) == Pipeline(s);
    assert Roots(t) + {} == Roots(s) + {};
  }

  lemma DoneDrainInv(m: Removal, s: State, bad: seq<Hash>)
    requires Inv(s) && Enabled(s, EDoneDrain(bad)) && CleanEvent(m, s, EDoneDrain(bad))
    ensures Inv(DoneDrain(m, s, bad))
  {
    var t := AfterDrain(s, bad);
    AfterDrainCore(s, bad);
    UpdateAllExact(m, t, bad, {});
    assert DoneDrain(m, s, bad) == UpdateAll(m, t, bad);
    if bad == [] {
      assert t.knownBad == s.knownBad;
    } else {
      assert NoBadParent(LaneOf(UpdateAll(m, t, bad), Verified), UpdateAll(m, t, bad).knownBad);
    }
  }

  // ----- runs

  lemma StepInv(m: Removal, s: State, e: Event)
    requires Inv(s) && Enabled(s, e) && CleanEvent(m, s, e)
    ensures Inv(Step(m, s, e))
  {
    match e
    case EImport(b, a) => ImportInv(m, s, b, a);
    case ETake => TakeInv(s);
    case EFail(w) => FailInv(s, w);
    case EFinish(w) => FinishInv(s, w);
    case EDrain(max) => DrainInv(s, max);
    case EDoneDrain(bad) => DoneDrainInv(m, s, bad);
  }

  /** `es` is a run from `s` to `t` in which every purge is clean. */
  ghost predicate Run(m: Removal, s: State, es: seq<Event>, t: State)
    decreases |es|
  {
    if es == [] then s == t
    else Enabled(s, es[0]) && CleanEvent(m, s, es[0]) && Run(m, Step(m, s, es[0]), es[1..], t)
  }

  lemma EmptyInv()
    ensures Inv(EmptyQueue)
  {
    assert Pipeline(EmptyQueue) == [];
  }

  lemma {:induction false} RunFrom(m: Removal, s: State, es: seq<Event>, t: State)
    requires Inv(s) && Run(m, s, es, t)
    ensures Inv(t)
    decreases |es|
  {
    if es != [] {
      StepInv(m, s, es[0]);
      RunFrom(m, Step(m, s, es[0]), es[1..], t);
    }
  }

  /** Safety over every run and every interleaving. */
  lemma RunsAreSafe(m: Removal, es: seq<Event>, t: State)
    requires Run(m, EmptyQueue, es, t)
    ensures Inv(t)
  {
    EmptyInv();
    RunFrom(m, EmptyQueue, es, t);
  }

  // ----- when the code departs from its invariant

  /** With the removal its callers expect, every event is clean. */
  lemma PartitioningEventsAreClean(s: State, e: Event)
    requires Enabled(s, e)
    ensures CleanEvent(Partitioning, s, e)
  {
    match e
    case EImport(b, a) =>
      PartitioningIsClean(CollectUnknownBad(s.(knownBad := s.knownBad + {b.Hash()}), b.Hash()));
    case EDoneDrain(bad) => PartitioningReports(AfterDrain(s, bad), bad);
    case _ =>
  }

  lemma {:induction false} PartitioningReports(s: State, bad: seq<Hash>)
    ensures ReportClean(Partitioning, s, bad)
    decreases |bad|
  {
    if bad != [] {
      PartitioningIsClean(CollectUnknownBad(s, bad[0]));
      PartitioningReports(UpdateBad(Partitioning, s, bad[0]), bad[1..]);
    }
  }

  lemma ImportExact(s: State, b: Block, a: Answers)
    requires Inv(s) && Enabled(s, EImport(b, a)) && Import(Shifting, s, b, a).1 == BadChain
    ensures var t := Import(Shifting, s, b, a).0;
            t.ready == Hashes(Pipeline(t)) <==> CleanEvent(Shifting, s, EImport(b, a))
  {
    hide Core, Pipeline, Hashes, UpdateBad, UpdateClean, NoteReady;
    AllDisjoint(s);
    NewlyBadExact(s, b.Hash());
  }

  /** As coded, an event keeps "the ready set is the hashes in the three queues" exactly when every
      `removeIf` it issues finds its victims at the end of the queue. */
  lemma StepExact(s: State, e: Event)
    requires Inv(s) && Enabled(s, e)
    ensures var t := Step(Shifting, s, e);
            t.ready == Hashes(Pipeline(t)) <==> CleanEvent(Shifting, s, e)
  {
    if e.EImport? && Import(Shifting, s, e.b, e.a).1 == BadChain {
      ImportExact(s, e.b, e.a);
    } else if e.EDoneDrain? {
      AfterDrainCore(s, e.bad);
      hide Core;
      ReportsExact(AfterDrain(s, e.bad), e.bad);
    } else {
      StepInv(Shifting, s, e);
    }
  }

  // ----- a run that breaks

  const GENESIS := HeaderHash(0)
  const B1 := Block(1, GENESIS, 0)
  const B2 := Block(2, B1.Hash(), 0)
  const B3 := Block(3, B2.Hash(), 0)
  const FINE := Answers(false, false, false, false, true)
  const QUEUED := Answers(false, false, false, false, false)

  /** A block is verified and drained; meanwhile its child and grandchild are queued. */
  const TwoMore := [EImport(B2, QUEUED)] + ([EImport(B3, QUEUED)] + [])
  const ThreeInARow := [EImport(B1, FINE)] + ([ETake] + ([EFinish(B1)] + ([EDrain(1)] + TwoMore)))

  lemma NothingWaits(s: State, h: Hash)
    requires s.unknown == []
    ensures NoteReady(s, h) == s
  {
    HarvestNothing([], h);
    assert s.unverified + [] == s.unverified && s.enqueued + [] == s.enqueued;
    assert s.unknownSet - {} == s.unknownSet && s.ready + {} == s.ready;
  }

  /** An import that is accepted while nothing waits. */
  lemma PlainImport(s: State, b: Block, a: Answers)
    requires s.unknown == [] && b.Hash() !in s.ready + s.draining + s.unknownSet + s.knownBad
    requires b.parent !in s.knownBad && ParentReady(s, b, a)
    requires !a.malformed && !a.inChain && !a.irreversible && !a.inFuture
    ensures Import(Shifting, s, b, a) ==
            (s.(unverified := s.unverified + [Pending(b)], ready := s.ready + {b.Hash()},
                enqueued := s.enqueued + [b],
                chain := if b.parent in s.ready || b.parent in s.draining then s.chain
                         else s.chain + {b.parent}), Success)
  {
    hide NoteReady, UpdateBad;
    NothingWaits(s.(unverified := s.unverified + [Pending(b)], ready := s.ready + {b.Hash()},
                    enqueued := s.enqueued + [b],
                    chain := if b.parent in s.ready || b.parent in s.draining then s.chain
                             else s.chain + {b.parent}), b.Hash());
  }

  const S1 := EmptyQueue.(ready := {B1.Hash()}, unverified := [Pending(B1)], enqueued := [B1], chain := {GENESIS})
  const S2 := S1.(unverified := [], verifying := [Pending(B1)], jobs := {B1})
  const S3 := S1.(unverified := [], verified := [Done(B1)])
  const S4 := S3.(verified := [], ready := {}, draining := {B1.Hash()}, drained := [B1])
  const S5 := S4.(unverified := [Pending(B2)], ready := {B2.Hash()}, enqueued := [B1, B2])
  const S6 := S5.(unverified := [Pending(B2), Pending(B3)], ready := {B2.Hash(), B3.Hash()}, enqueued := [B1, B2, B3])

  /** The run takes exactly these states. */
  ghost predicate Leads(s: State, e: Event, t: State) {
    Enabled(s, e) && CleanEvent(Shifting, s, e) && Step(Shifting, s, e) == t
  }

  lemma Imports()
    ensures Leads(EmptyQueue, EImport(B1, FINE), S1)
    ensures Leads(S4, EImport(B2, QUEUED), S5) && Leads(S5, EImport(B3, QUEUED), S6)
  {
    hide Import, UpdateClean;
    PlainImport(EmptyQueue, B1, FINE);
    assert [] + [Pending(B1)] == [Pending(B1)] && [] + [B1] == [B1];
    assert {} + {B1.Hash()} == {B1.Hash()} && {} + {GENESIS} == {GENESIS};
    PlainImport(S4, B2, QUEUED);
    assert [] + [Pending(B2)] == [Pending(B2)] && [B1] + [B2] == [B1, B2];
    assert {} + {B2.Hash()} == {B2.Hash()};
    PlainImport(S5, B3, QUEUED);
    assert [Pending(B2)] + [Pending(B3)] == [Pending(B2), Pending(B3)] && [B1, B2] + [B3] == [B1, B2, B3];
    assert {B2.Hash()} + {B3.Hash()} == {B2.Hash(), B3.Hash()};
  }

  lemma Verification()
    ensures Leads(S1, ETake, S2) && Leads(S2, EFinish(B1), S3)
  {
    assert [Pending(B1)][1..] == [] && [] + [Pending(B1)] == [Pending(B1)];
    assert {} + {B1} == {B1} && {B1} - {B1} == {};
    assert [] + [Done(B1)] == [Done(B1)];
  }

  lemma Draining()
    ensures Leads(S3, EDrain(1), S4)
  {
    assert DrainBatch(S3, 1) == [B1] && B1 in [B1];
    assert Hashes([B1]) == {B1.Hash()};
    assert {} + {B1.Hash()} == {B1.Hash()} && {B1.Hash()} - {B1.Hash()} == {};
    assert [] + [B1] == [B1];
  }

  lemma RunOne(s: State, e: Event, t: State, es: seq<Event>, u: State)
    requires Leads(s, e, t) && Run(Shifting, t, es, u)
    ensures Run(Shifting, s, [e] + es, u)
  {
    assert ([e] + es)[1..] == es;
  }

  lemma RunToS6()
    ensures Run(Shifting, EmptyQueue, ThreeInARow, S6)
  {
    hide Leads, Run;
    Imports();
    Verification();
    Draining();
    assert Run(Shifting, S6, [], S6) by { RunNothing(S6); }
    RunOne(S5, EImport(B3, QUEUED), S6, [], S6);
    RunOne(S4, EImport(B2, QUEUED), S5, [EImport(B3, QUEUED)] + [], S6);
    RunOne(S3, EDrain(1), S4, TwoMore, S6);
    RunOne(S2, EFinish(B1), S3, [EDrain(1)] + TwoMore, S6);
    RunOne(S1, ETake, S2, [EFinish(B1)] + ([EDrain(1)] + TwoMore), S6);
    RunOne(EmptyQueue, EImport(B1, FINE), S1, [ETake] + ([EFinish(B1)] + ([EDrain(1)] + TwoMore)), S6);
  }

  lemma RunNothing(s: State)
    ensures Run(Shifting, s, [], s)
  {
  }

  /** The invariant is false of the code: from a state the queue reaches, a report about the drained
      block leaves a ready hash that is in no queue. */
  lemma TheCodeLosesABlock()
    ensures Run(Shifting, EmptyQueue, ThreeInARow, S6) && Enabled(S6, EDoneDrain([B1.Hash()]))
    ensures var t := Step(Shifting, S6, EDoneDrain([B1.Hash()])); t.ready != Hashes(Pipeline(t))
  {
    hide Run, LoopClean, Inv;
    RunToS6();
    RunsAreSafe(Shifting, ThreeInARow, S6);
    StepExact(S6, EDoneDrain([B1.Hash()]));
    SecondIsHandedBack();
  }

  lemma ReportedState()
    ensures var c := CollectUnknownBad(AfterDrain(S6, [B1.Hash()]), B1.Hash());
            c.knownBad == {B1.Hash()} && c.verified == [] && c.unverified == [Pending(B2), Pending(B3)]
  {
    HarvestNothing([], B1.Hash());
    HashesNone();
    assert B1.Hash() in [B1.Hash()];
    assert (set h | h in [B1.Hash()]) == {B1.Hash()};
    assert {} + {B1.Hash()} == {B1.Hash()} && {B1.Hash()} + {} == {B1.Hash()};
  }

  lemma PurgeEmpty(s: State)
    requires s.verified == []
    ensures Purge(Shifting, s, Verified) == s
  {
    assert Handed(Shifting, [], Verified, s.knownBad) == [];
    assert CellHashes(Verified, []) == [];
  }

  lemma SecondIsHandedBack()
    ensures !CleanEvent(Shifting, S6, EDoneDrain([B1.Hash()]))
  {
    hide UpdateBad, PurgeLoop, Purge, AfterDrain, CollectUnknownBad;
    var s := AfterDrain(S6, [B1.Hash()]);
    var c := CollectUnknownBad(s, B1.Hash());
    ReportedState();
    PurgeEmpty(c);
    assert Doomed(Unverified, c.knownBad, c.unverified[0]) && !Doomed(Unverified, c.knownBad, c.unverified[1]);
    assert !Clean(Shifting, c, Unverified);
    assert !RoundClean(Shifting, c);
  }
}
