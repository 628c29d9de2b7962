/** The queue invariant, and what one removal and the marking after it do to it. */
module QueueSafety {
  import opened QueueState
  import opened QueueInvariant

  // ----- the invariant

  ghost predicate NoBadParent(q: seq<Entry>, bad: set<Hash>) {
    forall e :: e in q ==> e.b.parent !in bad
  }

  /** No block in the three queues has a bad parent. */
  ghost predicate NoBadParents(s: State) {
    forall lane :: NoBadParent(LaneOf(s, lane), s.knownBad)
  }

  /** Every running verifier owns a pending slot, unless its block was declared bad under it; and
      every pending slot belongs to a running verifier. */
  ghost predicate JobsMatch(s: State, limbo: set<Hash>) {
    && (forall w :: w in s.jobs ==> Pending(w) in s.verifying || w.Hash() in s.knownBad || w.Hash() in limbo)
    && (forall e :: e in s.verifying && e.Pending? ==> e.b in s.jobs)
    && (forall v, w :: v in s.jobs && w in s.jobs && v.Hash() == w.Hash() ==> v == w)
  }

  ghost function Roots(s: State): set<Hash> {
    s.draining + s.knownBad + s.chain
  }

  /** Every hash is accounted for exactly once. */
  ghost predicate Accounted(s: State, limbo: set<Hash>) {
    var p := Pipeline(s);
    && UniqueHashes(p) && Hashes(p) !! limbo && s.ready == Hashes(p) + limbo
    && s.ready !! s.draining !! s.unknownSet !! s.knownBad !! s.chain
    && s.unknownSet == Hashes(s.unknown) && UniqueHashes(s.unknown)
    && (forall h :: h in s.knownBad || h in s.draining ==> h.HeaderHash?)
  }

  /** A block waits only while its parent is neither ready, draining nor bad. */
  ghost predicate Waiting(s: State) {
    forall b :: b in s.unknown ==> b.parent !in s.ready && b.parent !in s.draining && b.parent !in s.knownBad
  }

  /** The invariant while the hashes in `limbo` have left the queues and wait to be marked bad. */
  ghost predicate Core(s: State, limbo: set<Hash>) {
    && Accounted(s, limbo) && Waiting(s) && JobsMatch(s, limbo)
    && Anchored(Pipeline(s), Roots(s) + limbo)
    && Subseq(s.drained + Pipeline(s), s.enqueued)
  }

  /** The queue invariant: the three queues hold distinct blocks and exactly the ready set; ready,
      draining, unknown, bad and chain are pairwise disjoint; the unknown set is the multimap's;
      parents come first; the history is respected; no verified block has a bad parent. */
  ghost predicate Inv(s: State) {
    Core(s, {}) && NoBadParent(s.verified, s.knownBad)
  }

  // ----- removal

  lemma {:induction false} KeepDropMembers(q: seq<Entry>, lane: Lane, bad: set<Hash>)
    ensures forall e :: e in Keep(q, lane, bad) <==> e in q && !Doomed(lane, bad, e)
    ensures forall e :: e in Drop(q, lane, bad) <==> e in q && Doomed(lane, bad, e)
    decreases |q|
  {
    if q != [] {
      assert q == q[..|q|-1] + [q[|q|-1]];
      KeepDropMembers(q[..|q|-1], lane, bad);
    }
  }

  lemma BlocksAppend(a: seq<Entry>, b: seq<Entry>)
    ensures Blocks(a + b) == Blocks(a) + Blocks(b)
  {
  }

  lemma InBlocks(q: seq<Entry>, b: Block)
    ensures b in Blocks(q) <==> exists e :: e in q && e.b == b
  {
    if e :| e in q && e.b == b {
      var i :| 0 <= i < |q| && q[i] == e;
      assert Blocks(q)[i] == b;
    }
    if b in Blocks(q) {
      var i :| 0 <= i < |q| && Blocks(q)[i] == b;
      assert q[i] in q;
    }
  }

  lemma {:induction false} KeepIsWithout(q: seq<Entry>, lane: Lane, bad: set<Hash>, gone: set<Hash>)
    requires forall e :: e in q ==> (e.b.Hash() in gone <==> Doomed(lane, bad, e))
    ensures Blocks(Keep(q, lane, bad)) == Without(Blocks(q), gone)
    decreases |q|
  {
    if q != [] {
      var p, l := q[..|q|-1], q[|q|-1];
      assert l in q && forall e :: e in p ==> e in q;
      KeepIsWithout(p, lane, bad, gone);
      assert Blocks(q)[..|q|-1] == Blocks(p) && Blocks(q)[|q|-1] == l.b;
      if Doomed(lane, bad, l) {
        assert Keep(q, lane, bad) == Keep(p, lane, bad);
        assert Without(Blocks(q), gone) == Without(Blocks(p), gone);
      } else {
        assert Keep(q, lane, bad) == Keep(p, lane, bad) + [l];
        BlocksAppend(Keep(p, lane, bad), [l]);
      }
    }
  }

  lemma UniqueEntries(q: seq<Entry>, e: Entry, f: Entry)
    requires UniqueHashes(Blocks(q)) && e in q && f in q && e.b.Hash() == f.b.Hash()
    ensures e == f
  {
    var i :| 0 <= i < |q| && q[i] == e;
    var j :| 0 <= j < |q| && q[j] == f;
    assert Blocks(q)[i].Hash() == Blocks(q)[j].Hash();
  }

  /** The hashes of the entries a removal takes out. */
  ghost function Gone(q: seq<Entry>, lane: Lane, bad: set<Hash>): set<Hash> {
    Hashes(Blocks(Drop(q, lane, bad)))
  }

  lemma GoneMeaning(q: seq<Entry>, lane: Lane, bad: set<Hash>)
    requires UniqueHashes(Blocks(q))
    ensures forall e :: e in q ==> (e.b.Hash() in Gone(q, lane, bad) <==> Doomed(lane, bad, e))
    ensures Gone(q, lane, bad) <= Hashes(Blocks(q))
  {
    var d := Drop(q, lane, bad);
    KeepDropMembers(q, lane, bad);
    forall e | e in q ensures e.b.Hash() in Gone(q, lane, bad) <==> Doomed(lane, bad, e) {
      InBlocks(d, e.b);
      if b :| b in Blocks(d) && b.Hash() == e.b.Hash() {
        InBlocks(d, b);
        var f :| f in d && f.b == b;
        UniqueEntries(q, e, f);
      }
    }
    forall b | b in Blocks(d) ensures b in Blocks(q) {
      InBlocks(d, b);
      var f :| f in d && f.b == b;
      InBlocks(q, b);
    }
  }

  lemma PipelineSplit(s: State)
    ensures Pipeline(s) == Blocks(s.verified) + Blocks(s.verifying) + Blocks(s.unverified)
  {
  }

  lemma WithoutOneOfThree(a: seq<Block>, b: seq<Block>, c: seq<Block>, gone: set<Hash>)
    requires UniqueHashes(a + b + c)
    ensures gone <= Hashes(a) ==> Without(a + b + c, gone) == Without(a, gone) + b + c
    ensures gone <= Hashes(b) ==> Without(a + b + c, gone) == a + Without(b, gone) + c
    ensures gone <= Hashes(c) ==> Without(a + b + c, gone) == a + b + Without(c, gone)
    ensures Hashes(a + b + c) == Hashes(a) + Hashes(b) + Hashes(c)
    ensures UniqueHashes(a) && UniqueHashes(b) && UniqueHashes(c)
    ensures Hashes(a) !! Hashes(b) !! Hashes(c)
  {
    UniqueParts(a + b, c);
    UniqueParts(a, b);
    HashesAppend(a + b, c);
    HashesAppend(a, b);
    WithoutAppend(a + b, c, gone);
    WithoutAppend(a, b, gone);
    if Hashes(a) !! gone { WithoutNone(a, gone); }
    if Hashes(b) !! gone { WithoutNone(b, gone); }
    if Hashes(c) !! gone { WithoutNone(c, gone); }
  }

  lemma PipelineWithout(s: State, lane: Lane)
    requires UniqueHashes(Pipeline(s))
    ensures var q := LaneOf(s, lane);
            var gone := Gone(q, lane, s.knownBad);
            && Pipeline(WithLane(s, lane, Keep(q, lane, s.knownBad))) == Without(Pipeline(s), gone)
            && gone <= Hashes(Pipeline(s))
            && UniqueHashes(Blocks(q))
  {
    var q := LaneOf(s, lane);
    var gone := Gone(q, lane, s.knownBad);
    PipelineSplit(s);
    PipelineSplit(WithLane(s, lane, Keep(q, lane, s.knownBad)));
    WithoutOneOfThree(Blocks(s.verified), Blocks(s.verifying), Blocks(s.unverified), gone);
    GoneMeaning(q, lane, s.knownBad);
    KeepIsWithout(q, lane, s.knownBad, gone);
  }

  /** Taking the doomed entries out of one queue leaves exactly them in limbo. */
  lemma RemovalCore(s: State, lane: Lane)
    requires Core(s, {})
    ensures var q := LaneOf(s, lane);
            Core(WithLane(s, lane, Keep(q, lane, s.knownBad)), Gone(q, lane, s.knownBad))
  {
    var q := LaneOf(s, lane);
    var gone := Gone(q, lane, s.knownBad);
    var t := WithLane(s, lane, Keep(q, lane, s.knownBad));
    var p := Pipeline(s);
    PipelineWithout(s, lane);
    WithoutMembers(p, gone);
    WithoutUnique(p, gone);
    WithoutAnchored(p, gone, Roots(s) + {});
    assert Roots(s) + {} + gone == Roots(t) + gone;
    SubseqWithout(s.drained, p, s.enqueued, gone);
    assert JobsMatch(t, gone) by {
      GoneMeaning(q, lane, s.knownBad);
      KeepDropMembers(q, lane, s.knownBad);
    }
  }

  lemma MarkOneCore(s: State, limbo: set<Hash>, h: Hash)
    requires Core(s, limbo) && h in limbo && h.HeaderHash?
    ensures MarkOne(s, h) == s.(knownBad := s.knownBad + {h}, ready := s.ready - {h})
    ensures Core(MarkOne(s, h), limbo - {h})
  {
    hide UniqueHashes, Anchored, Subseq, Hashes;
    var t := s.(knownBad := s.knownBad + {h}, ready := s.ready - {h});
    HarvestNothing(s.unknown, h);
    HashesNone();
    assert t.unknownSet - {} == t.unknownSet && t.knownBad + {} == t.knownBad;
    assert Roots(t) + (limbo - {h}) == Roots(s) + limbo;
    assert Pipeline(t) == Pipeline(s);
  }

  ghost predicate NoRepeats(hs: seq<Hash>) {
    forall i, j :: 0 <= i < j < |hs| ==> hs[i] != hs[j]
  }

  /** Marking everything in limbo restores the invariant and does nothing else. */
  lemma {:induction false} MarkAllCore(s: State, hs: seq<Hash>)
    requires Core(s, Elems(hs)) && NoRepeats(hs) && forall h :: h in hs ==> h.HeaderHash?
    ensures MarkAll(s, hs) == s.(knownBad := s.knownBad + Elems(hs), ready := s.ready - Elems(hs))
    ensures Core(MarkAll(s, hs), {})
    decreases |hs|
  {
    hide Core, MarkOne;
    if hs == [] {
      assert Elems(hs) == {};
      assert s.knownBad + {} == s.knownBad && s.ready - {} == s.ready;
    } else {
      var t := MarkOne(s, hs[0]);
      MarkOneCore(s, Elems(hs), hs[0]);
      assert hs == [hs[0]] + hs[1..];
      assert Elems(hs[1..]) == Elems(hs) - {hs[0]};
      MarkAllCore(t, hs[1..]);
      assert t.knownBad + Elems(hs[1..]) == s.knownBad + Elems(hs);
      assert t.ready - Elems(hs[1..]) == s.ready - Elems(hs);
    }
  }

  // ----- what removeIf hands back

  lemma {:induction false} KeepAll(q: seq<Entry>, lane: Lane, bad: set<Hash>)
    requires forall i :: 0 <= i < |q| ==> !Doomed(lane, bad, q[i])
    ensures Keep(q, lane, bad) == q && Drop(q, lane, bad) == []
    decreases |q|
  {
    if q != [] {
      KeepAll(q[..|q|-1], lane, bad);
    }
  }

  lemma {:induction false} AtEndSplit(q: seq<Entry>, lane: Lane, bad: set<Hash>)
    requires AtEnd(q, lane, bad)
    ensures |Keep(q, lane, bad)| <= |q| && Drop(q, lane, bad) == q[|Keep(q, lane, bad)|..]
    decreases |q|
  {
    KeepDropLength(q, lane, bad);
    if q != [] {
      var p, l := q[..|q|-1], q[|q|-1];
      AtEndSplit(p, lane, bad);
      KeepDropLength(p, lane, bad);
      if Doomed(lane, bad, l) {
        assert q[|Keep(p, lane, bad)|..] == p[|Keep(p, lane, bad)|..] + [l];
      } else {
        forall i | 0 <= i < |p| ensures !Doomed(lane, bad, p[i]) {
          assert p[i] == q[i];
        }
        KeepAll(p, lane, bad);
      }
    }
  }

  lemma HandedEntry(q: seq<Entry>, lane: Lane, bad: set<Hash>, j: nat)
    requires j < |Handed(Shifting, q, lane, bad)|
    ensures var k := |Keep(q, lane, bad)|;
            k + j < |q| && Handed(Shifting, q, lane, bad)[j] == Cell(q[k + j], !Doomed(lane, bad, q[k + j]))
  {
    KeepDropLength(q, lane, bad);
  }

  /** `removeIf` as coded hands back the removed elements exactly when they form the end of the
      queue: otherwise some element it hands back was kept. */
  lemma RemoveIfExact(q: seq<Entry>, lane: Lane, bad: set<Hash>)
    ensures Handed(Shifting, q, lane, bad) == Handed(Partitioning, q, lane, bad) <==> AtEnd(q, lane, bad)
  {
    var hs, hp := Handed(Shifting, q, lane, bad), Handed(Partitioning, q, lane, bad);
    var k, d := |Keep(q, lane, bad)|, Drop(q, lane, bad);
    KeepDropLength(q, lane, bad);
    if AtEnd(q, lane, bad) {
      AtEndSplit(q, lane, bad);
      KeepDropMembers(q, lane, bad);
      forall j | 0 <= j < |hs| ensures hs[j] == hp[j] {
        assert d[j] == q[k + j] && d[j] in d;
      }
    }
    if hs == hp {
      forall x | k <= x < |q| ensures Doomed(lane, bad, q[x]) {
        assert hs[x - k] == hp[x - k];
      }
      KeepPrefix(q, lane, bad, k);
      forall x | 0 <= x < k ensures !Doomed(lane, bad, q[x]) {
        assert q[..k][x] == q[x];
      }
    }
  }

  /** If everything from `k` on is doomed and `k` elements are kept, the kept ones are the first `k`. */
  lemma {:induction false} KeepPrefix(q: seq<Entry>, lane: Lane, bad: set<Hash>, k: nat)
    requires k <= |q| && |Keep(q, lane, bad)| == k
    requires forall x :: k <= x < |q| ==> Doomed(lane, bad, q[x])
    ensures forall e :: e in q[..k] ==> !Doomed(lane, bad, e)
    decreases |q|
  {
    var p := q[..if |q| == 0 then 0 else |q|-1];
    if k < |q| {
      assert p[..k] == q[..k];
      KeepPrefix(p, lane, bad, k);
    } else {
      KeepDropLength(q, lane, bad);
      KeepDropMembers(q, lane, bad);
      assert q[..k] == q;
      assert Drop(q, lane, bad) == [];
    }
  }

  ghost predicate Clean(m: Removal, s: State, lane: Lane) {
    m == Partitioning || AtEnd(LaneOf(s, lane), lane, s.knownBad)
  }

  lemma HandedHashes(m: Removal, q: seq<Entry>, lane: Lane, bad: set<Hash>)
    requires m == Partitioning || AtEnd(q, lane, bad)
    ensures CellHashes(lane, Handed(m, q, lane, bad)) == HashSeq(Blocks(Drop(q, lane, bad)))
  {
    RemoveIfExact(q, lane, bad);
    var d := Drop(q, lane, bad);
    var hs := CellHashes(lane, Handed(Partitioning, q, lane, bad));
    assert |hs| == |d|;
    forall j | 0 <= j < |d| ensures hs[j] == HashSeq(Blocks(d))[j] {
      assert Handed(Partitioning, q, lane, bad)[j] == Cell(d[j], false);
    }
  }

  lemma {:induction false} DropUnique(q: seq<Entry>, lane: Lane, bad: set<Hash>)
    requires UniqueHashes(Blocks(q))
    ensures UniqueHashes(Blocks(Drop(q, lane, bad)))
    decreases |q|
  {
    if q != [] {
      var p, l := q[..|q|-1], q[|q|-1];
      assert Blocks(q) == Blocks(p) + [l.b];
      UniqueParts(Blocks(p), [l.b]);
      DropUnique(p, lane, bad);
      var d := Drop(p, lane, bad);
      if Doomed(lane, bad, l) {
        GoneMeaning(p, lane, bad);
        assert l.b in [l.b];
        UniqueAppend(Blocks(d), [l.b]);
        BlocksAppend(d, [l]);
        assert Blocks(d + [l]) == Blocks(d) + [l.b];
      } else {
        assert Drop(q, lane, bad) == d;
      }
    }
  }

  /** One clean removal with its marking loop: the doomed entries move from ready to bad. */
  lemma PurgeCore(m: Removal, s: State, lane: Lane)
    requires Core(s, {}) && Clean(m, s, lane)
    ensures var q := LaneOf(s, lane);
            var gone := Gone(q, lane, s.knownBad);
            Purge(m, s, lane) == WithLane(s, lane, Keep(q, lane, s.knownBad))
                                 .(knownBad := s.knownBad + gone, ready := s.ready - gone)
    ensures Core(Purge(m, s, lane), {})
  {
    var q := LaneOf(s, lane);
    var t := WithLane(s, lane, Keep(q, lane, s.knownBad));
    var d := Blocks(Drop(q, lane, s.knownBad));
    var hs := HashSeq(d);
    RemovalCore(s, lane);
    PipelineWithout(s, lane);
    HandedHashes(m, q, lane, s.knownBad);
    DropUnique(q, lane, s.knownBad);
    HashSeqElems(d);
    MarkAllCore(t, hs);
  }

  lemma HashSeqElems(q: seq<Block>)
    ensures Elems(HashSeq(q)) == Hashes(q)
    ensures UniqueHashes(q) ==> NoRepeats(HashSeq(q))
  {
    forall h | h in HashSeq(q) ensures h in Hashes(q) {
      var i :| 0 <= i < |q| && HashSeq(q)[i] == h;
      assert q[i] in q;
    }
    forall b | b in q ensures b.Hash() in HashSeq(q) {
      var i :| 0 <= i < |q| && q[i] == b;
      assert HashSeq(q)[i] == b.Hash();
    }
  }

}
