/** What a purge does in every state, whichever way `removeIf` hands back: which entries it takes out of
    the queues, which waiting blocks it takes out of the multimap, and that it leaves no bad parent. */
module QueuePurge {
  import opened QueueState
  import opened QueueInvariant
  import opened QueueSafety

  // ----- no bad parent is left

  /** Nothing in the queues is doomed any more. */
  ghost predicate Sifted(t: State) {
    forall lane :: Keep(LaneOf(t, lane), lane, t.knownBad) == LaneOf(t, lane)
  }

  /** A removal without victims leaves the state alone, whichever way `removeIf` hands back. */
  lemma EmptyDrop(m: Removal, s: State, lane: Lane)
    requires Drop(LaneOf(s, lane), lane, s.knownBad) == []
    ensures Purge(m, s, lane) == s
    ensures NoBadParent(LaneOf(s, lane), s.knownBad) && Keep(LaneOf(s, lane), lane, s.knownBad) == LaneOf(s, lane)
  {
    var q := LaneOf(s, lane);
    KeepDropLength(q, lane, s.knownBad);
    KeepDropMembers(q, lane, s.knownBad);
    forall i | 0 <= i < |q| ensures !Doomed(lane, s.knownBad, q[i]) {
      assert q[i] in q;
    }
    KeepAll(q, lane, s.knownBad);
    assert CellHashes(lane, Handed(m, q, lane, s.knownBad)) == [];
  }

  /** A round that removes nothing leaves the state alone and finds no bad parent anywhere. */
  lemma QuietRound(m: Removal, s: State)
    requires |Pipeline(PurgeRound(m, s))| == |Pipeline(s)|
    ensures PurgeRound(m, s) == s
    ensures NoBadParents(s) && Sifted(s)
  {
    hide Purge, Pipeline, Drop, NoBadParent, Keep;
    PurgeShrinks(m, s, Verified);
    PurgeShrinks(m, Purge(m, s, Verified), Unverified);
    PurgeShrinks(m, Purge(m, Purge(m, s, Verified), Unverified), Verifying);
    EmptyDrop(m, s, Verified);
    EmptyDrop(m, s, Unverified);
    EmptyDrop(m, s, Verifying);
    forall lane
      ensures NoBadParent(LaneOf(s, lane), s.knownBad) && Keep(LaneOf(s, lane), lane, s.knownBad) == LaneOf(s, lane)
    {
      match lane
      case Verified =>
      case Unverified =>
      case Verifying =>
    }
  }

  /** The purge loop ends with no bad parent in any queue: in every state and also as coded. */
  lemma {:induction false} LoopLeavesNoBadParent(m: Removal, s: State)
    ensures var t := PurgeLoop(m, s); NoBadParents(t)
    decreases |Pipeline(s)|
  {
    hide PurgeRound, NoBadParents;
    RoundShrinks(m, s);
    var t := PurgeRound(m, s);
    if |Pipeline(t)| < |Pipeline(s)| { LoopLeavesNoBadParent(m, t); } else { QuietRound(m, s); }
  }

  /** So does `updateBad`, whatever state it finds. */
  lemma UpdateLeavesNoBadParent(m: Removal, s: State, h: Hash)
    ensures var t := UpdateBad(m, s, h); NoBadParents(t)
  {
    hide NoBadParents, PurgeLoop;
    LoopLeavesNoBadParent(m, CollectUnknownBad(s, h));
  }

  /** And so does any non-empty list of reports. */
  lemma {:induction false} ReportsLeaveNoBadParent(m: Removal, s: State, bad: seq<Hash>)
    requires bad != []
    ensures var t := UpdateAll(m, s, bad); NoBadParents(t)
    decreases |bad|
  {
    hide UpdateBad, NoBadParents;
    if |bad| == 1 {
      UpdateLeavesNoBadParent(m, s, bad[0]);
      assert bad[1..] == [];
    } else {
      ReportsLeaveNoBadParent(m, UpdateBad(m, s, bad[0]), bad[1..]);
    }
  }

  /** After `doneDrain` with something to report, as coded. */
  lemma DoneDrainLeavesNoBadParent(m: Removal, s: State, bad: seq<Hash>)
    requires bad != []
    ensures var t := DoneDrain(m, s, bad); NoBadParents(t)
  {
    hide UpdateAll, NoBadParents;
    var b := set h | h in bad;
    ReportsLeaveNoBadParent(m, s.(draining := {}, knownBad := s.knownBad + b, chain := s.chain + (s.draining - b)),
        bad);
  }

  // ----- the bad set only grows

  lemma BadGrows(m: Removal, s: State, h: Hash)
    ensures s.knownBad <= UpdateBad(m, s, h).knownBad
  {
    LoopGrows(m, CollectUnknownBad(s, h));
  }

  lemma {:induction false} LoopGrows(m: Removal, s: State)
    ensures s.knownBad <= PurgeLoop(m, s).knownBad
    decreases |Pipeline(s)|
  {
    hide Purge;
    RoundShrinks(m, s);
    PurgeGrows(m, s, Verified);
    PurgeGrows(m, Purge(m, s, Verified), Unverified);
    PurgeGrows(m, Purge(m, Purge(m, s, Verified), Unverified), Verifying);
    var t := PurgeRound(m, s);
    if |Pipeline(t)| < |Pipeline(s)| { LoopGrows(m, t); }
  }

  lemma PurgeGrows(m: Removal, s: State, lane: Lane)
    ensures s.knownBad <= Purge(m, s, lane).knownBad
  {
    var q := LaneOf(s, lane);
    MarkAllKeepsLanes(WithLane(s, lane, Keep(q, lane, s.knownBad)), CellHashes(lane, Handed(m, q, lane, s.knownBad)));
  }

  // ----- which hashes are marked

  /** The hash that is marked for an entry standing behind the kept ones: its block's, but for a finished slot of the
      verifying queue that was itself kept its uncle hash, read from what the move left. */
  function MarkFor(s: State, lane: Lane, e: Entry): Hash {
    if lane == Verifying && e.Done? && e.b.parent !in s.knownBad && UnclesHash(e.b.unclesId) !in s.knownBad
    then UnclesHash(e.b.unclesId) else HeaderHash(e.b.id)
  }

  /** As coded, one removal marks the entries from the number of kept ones on, and else only blocks that were
      waiting. */
  lemma PurgeMarks(s: State, lane: Lane, h: Hash)
    ensures var q, t := LaneOf(s, lane), Purge(Shifting, s, lane);
            var k := |Keep(q, lane, s.knownBad)|;
            && k <= |q|
            && (forall j :: k <= j < |q| ==> MarkFor(s, lane, q[j]) in t.knownBad)
            && (h in t.knownBad && h !in s.knownBad ==>
                  (exists j :: k <= j < |q| && h == MarkFor(s, lane, q[j])) || h in Hashes(s.unknown))
  {
    hide Keep, MarkAll, Hashes;
    var q := LaneOf(s, lane);
    var u, cells := WithLane(s, lane, Keep(q, lane, s.knownBad)), Handed(Shifting, q, lane, s.knownBad);
    var k, marks := |Keep(q, lane, s.knownBad)|, CellHashes(lane, cells);
    KeepDropLength(q, lane, s.knownBad);
    forall j | 0 <= j < |marks| ensures marks[j] == MarkFor(s, lane, q[k + j]) {
      assert cells[j] == Cell(q[k + j], !Doomed(lane, s.knownBad, q[k + j]));
    }
    MarksAll(u, marks, h);
    forall j | k <= j < |q| ensures MarkFor(s, lane, q[j]) in MarkAll(u, marks).knownBad {
      assert marks[j - k] == MarkFor(s, lane, q[j]) && marks[j - k] in marks;
      MarksAll(u, marks, marks[j - k]);
    }
    if h in marks {
      var j :| 0 <= j < |marks| && marks[j] == h;
      assert h == MarkFor(s, lane, q[k + j]);
    }
  }

  lemma {:induction false} MarksAll(s: State, hs: seq<Hash>, h: Hash)
    ensures var t := MarkAll(s, hs);
            && (h in hs ==> h in t.knownBad)
            && (h in t.knownBad ==> h in s.knownBad || h in hs || h in Hashes(s.unknown))
            && (forall b :: b in t.unknown ==> b in s.unknown)
    decreases |hs|
  {
    hide Harvest;
    if hs != [] {
      var u := MarkOne(s, hs[0]);
      HarvestPartition(s.unknown, [hs[0]]);
      MarksAll(u, hs[1..], h);
      MarkAllKeepsLanes(u, hs[1..]);
    }
  }

  // ----- which entries leave the queues

  /** Taking out with a smaller bad set first makes no difference. */
  lemma {:induction false} KeepTwice(q: seq<Entry>, lane: Lane, few: set<Hash>, bad: set<Hash>)
    requires few <= bad
    ensures Keep(Keep(q, lane, few), lane, bad) == Keep(q, lane, bad)
    decreases |q|
  {
    if q != [] {
      var p, l := q[..|q| - 1], q[|q| - 1];
      KeepTwice(p, lane, few, bad);
      if !Doomed(lane, few, l) {
        var k := Keep(p, lane, few) + [l];
        assert k[..|k| - 1] == Keep(p, lane, few) && k[|k| - 1] == l;
      } else {
        assert Keep(q, lane, few) == Keep(p, lane, few) && Keep(q, lane, bad) == Keep(p, lane, bad);
      }
    }
  }

  /** Sifting with `bad` gives the same queues after the purge as before. */
  ghost predicate SiftsAlike(s: State, t: State, bad: set<Hash>) {
    forall lane :: Keep(LaneOf(t, lane), lane, bad) == Keep(LaneOf(s, lane), lane, bad)
  }

  lemma PurgeSifts(m: Removal, s: State, lane: Lane, bad: set<Hash>)
    requires s.knownBad <= bad
    ensures SiftsAlike(s, Purge(m, s, lane), bad)
  {
    hide Keep, MarkAll, Handed;
    var q := LaneOf(s, lane);
    MarkAllKeepsLanes(WithLane(s, lane, Keep(q, lane, s.knownBad)), CellHashes(lane, Handed(m, q, lane, s.knownBad)));
    KeepTwice(q, lane, s.knownBad, bad);
  }

  lemma RoundSifts(m: Removal, s: State, bad: set<Hash>)
    requires PurgeRound(m, s).knownBad <= bad
    ensures SiftsAlike(s, PurgeRound(m, s), bad) && s.knownBad <= bad
  {
    hide Purge, Keep, LaneOf;
    var s1 := Purge(m, s, Verified);
    var s2 := Purge(m, s1, Unverified);
    PurgeGrows(m, s, Verified);
    PurgeGrows(m, s1, Unverified);
    PurgeGrows(m, s2, Verifying);
    PurgeSifts(m, s, Verified, bad);
    PurgeSifts(m, s1, Unverified, bad);
    PurgeSifts(m, s2, Verifying, bad);
  }

  lemma {:induction false} LoopSifts(m: Removal, s: State, bad: set<Hash>)
    requires PurgeLoop(m, s).knownBad <= bad
    ensures SiftsAlike(s, PurgeLoop(m, s), bad)
    decreases |Pipeline(s)|
  {
    hide PurgeRound, Keep, LaneOf;
    RoundShrinks(m, s);
    var t := PurgeRound(m, s);
    if |Pipeline(t)| < |Pipeline(s)| {
      LoopGrows(m, t);
      LoopSifts(m, t, bad);
    }
    RoundSifts(m, s, bad);
  }

  lemma {:induction false} LoopSifted(m: Removal, s: State)
    ensures Sifted(PurgeLoop(m, s))
    decreases |Pipeline(s)|
  {
    hide PurgeRound, Sifted;
    RoundShrinks(m, s);
    var t := PurgeRound(m, s);
    if |Pipeline(t)| < |Pipeline(s)| { LoopSifted(m, t); } else { QuietRound(m, s); }
  }

  /** Exactly the entries that the bad set at the end dooms have left, in every queue; the others stand in
      their order. */
  ghost predicate LeftExactly(s: State, t: State) {
    forall lane :: LaneOf(t, lane) == Keep(LaneOf(s, lane), lane, t.knownBad)
  }

  /** Entry by entry: what stays has no bad parent and no bad hash, except that a finished slot of the verifying
      queue is judged by its uncle hash instead of its own. */
  lemma LeftForm(s: State, t: State, lane: Lane, e: Entry)
    requires LeftExactly(s, t)
    ensures e in LaneOf(t, lane) <==>
            && e in LaneOf(s, lane) && e.b.parent !in t.knownBad
            && (lane == Verifying && e.Done? ==> UnclesHash(e.b.unclesId) !in t.knownBad)
            && ((lane == Verifying && e.Done?) || HeaderHash(e.b.id) !in t.knownBad)
  {
    hide Keep;
    KeepDropMembers(LaneOf(s, lane), lane, t.knownBad);
  }

  lemma UpdateLeavesExactly(m: Removal, s: State, h: Hash)
    ensures LeftExactly(s, UpdateBad(m, s, h))
  {
    hide PurgeLoop, Keep, Harvest;
    var c := CollectUnknownBad(s, h);
    var t := PurgeLoop(m, c);
    LoopSifts(m, c, t.knownBad);
    LoopSifted(m, c);
    forall lane ensures LaneOf(t, lane) == Keep(LaneOf(s, lane), lane, t.knownBad) {
      assert LaneOf(c, lane) == LaneOf(s, lane);
    }
  }

  lemma LeftTwice(s: State, t: State, u: State)
    requires LeftExactly(s, t) && LeftExactly(t, u) && t.knownBad <= u.knownBad
    ensures LeftExactly(s, u)
  {
    hide Keep, LaneOf;
    forall lane ensures LaneOf(u, lane) == Keep(LaneOf(s, lane), lane, u.knownBad) {
      KeepTwice(LaneOf(s, lane), lane, t.knownBad, u.knownBad);
    }
  }

  lemma {:induction false} ReportsGrow(m: Removal, s: State, bad: seq<Hash>)
    ensures s.knownBad <= UpdateAll(m, s, bad).knownBad
    decreases |bad|
  {
    hide UpdateBad;
    if bad != [] {
      BadGrows(m, s, bad[0]);
      ReportsGrow(m, UpdateBad(m, s, bad[0]), bad[1..]);
    }
  }

  lemma {:induction false} ReportsLeaveExactly(m: Removal, s: State, bad: seq<Hash>)
    requires bad != []
    ensures LeftExactly(s, UpdateAll(m, s, bad))
    decreases |bad|
  {
    hide UpdateBad, LeftExactly;
    var t := UpdateBad(m, s, bad[0]);
    UpdateLeavesExactly(m, s, bad[0]);
    if |bad| == 1 {
      assert bad[1..] == [];
    } else {
      ReportsLeaveExactly(m, t, bad[1..]);
      ReportsGrow(m, t, bad[1..]);
      LeftTwice(s, t, UpdateAll(m, t, bad[1..]));
    }
  }

  // ----- which blocks stop waiting

  /** What leaves the ready set is bad. Waiting blocks only leave, and those that do are bad like their
      parents. */
  ghost predicate Culled(s: State, t: State) {
    && s.knownBad <= t.knownBad && s.ready <= t.ready + t.knownBad && (forall b :: b in t.unknown ==> b in s.unknown)
    && (forall b :: b in s.unknown && b !in t.unknown ==> b.Hash() in t.knownBad && b.parent in t.knownBad)
  }

  /** No waiting block is the child of a bad one. */
  ghost predicate Detached(s: State) {
    forall b :: b in s.unknown ==> b.parent !in s.knownBad
  }

  /** Exactly the children of bad blocks have stopped waiting. */
  ghost predicate WaitsExactly(s: State, t: State) {
    forall b :: b in t.unknown <==> b in s.unknown && b.parent !in t.knownBad
  }

  lemma CulledTwice(s: State, t: State, u: State)
    requires Culled(s, t) && Culled(t, u)
    ensures Culled(s, u)
  {
  }

  lemma CollectCulls(s: State, h: Hash)
    requires h in s.knownBad
    ensures Culled(s, CollectUnknownBad(s, h))
    ensures (forall b :: b in s.unknown && b.parent in s.knownBad ==> b.parent == h) ==>
              Detached(CollectUnknownBad(s, h))
  {
    hide Harvest;
    var (left, moved) := Harvest(s.unknown, [h]);
    HarvestPartition(s.unknown, [h]);
    HarvestClosed(s.unknown, [h]);
    HarvestAnchored(s.unknown, [h]);
    assert h in [h] && Elems([h]) == {h};
    forall b | b in moved ensures b.Hash() in Hashes(moved) && (b.parent == h || b.parent in Hashes(moved)) {
      var i :| 0 <= i < |moved| && moved[i] == b;
      assert forall c :: c in moved[..i] ==> c in moved;
    }
  }

  lemma MarkCulls(s: State, h: Hash)
    ensures Culled(s, MarkOne(s, h)) && (Detached(s) ==> Detached(MarkOne(s, h)))
  {
    hide CollectUnknownBad;
    var c := s.(knownBad := s.knownBad + {h}, ready := s.ready - {h});
    CollectCulls(c, h);
    CulledTwice(s, c, MarkOne(s, h));
  }

  lemma {:induction false} MarkAllCulls(s: State, hs: seq<Hash>)
    ensures Culled(s, MarkAll(s, hs)) && (Detached(s) ==> Detached(MarkAll(s, hs)))
    decreases |hs|
  {
    hide Culled, Detached, MarkOne;
    if hs == [] {
      assert Culled(s, s) by { Unculled(s, s); }
    } else {
      MarkCulls(s, hs[0]);
      MarkAllCulls(MarkOne(s, hs[0]), hs[1..]);
      CulledTwice(s, MarkOne(s, hs[0]), MarkAll(s, hs));
    }
  }

  lemma Unculled(s: State, t: State)
    requires s.unknown == t.unknown && s.knownBad == t.knownBad && s.ready == t.ready
    ensures Culled(s, t) && (Detached(s) ==> Detached(t))
  {
  }

  lemma PurgeCulls(m: Removal, s: State, lane: Lane)
    ensures Culled(s, Purge(m, s, lane)) && (Detached(s) ==> Detached(Purge(m, s, lane)))
  {
    hide Culled, Detached, MarkAll, Keep, Handed;
    var q := LaneOf(s, lane);
    var u := WithLane(s, lane, Keep(q, lane, s.knownBad));
    Unculled(s, u);
    MarkAllCulls(u, CellHashes(lane, Handed(m, q, lane, s.knownBad)));
    CulledTwice(s, u, Purge(m, s, lane));
  }

  lemma {:induction false} LoopCulls(m: Removal, s: State)
    ensures Culled(s, PurgeLoop(m, s)) && (Detached(s) ==> Detached(PurgeLoop(m, s)))
    decreases |Pipeline(s)|
  {
    hide Culled, Detached, Purge;
    RoundShrinks(m, s);
    var s1 := Purge(m, s, Verified);
    var s2 := Purge(m, s1, Unverified);
    var t := PurgeRound(m, s);
    PurgeCulls(m, s, Verified);
    PurgeCulls(m, s1, Unverified);
    PurgeCulls(m, s2, Verifying);
    CulledTwice(s, s1, s2);
    CulledTwice(s, s2, t);
    if |Pipeline(t)| < |Pipeline(s)| {
      LoopCulls(m, t);
      CulledTwice(s, t, PurgeLoop(m, t));
    }
  }

  lemma ExactlyCulled(s: State, t: State)
    requires Culled(s, t) && Detached(t)
    ensures WaitsExactly(s, t)
  {
  }

  /** `updateBad` on a bad block: where nothing but its own children waited for bad blocks, exactly the
      children of what is bad in the end stop waiting. */
  lemma UpdateWaitsExactly(m: Removal, s: State, h: Hash)
    requires h in s.knownBad
    ensures var t := UpdateBad(m, s, h);
            && Culled(s, t)
            && ((forall b :: b in s.unknown && b.parent in s.knownBad ==> b.parent == h) ==>
                  Detached(t) && WaitsExactly(s, t))
  {
    hide PurgeLoop, CollectUnknownBad, Culled, Detached, WaitsExactly;
    var c := CollectUnknownBad(s, h);
    CollectCulls(s, h);
    LoopCulls(m, c);
    CulledTwice(s, c, PurgeLoop(m, c));
    if Detached(PurgeLoop(m, c)) { ExactlyCulled(s, PurgeLoop(m, c)); }
  }

  lemma {:induction false} ReportsWaitExactly(m: Removal, s: State, bad: seq<Hash>)
    requires (forall h :: h in bad ==> h in s.knownBad) && Detached(s)
    ensures var t := UpdateAll(m, s, bad); Culled(s, t) && Detached(t) && WaitsExactly(s, t)
    decreases |bad|
  {
    hide UpdateBad, Culled, WaitsExactly;
    if bad == [] {
      Unculled(s, s);
    } else {
      var t := UpdateBad(m, s, bad[0]);
      UpdateWaitsExactly(m, s, bad[0]);
      BadGrows(m, s, bad[0]);
      ReportsWaitExactly(m, t, bad[1..]);
      CulledTwice(s, t, UpdateAll(m, t, bad[1..]));
    }
    ExactlyCulled(s, UpdateAll(m, s, bad));
  }
}
