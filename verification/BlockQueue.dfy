/** The block queue as an object: the source's loops over its queues, sets and worklists, proved
    equal to the steps of `QueueState`. */
module BlockQueue {
  import Q = QueueState
  import opened QueueState
  import opened Wrappers
  import QueueInvariant

  /** `std::remove_if` on a queue of blocks, followed by handing out what lies behind the new end:
      kept elements are moved forward one by one, and the slots they leave keep their hashes. */
  method RemoveIf(q: seq<Entry>, lane: Lane, bad: set<Hash>) returns (kept: seq<Entry>, handed: seq<Cell>)
    ensures kept == Keep(q, lane, bad)
    ensures handed == Handed(Shifting, q, lane, bad)
  {
    hide Handed, Keep, Doomed;
    KeepNone(lane, bad);
    var cells := seq(|q|, i requires 0 <= i < |q| => Cell(q[i], false));
    var last := 0;
    ghost var front: seq<Entry> := [];
    assert q[..0] == [];
    for i := 0 to |q|
      invariant |cells| == |q| && last <= i && |front| == last
      invariant front == Keep(q[..i], lane, bad)
      invariant forall j :: 0 <= j < last ==> cells[j] == Cell(front[j], false)
      invariant forall j :: i <= j < |q| ==> cells[j] == Cell(q[j], false)
      invariant forall j :: last <= j < i ==> cells[j] == Cell(q[j], !Doomed(lane, bad, q[j]))
    {
      KeepStep(q, lane, bad, i);
      if !Doomed(lane, bad, cells[i].e) {
        if last != i {
          cells := cells[last := cells[i]][i := Cell(cells[i].e, true)];
        }
        last := last + 1;
        front := front + [q[i]];
      }
    }
    assert q[..|q|] == q;
    kept := Entries(cells[..last]);
    handed := cells[last..];
    HandedCells(q, lane, bad, handed);
  }

  lemma KeepNone(lane: Lane, bad: set<Hash>)
    ensures Keep([], lane, bad) == []
  {
  }

  lemma KeepStep(q: seq<Entry>, lane: Lane, bad: set<Hash>, i: nat)
    requires i < |q|
    ensures Keep(q[..i + 1], lane, bad) ==
            if Doomed(lane, bad, q[i]) then Keep(q[..i], lane, bad) else Keep(q[..i], lane, bad) + [q[i]]
  {
    assert q[..i + 1][..i] == q[..i];
  }

  lemma HandedCells(q: seq<Entry>, lane: Lane, bad: set<Hash>, cells: seq<Cell>)
    requires |Keep(q, lane, bad)| + |cells| == |q|
    requires var k := |Keep(q, lane, bad)|;
             forall j :: 0 <= j < |cells| ==> cells[j] == Cell(q[k + j], !Doomed(lane, bad, q[k + j]))
    ensures cells == Handed(Shifting, q, lane, bad)
  {
    KeepDropLength(q, lane, bad);
  }

  function Entries(cs: seq<Cell>): (r: seq<Entry>)
    ensures |r| == |cs|
    ensures forall i :: 0 <= i < |cs| ==> r[i] == cs[i].e
  {
    seq(|cs|, i requires 0 <= i < |cs| => cs[i].e)
  }

  class Queue {
    var ready: set<Hash>
    var draining: set<Hash>
    var unknownSet: set<Hash>
    var knownBad: set<Hash>
    var unknown: seq<Block>
    var verified: seq<Entry>
    var verifying: seq<Entry>
    var unverified: seq<Entry>
    ghost var jobs: set<Block>
    ghost var chain: set<Hash>
    ghost var enqueued: seq<Block>
    ghost var drained: seq<Block>

    ghost function Abs(): State
      reads this
    {
      State(ready, draining, unknownSet, knownBad, unknown, verified, verifying, unverified,
            jobs, chain, enqueued, drained)
    }

    constructor ()
      ensures Abs() == EmptyQueue
    {
      ready, draining, unknownSet, knownBad := {}, {}, {}, {};
      unknown, verified, verifying, unverified := [], [], [], [];
      jobs, chain, enqueued, drained := {}, {}, [], [];
    }

    method CondemnAll(removed: seq<Block>) returns (hashes: seq<Hash>)
      modifies this
      ensures Abs() == Condemn(old(Abs()), removed) && hashes == HashSeq(removed)
    {
      hashes := [];
      for i := 0 to |removed|
        invariant Abs() == Condemn(old(Abs()), removed[..i]) && hashes == HashSeq(removed[..i])
      {
        assert removed[..i + 1] == removed[..i] + [removed[i]];
        HashesSnoc(removed[..i], removed[i]);
        unknownSet := unknownSet - {removed[i].Hash()};
        knownBad := knownBad + {removed[i].Hash()};
        hashes := hashes + [removed[i].Hash()];
      }
      assert removed[..|removed|] == removed;
    }

    method CollectUnknownBad(h: Hash)
      modifies this
      ensures Abs() == Q.CollectUnknownBad(old(Abs()), h)
    {
      hide Hashes;
      var badQueue := [h];
      ghost var start := Abs();
      ghost var done: seq<Block> := [];
      QueueInvariant.HashesNone();
      AppendNothing(Harvest(unknown, [h]).1);
      while badQueue != []
        invariant Abs() == Condemn(start.(unknown := unknown), done)
        invariant Harvested(start.unknown, h, unknown, badQueue, done)
        decreases |unknown|, |badQueue|
      {
        var removed := Kids(unknown, badQueue[0]);
        HarvestStep(start.unknown, h, unknown, badQueue, done);
        CondemnTwice(start.(unknown := Others(unknown, badQueue[0])), done, removed);
        unknown := Others(unknown, badQueue[0]);
        var hashes := CondemnAll(removed);
        badQueue := badQueue[1..] + hashes;
        done := done + removed;
      }
      AppendNothing(done);
    }

    method AdmitOne(b: Block)
      modifies this
      ensures Abs() == Admit(old(Abs()), [b])
    {
      HashesSnoc([], b);
      assert [] + [b] == [b] && Pendings([b]) == [Pending(b)];
      unverified := unverified + [Pending(b)];
      unknownSet := unknownSet - {b.Hash()};
      ready := ready + {b.Hash()};
      enqueued := enqueued + [b];
    }

    method AdmitAll(removed: seq<Block>) returns (hashes: seq<Hash>)
      modifies this
      ensures Abs() == Admit(old(Abs()), removed) && hashes == HashSeq(removed)
    {
      hide Admit;
      hashes := [];
      AdmitNone(Abs());
      assert removed[..0] == [];
      for i := 0 to |removed|
        invariant Abs() == Admit(old(Abs()), removed[..i]) && hashes == HashSeq(removed[..i])
      {
        assert removed[..i + 1] == removed[..i] + [removed[i]];
        AdmitTwice(old(Abs()), removed[..i], [removed[i]]);
        AdmitOne(removed[i]);
        hashes := hashes + [removed[i].Hash()];
      }
      assert removed[..|removed|] == removed;
    }

    method NoteReady(h: Hash)
      modifies this
      ensures Abs() == Q.NoteReady(old(Abs()), h)
    {
      hide Hashes;
      var goodQueue := [h];
      ghost var start := Abs();
      ghost var done: seq<Block> := [];
      QueueInvariant.HashesNone();
      AppendNothing(Harvest(unknown, [h]).1);
      assert unverified + Pendings([]) == unverified && enqueued + [] == enqueued;
      while goodQueue != []
        invariant Abs() == Admit(start.(unknown := unknown), done)
        invariant Harvested(start.unknown, h, unknown, goodQueue, done)
        decreases |unknown|, |goodQueue|
      {
        var removed := Kids(unknown, goodQueue[0]);
        HarvestStep(start.unknown, h, unknown, goodQueue, done);
        AdmitTwice(start.(unknown := Others(unknown, goodQueue[0])), done, removed);
        unknown := Others(unknown, goodQueue[0]);
        var hashes := AdmitAll(removed);
        goodQueue := goodQueue[1..] + hashes;
        done := done + removed;
      }
      AppendNothing(done);
    }

    method MarkBad(h: Hash)
      modifies this
      ensures Abs() == MarkOne(old(Abs()), h)
    {
      knownBad := knownBad + {h};
      ready := ready - {h};
      CollectUnknownBad(h);
    }

    method MarkEach(hs: seq<Hash>)
      modifies this
      ensures Abs() == MarkAll(old(Abs()), hs)
    {
      hide MarkOne;
      for i := 0 to |hs|
        invariant MarkAll(Abs(), hs[i..]) == MarkAll(old(Abs()), hs)
      {
        assert hs[i..][1..] == hs[i + 1..];
        MarkBad(hs[i]);
      }
    }

    /** One removal of `updateBad` with the loop over what it hands back. */
    method PurgeLane(lane: Lane) returns (removedAny: bool)
      modifies this
      ensures Abs() == Purge(Shifting, old(Abs()), lane)
      ensures removedAny <==> |Pipeline(Abs())| < |Pipeline(old(Abs()))|
    {
      hide MarkAll, Keep, Drop, Pipeline;
      PurgeShrinks(Shifting, Abs(), lane);
      var q := match lane case Verified => verified case Unverified => unverified case Verifying => verifying;
      KeepDropLength(q, lane, knownBad);
      var kept, handed := RemoveIf(q, lane, knownBad);
      match lane {
        case Verified => verified := kept;
        case Unverified => unverified := kept;
        case Verifying => verifying := kept;
      }
      removedAny := handed != [];
      MarkEach(CellHashes(lane, handed));
    }

    method UpdateBad(h: Hash)
      modifies this
      ensures Abs() == Q.UpdateBad(Shifting, old(Abs()), h)
    {
      CollectUnknownBad(h);
      ghost var target := PurgeLoop(Shifting, Abs());
      var moreBad := true;
      while moreBad
        invariant if moreBad then PurgeLoop(Shifting, Abs()) == target else Abs() == target
        decreases moreBad, |Pipeline(Abs())|
      {
        ghost var start := Abs();
        RoundShrinks(Shifting, start);
        PurgeShrinks(Shifting, start, Verified);
        PurgeShrinks(Shifting, Purge(Shifting, start, Verified), Unverified);
        PurgeShrinks(Shifting, Purge(Shifting, Purge(Shifting, start, Verified), Unverified), Verifying);
        var a := PurgeLane(Verified);
        var b := PurgeLane(Unverified);
        var c := PurgeLane(Verifying);
        moreBad := a || b || c;
      }
    }

    method DrainVerified()
      modifies this
      ensures Abs() == Q.DrainVerified(old(Abs()))
    {
      while verifying != [] && verifying[0].Done?
        invariant Q.DrainVerified(Abs()) == Q.DrainVerified(old(Abs()))
        decreases |verifying|
      {
        var e := verifying[0];
        verifying := verifying[1..];
        if e.b.parent in knownBad {
          ready := ready - {e.b.Hash()};
          knownBad := knownBad + {e.b.Hash()};
        } else {
          verified := verified + [e];
        }
      }
    }

    /** The three critical sections of a verifier thread. */
    method Take() returns (work: Block)
      requires unverified != []
      modifies this
      ensures Abs() == Q.Take(old(Abs())) && work == old(unverified[0].b)
    {
      work := unverified[0].b;
      unverified := unverified[1..];
      verifying := verifying + [Pending(work)];
      jobs := jobs + {work};
    }

    method Fail(work: Block)
      modifies this
      ensures Abs() == Q.Fail(old(Abs()), work)
    {
      ready := ready - {work.Hash()};
      knownBad := knownBad + {work.Hash()};
      var kept := [];
      for i := 0 to |verifying|
        invariant kept == Untagged(verifying[..i], work.Hash())
        invariant Abs() == old(Abs()).(ready := ready, knownBad := knownBad)
        invariant ready == old(ready) - {work.Hash()} && knownBad == old(knownBad) + {work.Hash()}
      {
        assert verifying[..i + 1][..i] == verifying[..i];
        if verifying[i].Tag() != work.Hash() {
          kept := kept + [verifying[i]];
        }
      }
      assert verifying[..|verifying|] == verifying;
      verifying := kept;
      jobs := jobs - {work};
      DrainVerified();
    }

    method Finish(work: Block) returns (becameReady: bool)
      modifies this
      ensures Abs() == Q.Finish(old(Abs()), work)
      ensures becameReady <==> old(verifying) != [] && old(verifying[0].Tag()) == work.Hash()
    {
      jobs := jobs - {work};
      becameReady := verifying != [] && verifying[0].Tag() == work.Hash();
      if becameReady {
        verifying := verifying[1..];
        if work.parent in knownBad {
          ready := ready - {work.Hash()};
          knownBad := knownBad + {work.Hash()};
        } else {
          verified := verified + [Done(work)];
        }
        DrainVerified();
      } else {
        Replace(work.Hash(), Done(work));
      }
    }

    method Replace(h: Hash, e: Entry)
      modifies this`verifying
      ensures verifying == Replaced(old(verifying), h, e)
    {
      var k := 0;
      while k < |verifying| && verifying[k].Tag() != h
        invariant k <= |verifying| && verifying == old(verifying)
        invariant Replaced(verifying, h, e) == verifying[..k] + Replaced(verifying[k..], h, e)
      {
        assert verifying[..k + 1] == verifying[..k] + [verifying[k]];
        assert verifying[k..][1..] == verifying[k + 1..];
        k := k + 1;
      }
      if k < |verifying| {
        assert verifying[..k] + ([e] + verifying[k..][1..]) == verifying[k := e];
        verifying := verifying[k := e];
      } else {
        assert verifying[..k] + [] == verifying;
      }
    }

    method Import(b: Block, a: Answers) returns (r: ImportResult)
      modifies this
      ensures (Abs(), r) == Q.Import(Shifting, old(Abs()), b, a)
    {
      hide Q.UpdateBad, Q.NoteReady;
      var h := b.Hash();
      if h in ready || h in draining || h in unknownSet || h in knownBad {
        return AlreadyKnown;
      }
      if a.malformed { return Malformed; }
      if a.inChain { return AlreadyInChain; }
      if a.irreversible { return Irreversible; }
      var parentReady := b.parent in ready || b.parent in draining || a.parentInChain;
      if a.inFuture {
        return if parentReady then FutureTimeKnown else FutureTimeUnknown;
      }
      if b.parent in knownBad {
        knownBad := knownBad + {h};
        UpdateBad(h);
        return BadChain;
      } else if !parentReady {
        unknown := unknown + [b];
        unknownSet := unknownSet + {h};
        return UnknownParent;
      } else {
        chain := if b.parent in ready || b.parent in draining then chain else chain + {b.parent};
        unverified := unverified + [Pending(b)];
        enqueued := enqueued + [b];
        ready := ready + {h};
        NoteReady(h);
        return Success;
      }
    }

    method Drain(max: nat) returns (out: seq<Block>)
      modifies this
      ensures Abs() == Q.Drain(old(Abs()), max) && out == DrainBatch(old(Abs()), max)
    {
      out := [];
      if draining == {} {
        var n := Min(max, |verified|);
        out := Blocks(verified[..n]);
        verified := verified[n..];
        for i := 0 to |out|
          invariant Abs() == old(Abs()).(verified := old(verified)[n..],
                                         draining := old(draining) + Hashes(out[..i]),
                                         ready := old(ready) - Hashes(out[..i]))
        {
          assert out[..i + 1] == out[..i] + [out[i]];
          HashesSnoc(out[..i], out[i]);
          draining := draining + {out[i].Hash()};
          ready := ready - {out[i].Hash()};
        }
        assert out[..|out|] == out;
      }
      drained := drained + out;
    }

    method UpdateEach(bad: seq<Hash>)
      modifies this
      ensures Abs() == UpdateAll(Shifting, old(Abs()), bad)
    {
      hide Q.UpdateBad;
      for i := 0 to |bad|
        invariant UpdateAll(Shifting, Abs(), bad[i..]) == UpdateAll(Shifting, old(Abs()), bad)
      {
        assert bad[i..][1..] == bad[i + 1..];
        UpdateBad(bad[i]);
      }
    }

    method DoneDrain(bad: seq<Hash>) returns (moreReady: bool)
      modifies this
      ensures Abs() == Q.DoneDrain(Shifting, old(Abs()), bad)
      ensures moreReady <==> ready != {}
    {
      hide UpdateAll;
      ghost var b := set h | h in bad;
      chain := chain + (draining - b);
      draining := {};
      knownBad := knownBad + set h | h in bad;
      UpdateEach(bad);
      moreReady := ready != {};
    }
  }

  lemma HashesSnoc(q: seq<Block>, b: Block)
    ensures Hashes(q + [b]) == Hashes(q) + {b.Hash()}
  {
    assert b in q + [b];
  }

  lemma AppendNothing<T>(q: seq<T>)
    ensures q + [] == q && [] + q == q
  {
  }

  lemma CondemnTwice(s: State, a: seq<Block>, b: seq<Block>)
    ensures Condemn(Condemn(s, a), b) == Condemn(s, a + b)
  {
    QueueInvariant.HashesAppend(a, b);
  }

  lemma AdmitNone(s: State)
    ensures Admit(s, []) == s
  {
    QueueInvariant.HashesNone();
    AppendNothing(s.unverified);
    AppendNothing(s.enqueued);
  }

  lemma AdmitTwice(s: State, a: seq<Block>, b: seq<Block>)
    ensures Admit(Admit(s, a), b) == Admit(s, a + b)
  {
    QueueInvariant.HashesAppend(a, b);
    QueueInvariant.Assoc(s.enqueued, a, b);
    assert Pendings(a + b) == Pendings(a) + Pendings(b);
    QueueInvariant.Assoc(s.unverified, Pendings(a), Pendings(b));
  }

  /** A harvest of `u` from `h` that has pulled out `done` and has `work` left to follow in `rest`. */
  ghost predicate Harvested(u: seq<Block>, h: Hash, rest: seq<Block>, work: seq<Hash>, done: seq<Block>) {
    Harvest(u, [h]) == (Harvest(rest, work).0, done + Harvest(rest, work).1)
  }

  lemma HarvestStep(u: seq<Block>, h: Hash, rest: seq<Block>, work: seq<Hash>, done: seq<Block>)
    requires Harvested(u, h, rest, work, done) && work != []
    ensures var kids := Kids(rest, work[0]);
            Harvested(u, h, Others(rest, work[0]), work[1..] + HashSeq(kids), done + kids)
  {
    var kids := Kids(rest, work[0]);
    QueueInvariant.Assoc(done, kids, Harvest(Others(rest, work[0]), work[1..] + HashSeq(kids)).1);
  }
}
