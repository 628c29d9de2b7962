/** Facts about sequences of blocks, their hashes and the harvest of the unknown multimap, on which the
    queue invariant rests. */
module QueueInvariant {
  import opened QueueState

  // ----- facts about hash sets and sequences of blocks

  lemma Assoc<T>(a: seq<T>, b: seq<T>, c: seq<T>)
    ensures (a + b) + c == a + (b + c)
  {
  }

  lemma HashesNone()
    ensures Hashes([]) == {}
  {
  }

  lemma HashesAppend(a: seq<Block>, b: seq<Block>)
    ensures Hashes(a + b) == Hashes(a) + Hashes(b)
  {
  }

  /** `q` without the blocks whose hash is in `gone`. */
  ghost function Without(q: seq<Block>, gone: set<Hash>): seq<Block> {
    if q == [] then [] else
    Without(q[..|q|-1], gone) + if q[|q|-1].Hash() in gone then [] else [q[|q|-1]]
  }

  lemma {:induction false} WithoutAppend(a: seq<Block>, b: seq<Block>, gone: set<Hash>)
    ensures Without(a + b, gone) == Without(a, gone) + Without(b, gone)
    decreases |b|
  {
    if b == [] {
      assert a + b == a;
    } else {
      assert (a + b)[..|a + b| - 1] == a + b[..|b|-1];
      WithoutAppend(a, b[..|b|-1], gone);
    }
  }

  lemma {:induction false} WithoutNone(q: seq<Block>, gone: set<Hash>)
    requires Hashes(q) !! gone
    ensures Without(q, gone) == q
    decreases |q|
  {
    if q != [] {
      var p := q[..|q|-1];
      assert q == p + [q[|q|-1]];
      HashesAppend(p, [q[|q|-1]]);
      assert q[|q|-1].Hash() in Hashes(q);
      WithoutNone(p, gone);
    }
  }

  lemma {:induction false} WithoutMembers(q: seq<Block>, gone: set<Hash>)
    ensures forall b :: b in Without(q, gone) <==> b in q && b.Hash() !in gone
    ensures Hashes(Without(q, gone)) == Hashes(q) - gone
    decreases |q|
  {
    if q != [] {
      var p := q[..|q|-1];
      assert q == p + [q[|q|-1]];
      WithoutMembers(p, gone);
    }
  }

  lemma {:induction false} WithoutUnique(q: seq<Block>, gone: set<Hash>)
    requires UniqueHashes(q)
    ensures UniqueHashes(Without(q, gone))
    decreases |q|
  {
    if q != [] {
      var p := q[..|q|-1];
      WithoutUnique(p, gone);
      WithoutMembers(p, gone);
      forall b | b in Without(p, gone) ensures b.Hash() != q[|q|-1].Hash() {
        assert b in p;
      }
    }
  }

  lemma UniqueAppend(a: seq<Block>, b: seq<Block>)
    requires UniqueHashes(a) && UniqueHashes(b) && Hashes(a) !! Hashes(b)
    ensures UniqueHashes(a + b)
  {
    forall i, j | 0 <= i < j < |a + b| ensures (a + b)[i].Hash() != (a + b)[j].Hash() {
      if i < |a| <= j {
        assert a[i].Hash() in Hashes(a) && b[j - |a|].Hash() in Hashes(b);
      }
    }
  }

  lemma UniqueParts(a: seq<Block>, b: seq<Block>)
    requires UniqueHashes(a + b)
    ensures UniqueHashes(a) && UniqueHashes(b) && Hashes(a) !! Hashes(b)
  {
    var q := a + b;
    forall i, j | 0 <= i < j < |a| ensures a[i].Hash() != a[j].Hash() {
      assert q[i] == a[i] && q[j] == a[j];
    }
    forall i, j | 0 <= i < j < |b| ensures b[i].Hash() != b[j].Hash() {
      assert q[|a| + i] == b[i] && q[|a| + j] == b[j];
    }
    forall x, y | x in a && y in b ensures x.Hash() != y.Hash() {
      var i :| 0 <= i < |a| && a[i] == x;
      var j :| 0 <= j < |b| && b[j] == y;
      assert q[i] == x && q[|a| + j] == y;
    }
  }

  /** Every block's parent stands earlier in `q` or is one of `roots`. */
  ghost predicate Anchored(q: seq<Block>, roots: set<Hash>) {
    forall i :: 0 <= i < |q| ==> q[i].parent in roots || q[i].parent in Hashes(q[..i])
  }

  lemma AnchoredAppend(a: seq<Block>, b: seq<Block>, roots: set<Hash>)
    requires Anchored(a, roots)
    requires Anchored(b, roots + Hashes(a))
    ensures Anchored(a + b, roots)
  {
    var q := a + b;
    forall i | 0 <= i < |q| ensures q[i].parent in roots || q[i].parent in Hashes(q[..i]) {
      if i < |a| {
        assert q[..i] == a[..i];
      } else {
        assert q[..i] == a + b[..i - |a|];
        HashesAppend(a, b[..i - |a|]);
      }
    }
  }

  lemma AnchoredParts(a: seq<Block>, b: seq<Block>, roots: set<Hash>)
    requires Anchored(a + b, roots)
    ensures Anchored(a, roots)
    ensures Anchored(b, roots + Hashes(a))
  {
    var q := a + b;
    forall i | 0 <= i < |a| ensures a[i].parent in roots || a[i].parent in Hashes(a[..i]) {
      assert q[i] == a[i] && q[..i] == a[..i];
    }
    forall i | 0 <= i < |b| ensures b[i].parent in roots + Hashes(a) || b[i].parent in Hashes(b[..i]) {
      assert q[|a| + i] == b[i] && q[..|a| + i] == a + b[..i];
      HashesAppend(a, b[..i]);
    }
  }

  lemma AnchoredSnoc(p: seq<Block>, l: Block, roots: set<Hash>)
    ensures Anchored(p + [l], roots) <==>
            Anchored(p, roots) && (l.parent in roots || l.parent in Hashes(p))
  {
    var q := p + [l];
    assert q[..|p|] == p && q[|p|] == l;
    assert forall i :: 0 <= i < |p| ==> q[i] == p[i] && q[..i] == p[..i];
  }

  lemma {:induction false} WithoutAnchored(q: seq<Block>, gone: set<Hash>, roots: set<Hash>)
    requires Anchored(q, roots)
    ensures Anchored(Without(q, gone), roots + gone)
    decreases |q|
  {
    if q != [] {
      var p, l := q[..|q|-1], q[|q|-1];
      assert q == p + [l];
      AnchoredSnoc(p, l, roots);
      WithoutAnchored(p, gone, roots);
      WithoutMembers(p, gone);
      if l.Hash() in gone {
        assert Without(q, gone) == Without(p, gone);
      } else {
        AnchoredSnoc(Without(p, gone), l, roots + gone);
      }
    }
  }

  /** `a` is a subsequence of `b`. */
  ghost predicate Subseq(a: seq<Block>, b: seq<Block>)
    decreases |b|
  {
    a == [] || (b != [] && (Subseq(a, b[..|b|-1])
                            || (a[|a|-1] == b[|b|-1] && Subseq(a[..|a|-1], b[..|b|-1]))))
  }

  lemma {:induction false} SubseqAppend(a: seq<Block>, b: seq<Block>, c: seq<Block>)
    requires Subseq(a, b)
    ensures Subseq(a + c, b + c)
    decreases |c|
  {
    if c == [] {
      assert a + c == a && b + c == b;
    } else {
      var d := c[..|c|-1];
      SubseqAppend(a, b, d);
      assert (a + c)[..|a + c| - 1] == a + d && (b + c)[..|b + c| - 1] == b + d;
    }
  }

  lemma {:induction false} SubseqWithout(x: seq<Block>, a: seq<Block>, b: seq<Block>, gone: set<Hash>)
    requires Subseq(x + a, b)
    ensures Subseq(x + Without(a, gone), b)
    decreases |b|
  {
    if a == [] {
      assert x + Without(a, gone) == x + a;
    } else {
      var a', b' := a[..|a|-1], b[..|b|-1];
      var l := a[|a|-1];
      assert (x + a)[..|x + a| - 1] == x + a' && (x + a)[|x + a| - 1] == l;
      if Subseq(x + a, b') {
        SubseqWithout(x, a, b', gone);
      } else {
        SubseqWithout(x, a', b', gone);
        var y := x + Without(a', gone);
        if l.Hash() in gone {
          assert x + Without(a, gone) == y;
        } else {
          assert x + Without(a, gone) == y + [l];
          assert (y + [l])[..|y + [l]| - 1] == y;
        }
      }
    }
  }

  // ----- the multimap harvest

  lemma {:induction false} KidsOthers(u: seq<Block>, h: Hash)
    ensures forall b :: b in Kids(u, h) <==> b in u && b.parent == h
    ensures forall b :: b in Others(u, h) <==> b in u && b.parent != h
    decreases |u|
  {
    if u != [] {
      assert u == u[..|u|-1] + [u[|u|-1]];
      KidsOthers(u[..|u|-1], h);
    }
  }

  lemma UniqueSnoc(q: seq<Block>, b: Block)
    requires UniqueHashes(q) && forall c :: c in q ==> c.Hash() != b.Hash()
    ensures UniqueHashes(q + [b])
  {
    assert forall i :: 0 <= i < |q| ==> q[i] in q;
  }

  lemma {:induction false} KidsOthersUnique(u: seq<Block>, h: Hash)
    requires UniqueHashes(u)
    ensures UniqueHashes(Kids(u, h)) && UniqueHashes(Others(u, h))
    decreases |u|
  {
    if u != [] {
      var p, l := u[..|u|-1], u[|u|-1];
      KidsOthersUnique(p, h);
      KidsOthers(p, h);
      forall b | b in p ensures b.Hash() != l.Hash() {
        var i :| 0 <= i < |p| && p[i] == b;
      }
      hide UniqueHashes;
      if l.parent == h { UniqueSnoc(Kids(p, h), l); } else { UniqueSnoc(Others(p, h), l); }
      assert Kids(p, h) + [] == Kids(p, h) && Others(p, h) + [] == Others(p, h);
    }
  }

  ghost function Elems(hs: seq<Hash>): set<Hash> {
    set h | h in hs
  }

  lemma NextWork(work: seq<Hash>, kids: seq<Block>)
    requires work != []
    ensures Elems(work[1..] + HashSeq(kids)) + {work[0]} == Elems(work) + Hashes(kids)
  {
    var next := work[1..] + HashSeq(kids);
    assert work == [work[0]] + work[1..];
    forall b | b in kids ensures b.Hash() in next {
      var i :| 0 <= i < |kids| && kids[i] == b;
      assert next[|work| - 1 + i] == b.Hash();
    }
    forall g | g in HashSeq(kids) ensures g in Hashes(kids) {
      var i :| 0 <= i < |kids| && HashSeq(kids)[i] == g;
      assert kids[i] in kids;
    }
  }

  /** What the harvest takes and what it leaves are what was there. */
  lemma {:induction false} HarvestMembers(u: seq<Block>, work: seq<Hash>)
    ensures forall b :: b in u <==> b in Harvest(u, work).0 || b in Harvest(u, work).1
    decreases |u|, |work|
  {
    if work != [] {
      KidsOthers(u, work[0]);
      HarvestMembers(Others(u, work[0]), work[1..] + HashSeq(Kids(u, work[0])));
    }
  }

  lemma KidsOthersDisjoint(u: seq<Block>, h: Hash)
    requires UniqueHashes(u)
    ensures forall x, y :: x in Kids(u, h) && y in Others(u, h) ==> x.Hash() != y.Hash()
  {
    KidsOthers(u, h);
    forall x, y | x in Kids(u, h) && y in Others(u, h) ensures x.Hash() != y.Hash() {
      var i :| 0 <= i < |u| && u[i] == x;
      var j :| 0 <= j < |u| && u[j] == y;
    }
  }

  /** ... and nothing is taken twice. */
  lemma {:induction false} HarvestUnique(u: seq<Block>, work: seq<Hash>)
    requires UniqueHashes(u)
    ensures UniqueHashes(Harvest(u, work).1 + Harvest(u, work).0)
    decreases |u|, |work|
  {
    hide UniqueHashes;
    if work == [] {
      assert [] + u == u;
    } else {
      var kids, rest := Kids(u, work[0]), Others(u, work[0]);
      var work' := work[1..] + HashSeq(kids);
      var (left, moved) := Harvest(rest, work');
      KidsOthersUnique(u, work[0]);
      KidsOthersDisjoint(u, work[0]);
      HarvestMembers(rest, work');
      HarvestUnique(rest, work');
      UniqueAppend(kids, moved + left);
      Assoc(kids, moved, left);
    }
  }

  lemma HarvestPartition(u: seq<Block>, work: seq<Hash>)
    ensures forall b :: b in u <==> b in Harvest(u, work).0 || b in Harvest(u, work).1
    ensures UniqueHashes(u) ==> UniqueHashes(Harvest(u, work).1 + Harvest(u, work).0)
  {
    hide UniqueHashes, Harvest;
    HarvestMembers(u, work);
    if UniqueHashes(u) { HarvestUnique(u, work); }
  }

  /** Everything taken follows its parent. */
  lemma {:induction false} HarvestAnchored(u: seq<Block>, work: seq<Hash>)
    ensures Anchored(Harvest(u, work).1, Elems(work))
    decreases |u|, |work|
  {
    if work != [] {
      var kids, rest := Kids(u, work[0]), Others(u, work[0]);
      var work' := work[1..] + HashSeq(kids);
      HarvestAnchored(rest, work');
      NextWork(work, kids);
      KidsOthers(u, work[0]);
      assert Anchored(kids, Elems(work));
      AnchoredAppend(kids, Harvest(rest, work').1, Elems(work));
    }
  }

  /** Nothing left is a child of the worklist or of anything taken. */
  lemma {:induction false} HarvestClosed(u: seq<Block>, work: seq<Hash>)
    ensures forall b :: b in Harvest(u, work).0 ==>
              b.parent !in Elems(work) && b.parent !in Hashes(Harvest(u, work).1)
    decreases |u|, |work|
  {
    if work != [] {
      var kids, rest := Kids(u, work[0]), Others(u, work[0]);
      var work' := work[1..] + HashSeq(kids);
      HarvestClosed(rest, work');
      HarvestPartition(rest, work');
      NextWork(work, kids);
      KidsOthers(u, work[0]);
      HashesAppend(kids, Harvest(rest, work').1);
    }
  }

  lemma {:induction false} AnchoredIsLeast(q: seq<Block>, roots: set<Hash>, closed: set<Hash>)
    requires Anchored(q, roots) && roots <= closed
    requires forall b :: b in q && b.parent in closed ==> b.Hash() in closed
    ensures Hashes(q) <= closed
    decreases |q|
  {
    if q != [] {
      var p, l := q[..|q|-1], q[|q|-1];
      assert q == p + [l];
      AnchoredSnoc(p, l, roots);
      AnchoredIsLeast(p, roots, closed);
      HashesAppend(p, [l]);
    }
  }

  /** The harvest takes exactly the descendants of the worklist: together with the worklist they
      are the least set that is closed under "child of" in the multimap. */
  lemma HarvestExact(u: seq<Block>, work: seq<Hash>, closed: set<Hash>)
    ensures var taken := Elems(work) + Hashes(Harvest(u, work).1);
            && (forall b :: b in u && b.parent in taken ==> b.Hash() in taken)
            && (Elems(work) <= closed && (forall b :: b in u && b.parent in closed ==> b.Hash() in closed)
                ==> taken <= closed)
  {
    var moved := Harvest(u, work).1;
    HarvestPartition(u, work);
    HarvestClosed(u, work);
    HarvestAnchored(u, work);
    if Elems(work) <= closed && (forall b :: b in u && b.parent in closed ==> b.Hash() in closed) {
      forall b | b in moved && b.parent in closed ensures b.Hash() in closed { assert b in u; }
      AnchoredIsLeast(moved, Elems(work), closed);
    }
  }

  lemma {:induction false} OthersAll(u: seq<Block>, h: Hash)
    requires forall b :: b in u ==> b.parent != h
    ensures Others(u, h) == u
    decreases |u|
  {
    if u != [] {
      assert u[|u|-1] in u;
      forall b | b in u[..|u|-1] ensures b.parent != h { assert b in u; }
      OthersAll(u[..|u|-1], h);
    }
  }

  lemma HarvestNothing(u: seq<Block>, h: Hash)
    requires forall b :: b in u ==> b.parent != h
    ensures Harvest(u, [h]) == (u, [])
  {
    OthersAll(u, h);
    assert |Kids(u, h)| == 0;
    assert [h][1..] + HashSeq(Kids(u, h)) == [];
  }
}
