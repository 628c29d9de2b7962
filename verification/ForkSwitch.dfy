/** Importing a block into the chain: the number-to-hash index, its cache, the producer's log and
    the bloom index while the head moves along a branch or over to another one. */
module ForkSwitch {
  import opened BlockTree
  import B = BloomIndex

  // ----- chains as sequences

  /** The blocks from height 1 up to `h`. */
  ghost function Chain(t: Tree, h: Hash): (r: seq<Hash>)
    requires WellFormed(t) && h in t
    ensures |r| == t[h].number
    ensures forall i :: 0 <= i < |r| ==> r[i] == At(t, h, i + 1)
  {
    seq(t[h].number, i requires 0 <= i < t[h].number => At(t, h, i + 1))
  }

  /** The tree with a new block on top of `parent`. */
  function Grow(t: Tree, h: Hash, parent: Hash): Tree
    requires parent in t
  {
    t[h := Details(t[parent].number + 1, parent)]
  }

  lemma GrowWellFormed(t: Tree, h: Hash, parent: Hash)
    requires WellFormed(t) && parent in t && h !in t && h != NULL
    ensures WellFormed(Grow(t, h, parent))
  {
  }

  lemma {:induction false} GrowKeeps(t: Tree, h: Hash, parent: Hash, g: Hash, n: nat)
    requires WellFormed(t) && parent in t && h !in t && h != NULL && g in t && n <= t[g].number
    requires WellFormed(Grow(t, h, parent))
    ensures At(Grow(t, h, parent), g, n) == At(t, g, n)
    decreases t[g].number
  {
    if n < t[g].number { GrowKeeps(t, h, parent, t[g].parent, n); }
  }

  lemma ChainKeeps(t: Tree, h: Hash, parent: Hash, g: Hash)
    requires WellFormed(t) && parent in t && h !in t && h != NULL && g in t
    requires WellFormed(Grow(t, h, parent))
    ensures Chain(Grow(t, h, parent), g) == Chain(t, g)
  {
    hide WellFormed, Grow;
    GrowSame(t, h, parent, g);
    forall n: nat | n <= t[g].number
        ensures At(Grow(t, h, parent), g, n) == At(t, g, n) { GrowKeeps(t, h, parent, g, n); }
  }

  lemma GrowSame(t: Tree, h: Hash, parent: Hash, g: Hash)
    requires parent in t && h !in t && g in t
    ensures g in Grow(t, h, parent) && Grow(t, h, parent)[g] == t[g]
  {
  }

  lemma GrownChain(t: Tree, h: Hash, parent: Hash)
    requires WellFormed(t) && parent in t && h !in t && h != NULL
    requires WellFormed(Grow(t, h, parent))
    ensures Chain(Grow(t, h, parent), h) == Chain(t, parent) + [h]
  {
    hide WellFormed;
    var u := Grow(t, h, parent);
    forall n: nat | n <= t[parent].number
        ensures At(u, h, n) == At(t, parent, n) { GrowKeeps(t, h, parent, parent, n); }
  }

  lemma ChainSplit(t: Tree, h: Hash, n: nat)
    requires WellFormed(t) && h in t && n <= t[h].number
    ensures Chain(t, h) == Chain(t, h)[..n] + Reversed(Down(t, h, n))
  {
    hide WellFormed;
    var c, r := Chain(t, h), Reversed(Down(t, h, n));
    forall i | n <= i < |c| ensures c[i] == r[i - n] {
      assert r[i - n] == Down(t, h, n)[t[h].number - 1 - i];
    }
  }

  lemma SharedPrefix(t: Tree, a: Hash, b: Hash)
    requires WellFormed(t) && a in t && b in t
    ensures var m := Meet(t, a, b);
            m <= t[a].number && m <= t[b].number && Chain(t, a)[..m] == Chain(t, b)[..m]
  {
    hide WellFormed, Meet;
    var m := Meet(t, a, b);
    MeetBounds(t, a, b);
    forall i | 0 <= i < m ensures Chain(t, a)[i] == Chain(t, b)[i] { MeetsBelow(t, a, b, i + 1); }
  }

  /** The two chains agree up to the lowest common ancestor; above it stand the two branches. */
  lemma Branches(t: Tree, a: Hash, b: Hash)
    requires WellFormed(t) && a in t && b in t
    ensures var m := Meet(t, a, b);
            && m <= t[a].number && m <= t[b].number
            && Chain(t, a) == Chain(t, a)[..m] + Reversed(Down(t, a, m))
            && Chain(t, b) == Chain(t, a)[..m] + Reversed(Down(t, b, m))
  {
    hide WellFormed, Meet, Chain, Down, Reversed;
    SharedPrefix(t, a, b);
    ChainSplit(t, a, Meet(t, a, b));
    ChainSplit(t, b, Meet(t, a, b));
  }

  /** The route of a fork switch: the dead branch downwards, the ancestor, the new branch upwards. */
  ghost function Dead(t: Tree, head: Hash, parent: Hash): seq<Hash>
    requires WellFormed(t) && head in t && parent in t
  {
    Down(t, head, Meet(t, head, parent))
  }

  ghost function Live(t: Tree, head: Hash, parent: Hash, h: Hash): seq<Hash>
    requires WellFormed(t) && head in t && parent in t
  {
    Reversed(Down(t, parent, Meet(t, head, parent))) + [h]
  }

  /** New chain = old chain without the dead blocks, followed by the live ones. */
  lemma SwitchedChain(t: Tree, head: Hash, parent: Hash, h: Hash)
    requires WellFormed(t) && head in t && parent in t && h !in t && h != NULL
    ensures WellFormed(Grow(t, h, parent))
    ensures var m := Meet(t, head, parent);
            && m <= t[head].number
            && Chain(t, head) == Chain(t, head)[..m] + Reversed(Dead(t, head, parent))
            && Chain(Grow(t, h, parent), h) == Chain(t, head)[..m] + Live(t, head, parent, h)
  {
    GrowWellFormed(t, h, parent);
    hide WellFormed, Grow, Meet, Down, Reversed, Chain;
    Branches(t, head, parent);
    GrownChain(t, h, parent);
    var x, y := Chain(t, head)[..Meet(t, head, parent)], Reversed(Down(t, parent, Meet(t, head, parent)));
    assert x + y + [h] == x + (y + [h]);
  }

  lemma RouteHeights(t: Tree, head: Hash, parent: Hash, h: Hash)
    requires WellFormed(t) && head in t && parent in t && h !in t && h != NULL
    ensures var m, dead, live := Meet(t, head, parent), Dead(t, head, parent), Live(t, head, parent, h);
            && m <= t[head].number && |dead| == t[head].number - m && |live| == t[parent].number + 1 - m
            && (forall i :: 0 <= i < |dead| ==> dead[i] in t && t[dead[i]].number == m + |dead| - i)
            && (forall i :: 0 <= i < |live| ==>
                  live[i] in Grow(t, h, parent) && Grow(t, h, parent)[live[i]].number == m + 1 + i)
  {
    hide WellFormed, Meet;
    MeetBounds(t, head, parent);
  }

  /** The ancestor is where the route turns: not among the dead blocks. */
  lemma TurningPoint(t: Tree, head: Hash, parent: Hash, h: Hash)
    requires WellFormed(t) && head in t && parent in t && h !in t && h != NULL
    ensures var c, dead := At(t, head, Meet(t, head, parent)), Dead(t, head, parent);
            && c !in dead && (c == head <==> Meet(t, head, parent) == t[head].number)
            && t[c].number == Meet(t, head, parent)
            && RouteOf(t, head, parent, true, true, true) + [h] == dead + [c] + Live(t, head, parent, h)
  {
    hide WellFormed, Meet;
    MeetBounds(t, head, parent);
    RouteHeights(t, head, parent, h);
    var m := Meet(t, head, parent);
    var c, dead, up := At(t, head, m), Dead(t, head, parent), Reversed(Down(t, parent, m));
    assert (dead + [c] + up) + [h] == dead + [c] + (up + [h]);
  }

  // ----- the index and the producer's log

  /** The entries of consecutive blocks from number `first` on. */
  ghost function Numbered(first: nat, c: seq<Hash>): (r: map<nat, Hash>)
    ensures forall n: nat :: n in r <==> first <= n < first + |c|
    ensures forall n: nat :: n in r ==> r[n] == c[n - first]
    decreases |c|
  {
    if c == [] then map[] else Numbered(first, c[..|c|-1])[first + |c| - 1 := c[|c|-1]]
  }

  lemma NumberedNone(first: nat)
    ensures Numbered(first, []) == map[]
  {
  }

  lemma NumberedMore(first: nat, c: seq<Hash>, h: Hash)
    ensures Numbered(first, c + [h]) == Numbered(first, c)[first + |c| := h]
  {
    assert (c + [h])[..|c|] == c;
  }

  /** Writing the entries of a branch over the old index gives the index of the new chain, because the
      new chain is not shorter. */
  lemma SwitchedIndex(c: seq<Hash>, m: nat, live: seq<Hash>)
    requires m <= |c| <= m + |live|
    ensures Numbered(1, c) + Numbered(m + 1, live) == Numbered(1, c[..m] + live)
  {
    hide Numbered;
    var d := c[..m] + live;
    var a, b := Numbered(1, c), Numbered(m + 1, live);
    var x, y := a + b, Numbered(1, d);
    assert |d| == m + |live|;
    forall n: nat ensures n in x <==> n in y { }
    forall n: nat | n in x ensures x[n] == y[n] {
      if n <= m {
        assert n !in b && x[n] == a[n] && d[n - 1] == c[n - 1];
      } else {
        assert n in b && x[n] == b[n] && d[n - 1] == live[n - m - 1];
      }
    }
  }

  ghost predicate AllAccepted(accept: (seq<Hash>, Hash) -> bool, log: seq<Hash>) {
    forall i :: 0 <= i < |log| ==> accept(log[..i], log[i])
  }

  ghost function BloomsOf(bloomOf: Hash -> B.Bloom, log: seq<Hash>): (r: seq<B.Bloom>)
    ensures |r| == |log| && forall i :: 0 <= i < |r| ==> r[i] == bloomOf(log[i])
  {
    seq(|log|, i requires 0 <= i < |log| => bloomOf(log[i]))
  }

  /** The blooms of the blocks above height `m` were added. */
  ghost predicate Raised(x: B.Index, y: B.Index, bloomOf: Hash -> B.Bloom, log: seq<Hash>, m: nat) {
    forall n: nat :: B.Get(y.low, n) == B.Get(x.low, n) + if m < n <= |log| then bloomOf(log[n - 1]) else {}
  }

  lemma NothingRaised(x: B.Index, bloomOf: Hash -> B.Bloom, log: seq<Hash>)
    ensures Raised(x, x, bloomOf, log, |log|)
  {
  }

  lemma RaisedMore(x: B.Index, y: B.Index, bloomOf: Hash -> B.Bloom, log: seq<Hash>, h: Hash, m: nat)
    requires Raised(x, y, bloomOf, log, m) && m <= |log|
    ensures Raised(x, B.Add(y, |log| + 1, bloomOf(h)), bloomOf, log + [h], m)
  {
    var l, z := log + [h], B.Add(y, |log| + 1, bloomOf(h));
    forall n: nat ensures B.Get(z.low, n) == B.Get(x.low, n) + if m < n <= |l| then bloomOf(l[n - 1]) else {} {
      assert 0 < n <= |log| ==> l[n - 1] == log[n - 1];
    }
  }

  /** The entries above height `m` up to `top` were emptied. */
  ghost predicate Lowered(x: B.Index, y: B.Index, m: nat, top: nat) {
    forall n: nat :: B.Get(y.low, n) == if m < n <= top then {} else B.Get(x.low, n)
  }

  lemma ClearedLowers(x: B.Index, y: B.Index, m: nat, top: nat)
    requires B.Cleared(x, y, m + 1, top + 1)
    ensures Lowered(x, y, m, top)
  {
    hide B.Coherent;
  }

  /** Down to the ancestor, if there is a fork, and up the new branch. */
  lemma LoweredThenRaised(x: B.Index, y: B.Index, z: B.Index, bloomOf: Hash -> B.Bloom, log: seq<Hash>, m: nat,
      top: nat)
    requires if m == top then y == x else Lowered(x, y, m, top)
    requires Raised(y, z, bloomOf, log, m) && |log| == top + 1 && m <= top
    ensures Tried(x, z, bloomOf, log, m)
  {
  }

  /** Part of the way up the new branch, down again, and up the old one. */
  lemma RaisedThenRestored(x: B.Index, y: B.Index, z: B.Index, v: B.Index, w: B.Index, bloomOf: Hash -> B.Bloom,
                           log: seq<Hash>, part: seq<Hash>, m: nat)
    requires if m == |log| then y == x else Lowered(x, y, m, |log|)
    requires Raised(y, z, bloomOf, part, m) && |part| <= |log|
    requires Lowered(z, v, m, |log|) && Raised(v, w, bloomOf, log, m)
    ensures Restored(x, w, bloomOf, log, m)
  {
  }

  /** After a roll-back: above `m` the entries of the old chain, whatever was there before; below, and
      above the head, nothing changed. */
  ghost predicate Restored(x: B.Index, y: B.Index, bloomOf: Hash -> B.Bloom, log: seq<Hash>, m: nat) {
    forall n: nat :: B.Get(y.low, n) == if m < n <= |log| then bloomOf(log[n - 1]) else B.Get(x.low, n)
  }

  /** Once the branch is pushed: its entries above `m`, the last one added to what was there. */
  ghost predicate Tried(x: B.Index, y: B.Index, bloomOf: Hash -> B.Bloom, log: seq<Hash>, m: nat) {
    forall n: nat :: B.Get(y.low, n) == if m < n < |log| then bloomOf(log[n - 1])
                                        else B.Get(x.low, n) + if n == |log| > 0 then bloomOf(log[n - 1]) else {}
  }

  /** After a switch to the head `h` above the old head `top`: entries up to the ancestor are kept, those
      up to the old head are empty, and the new head has its own. */
  ghost predicate Moved(x: B.Index, y: B.Index, bloomOf: Hash -> B.Bloom, h: Hash, m: nat, top: nat) {
    forall n: nat :: B.Get(y.low, n) == if m < n <= top then {}
                                        else B.Get(x.low, n) + if n == top + 1 then bloomOf(h) else {}
  }

  lemma TriedThenCleared(x: B.Index, y: B.Index, z: B.Index, bloomOf: Hash -> B.Bloom, log: seq<Hash>, m: nat, top: nat)
    requires Tried(x, y, bloomOf, log, m) && |log| == top + 1 && m <= top
    requires if m == top then z == y else B.Cleared(y, z, m + 1, top + 1)
    ensures Moved(x, z, bloomOf, log[top], m, top)
  {
    hide B.Coherent;
  }

  /** The head is the highest block; the index and the log are its chain. */
  ghost predicate Consistent(t: Tree, head: Hash, number: nat, index: map<nat, Hash>, log: seq<Hash>,
                             accept: (seq<Hash>, Hash) -> bool)
  {
    && WellFormed(t) && head in t && number == t[head].number
    && (forall h :: h in t ==> t[h].number <= number)
    && log == Chain(t, head) && index == Numbered(1, log) && AllAccepted(accept, log)
  }

  lemma AsideConsistent(t: Tree, head: Hash, number: nat, index: map<nat, Hash>, log: seq<Hash>,
                        accept: (seq<Hash>, Hash) -> bool, h: Hash, parent: Hash)
    requires Consistent(t, head, number, index, log, accept)
    requires parent in t && h !in t && h != NULL && t[parent].number + 1 <= number
    ensures Consistent(Grow(t, h, parent), head, number, index, log, accept)
  {
    GrowWellFormed(t, h, parent);
    hide WellFormed, Grow, Chain, AllAccepted, Numbered;
    ChainKeeps(t, h, parent, head);
    GrowNumbers(t, h, parent);
  }

  /** The numbers fit: the new block is one above the old head, and the two branches start at the same
      height. */
  lemma SwitchReady(t: Tree, head: Hash, number: nat, index: map<nat, Hash>, log: seq<Hash>,
                    accept: (seq<Hash>, Hash) -> bool, h: Hash, parent: Hash)
    requires Consistent(t, head, number, index, log, accept)
    requires parent in t && h !in t && h != NULL && t[parent].number + 1 > number
    ensures var m, dead, live := Meet(t, head, parent), Dead(t, head, parent), Live(t, head, parent, h);
            && t[parent].number == number && m <= |log| == number && m + |live| == number + 1
            && log == log[..m] + Reversed(dead)
            && (forall i :: 0 <= i < |dead| ==> dead[i] in t && t[dead[i]].number == m + |dead| - i)
            && (forall i :: 0 <= i < |live| ==>
                  live[i] in Grow(t, h, parent) && Grow(t, h, parent)[live[i]].number == m + 1 + i)
  {
    hide WellFormed, Grow, Chain, AllAccepted, Numbered, Meet, Dead, Live;
    SwitchedChain(t, head, parent, h);
    RouteHeights(t, head, parent, h);
  }

  /** After every successful switch the index and the log are again the chain of the new head. */
  lemma SwitchConsistent(t: Tree, head: Hash, number: nat, index: map<nat, Hash>, log: seq<Hash>,
                         accept: (seq<Hash>, Hash) -> bool, h: Hash, parent: Hash)
    requires Consistent(t, head, number, index, log, accept)
    requires parent in t && h !in t && h != NULL && t[parent].number + 1 > number
    requires Meet(t, head, parent) <= |log|
    requires AllAccepted(accept, log[..Meet(t, head, parent)] + Live(t, head, parent, h))
    ensures var m, live := Meet(t, head, parent), Live(t, head, parent, h);
            Consistent(Grow(t, h, parent), h, number + 1, index + Numbered(m + 1, live), log[..m] + live, accept)
  {
    hide WellFormed, Grow, Chain, AllAccepted, Numbered, Meet, Live;
    SwitchReady(t, head, number, index, log, accept, h, parent);
    SwitchedChain(t, head, parent, h);
    GrowNumbers(t, h, parent);
    SwitchedIndex(log, Meet(t, head, parent), Live(t, head, parent, h));
  }

  /** The old and the new chain hold the same block at exactly the heights up to the ancestor. */
  lemma BranchesDiffer(t: Tree, a: Hash, b: Hash, n: nat)
    requires WellFormed(t) && a in t && b in t && 1 <= n <= t[a].number && n <= t[b].number
    ensures Chain(t, a)[n - 1] == Chain(t, b)[n - 1] <==> n <= Meet(t, a, b)
  {
    hide WellFormed, Meet;
    assert Chain(t, a)[n - 1] == Chain(t, b)[n - 1] <==> Meets(t, a, b, n);
    if n <= Meet(t, a, b) { MeetsBelow(t, a, b, n); }
  }

  lemma RememberExact(cache: map<nat, Hash>, log: seq<Hash>, n: nat, h: Hash)
    requires Agrees(cache, Numbered(1, log)) && 1 <= n <= |log|
    ensures Agrees(cache[n := h], Numbered(1, log)) <==> log[n - 1] == h
  {
    hide Numbered;
    var c := cache[n := h];
    assert n in c && c[n] == h && Numbered(1, log)[n] == log[n - 1];
  }

  /** A reader that took its answer from the database before the switch and remembers it only afterwards
      puts a wrong entry into the cache exactly when it asked for a height above the ancestor. */
  lemma StaleReadExact(t: Tree, head: Hash, parent: Hash, h: Hash, n: nat, cache: map<nat, Hash>)
    requires WellFormed(t) && head in t && parent in t && h !in t && h != NULL
    requires WellFormed(Grow(t, h, parent))
    requires 1 <= n <= t[head].number && n <= t[parent].number
    requires Agrees(cache, Numbered(1, Chain(Grow(t, h, parent), h)))
    ensures Agrees(cache[n := Chain(t, head)[n - 1]], Numbered(1, Chain(Grow(t, h, parent), h)))
            <==> n <= Meet(t, head, parent)
  {
    hide WellFormed, Meet, Agrees, Numbered;
    GrownChain(t, h, parent);
    BranchesDiffer(t, head, parent, n);
    RememberExact(cache, Chain(Grow(t, h, parent), h), n, Chain(t, head)[n - 1]);
  }

  ghost predicate Agrees(cache: map<nat, Hash>, index: map<nat, Hash>) {
    forall n :: n in cache ==> n in index && cache[n] == index[n]
  }

  datatype ImportRoute = ImportRoute(dead: seq<Hash>, live: seq<Hash>)

  datatype Outcome = Aside | Switched | Refused | RolledBack

  class ChainDb {
    const accept: (seq<Hash>, Hash) -> bool      // the producer's verdict, decided by its log
    const lastIrreversible: seq<Hash> -> nat
    const bloomOf: Hash -> B.Bloom
    const blooms: B.Blooms
    var tree: Tree
    var index: map<nat, Hash>
    var cache: map<nat, Hash>
    var head: Hash
    var headNumber: nat
    var log: seq<Hash>

    constructor (genesis: Hash, accept: (seq<Hash>, Hash) -> bool, lastIrreversible: seq<Hash> -> nat,
                 bloomOf: Hash -> B.Bloom)
      requires genesis != NULL
      ensures Valid() && CacheAgrees() && BloomsMatch() && head == genesis && fresh(blooms)
      ensures this.accept == accept && this.lastIrreversible == lastIrreversible && this.bloomOf == bloomOf
    {
      this.accept, this.lastIrreversible, this.bloomOf := accept, lastIrreversible, bloomOf;
      blooms := new B.Blooms();
      tree := map[genesis := Details(0, NULL)];
      index, cache, head, headNumber, log := map[], map[], genesis, 0, [];
    }

    /** The head is the highest block; the index and the log are its chain. */
    ghost predicate Valid()
      reads this
    {
      Consistent(tree, head, headNumber, index, log, accept)
    }

    /** Whatever is cached is what the database says. */
    ghost predicate CacheAgrees()
      reads this
    {
      Agrees(cache, index)
    }

    ghost predicate BloomsMatch()
      reads this, blooms
    {
      B.Represents(blooms.Abs(), BloomsOf(bloomOf, log))
    }

    /** A reader of another thread: looks into the cache, then into the database, and remembers. */
    method NumberHash(n: nat) returns (h: Hash)
      requires n > 0
      modifies this`cache
      ensures h == if n in old(cache) then old(cache)[n] else if n in index then index[n] else NULL
      ensures cache == if n in old(cache) || n !in index then old(cache) else old(cache)[n := index[n]]
    {
      if n in cache { return cache[n]; }
      if n !in index { return NULL; }
      cache := cache[n := index[n]];
      return index[n];
    }

    /** `clearCachesDuringChainReversion` */
    method ClearCaches(first: nat)
      requires B.Coherent(blooms.Abs()) && first <= headNumber + 1
      modifies this`cache, blooms
      ensures cache == map n | n in old(cache) && !(first <= n <= headNumber) :: old(cache)[n]
      ensures B.Cleared(old(blooms.Abs()), blooms.Abs(), first, headNumber + 1)
    {
      var i := first;
      while i < headNumber + 1
        invariant first <= i <= headNumber + 1
        invariant cache == map n | n in old(cache) && !(first <= n < i) :: old(cache)[n]
        invariant blooms.Abs() == old(blooms.Abs())
      {
        cache := cache - {i};
        i := i + 1;
      }
      blooms.Clear(first, headNumber + 1);
    }

    /** One `push_block` and the bloom entries it leads to. */
    method Push(cur: Hash, number: nat) returns (ok: bool)
      requires B.Coherent(blooms.Abs()) && AllAccepted(accept, log) && number == |log| + 1
      modifies this`log, blooms
      ensures ok == accept(old(log), cur)
      ensures log == if ok then old(log) + [cur] else old(log)
      ensures blooms.Abs() == if ok then B.Add(old(blooms.Abs()), number, bloomOf(cur)) else old(blooms.Abs())
      ensures AllAccepted(accept, log) && B.Coherent(blooms.Abs())
      ensures old(BloomsMatch()) ==> BloomsMatch()
    {
      hide B.Coherent, B.Represents, AllAccepted;
      ok := accept(log, cur);
      if ok {
        AcceptedMore(accept, log, cur);
        B.AddCoherent(blooms.Abs(), number, bloomOf(cur));
        if BloomsMatch() { BloomsMore(bloomOf, log, cur, blooms.Abs()); }
        log := log + [cur];
        blooms.AddBlock(number, bloomOf(cur));
      }
    }

    /** The same, following what was added to the blooms `x` above height `m`. */
    method PushOnto(cur: Hash, number: nat, ghost x: B.Index, ghost m: nat) returns (ok: bool)
      requires B.Coherent(blooms.Abs()) && AllAccepted(accept, log) && number == |log| + 1
      requires Raised(x, blooms.Abs(), bloomOf, log, m) && m <= |log|
      modifies this`log, blooms
      ensures ok == accept(old(log), cur)
      ensures log == if ok then old(log) + [cur] else old(log)
      ensures Raised(x, blooms.Abs(), bloomOf, log, m)
      ensures AllAccepted(accept, log) && B.Coherent(blooms.Abs())
      ensures old(BloomsMatch()) ==> BloomsMatch()
    {
      hide B.Coherent, BloomsMatch, AllAccepted, Raised, B.Add;
      ghost var before, seen := log, blooms.Abs();
      ok := Push(cur, number);
      if ok { RaisedMore(x, seen, bloomOf, before, cur, m); }
    }

    /** Pushing the blocks of a branch that starts at height |log| + 1, until one is refused. */
    method PushBranch(live: seq<Hash>, known: Tree) returns (pushed: nat, batch: map<nat, Hash>)
      requires B.Coherent(blooms.Abs()) && AllAccepted(accept, log)
      requires forall i :: 0 <= i < |live| ==> live[i] in known && known[live[i]].number == |log| + 1 + i
      modifies this`log, blooms
      ensures pushed <= |live| && log == old(log) + live[..pushed] && AllAccepted(accept, log)
      ensures pushed < |live| ==> !accept(log, live[pushed])
      ensures batch == Numbered(|old(log)| + 1, live[..pushed])
      ensures Raised(old(blooms.Abs()), blooms.Abs(), bloomOf, log, |old(log)|)
      ensures B.Coherent(blooms.Abs()) && (old(BloomsMatch()) ==> BloomsMatch())
    {
      hide B.Coherent, BloomsMatch, AllAccepted, Numbered, Raised, B.Add;
      pushed, batch := 0, map[];
      NothingRaised(blooms.Abs(), bloomOf, log);
      assert live[..0] == [] && log + [] == log;
      NumberedNone(|log| + 1);
      while pushed < |live|
        invariant pushed <= |live| && log == old(log) + live[..pushed] && AllAccepted(accept, log)
        invariant batch == Numbered(|old(log)| + 1, live[..pushed])
        invariant Raised(old(blooms.Abs()), blooms.Abs(), bloomOf, log, |old(log)|)
        invariant B.Coherent(blooms.Abs()) && (old(BloomsMatch()) ==> BloomsMatch())
      {
        var cur := live[pushed];
        var ok := PushOnto(cur, known[cur].number, old(blooms.Abs()), |old(log)|);
        if !ok { return; }
        assert live[..pushed + 1] == live[..pushed] + [cur];
        NumberedMore(|old(log)| + 1, live[..pushed], cur);
        batch := batch[known[cur].number := cur];
        pushed := pushed + 1;
      }
      assert live[..pushed] == live;
    }

    /** Back to height `m`: caches, blooms and the producer's database. */
    method Revert(m: nat)
      requires B.Coherent(blooms.Abs()) && m <= |log| <= headNumber && AllAccepted(accept, log)
      modifies this`cache, this`log, blooms
      ensures log == old(log)[..m] && AllAccepted(accept, log) && B.Coherent(blooms.Abs())
      ensures cache == map n | n in old(cache) && !(m + 1 <= n <= headNumber) :: old(cache)[n]
      ensures Lowered(old(blooms.Abs()), blooms.Abs(), m, headNumber)
      ensures old(BloomsMatch()) ==> BloomsMatch()
    {
      hide B.Coherent, B.Represents, AllAccepted;
      ghost var seen := blooms.Abs();
      ClearCaches(m + 1);
      ClearedLowers(seen, blooms.Abs(), m, headNumber);
      assert B.Coherent(blooms.Abs()) by { ClearedCoherent(seen, blooms.Abs(), m + 1, headNumber + 1); }
      if old(BloomsMatch()) {
        B.ClearedRepresents(seen, blooms.Abs(), BloomsOf(bloomOf, log), m, headNumber + 1);
        assert BloomsOf(bloomOf, log)[..m] == BloomsOf(bloomOf, log[..m]);
      }
      assert [] + log == log;
      AcceptedPrefix(accept, [], log, m);
      assert [] + log[..m] == log[..m];
      log := log[..m];
    }

    /** Putting the old branch back, from the ancestor's child up to the old head. */
    method Replay(dead: seq<Hash>)
      requires B.Coherent(blooms.Abs()) && AllAccepted(accept, log + Reversed(dead))
      requires forall i :: 0 <= i < |dead| ==> dead[i] in tree && tree[dead[i]].number == |log| + |dead| - i
      modifies this`log, blooms
      ensures log == old(log) + Reversed(dead)
      ensures Raised(old(blooms.Abs()), blooms.Abs(), bloomOf, log, |old(log)|)
      ensures B.Coherent(blooms.Abs()) && (old(BloomsMatch()) ==> BloomsMatch())
    {
      hide B.Coherent, BloomsMatch, AllAccepted, Reversed, Raised, B.Add;
      ghost var up := Reversed(dead);
      assert up[..0] == [] && log + [] == log;
      var i := |dead|;
      NothingRaised(blooms.Abs(), bloomOf, log);
      AcceptedPrefix(accept, log, up, 0);
      while i > 0
        invariant 0 <= i <= |dead| && log == old(log) + up[..|dead| - i] && AllAccepted(accept, log)
        invariant Raised(old(blooms.Abs()), blooms.Abs(), bloomOf, log, |old(log)|)
        invariant B.Coherent(blooms.Abs()) && (old(BloomsMatch()) ==> BloomsMatch())
      {
        i := i - 1;
        ghost var k := |dead| - i;
        assert up[k - 1] == dead[i] && up[..k] == up[..k - 1] + [dead[i]];
        AcceptedPrefix(accept, old(log), up, k - 1);
        var ok := PushOnto(dead[i], tree[dead[i]].number, old(blooms.Abs()), |old(log)|);
      }
      assert up[..|dead|] == up;
    }

    /** Move the log and the blooms over to `live`; if the producer refuses a block, move back. */
    method TrySwitch(m: nat, dead: seq<Hash>, live: seq<Hash>, known: Tree) returns (ok: bool, batch: map<nat, Hash>)
      requires B.Coherent(blooms.Abs()) && AllAccepted(accept, log)
      requires m <= |log| == headNumber && m + |live| == headNumber + 1 && log == log[..m] + Reversed(dead)
      requires forall i :: 0 <= i < |dead| ==> dead[i] in tree && tree[dead[i]].number == m + |dead| - i
      requires forall i :: 0 <= i < |live| ==> live[i] in known && known[live[i]].number == m + 1 + i
      modifies this`cache, this`log, blooms
      ensures forall n :: n in cache ==> n in old(cache) && cache[n] == old(cache)[n]
      ensures ok <==> AllAccepted(accept, old(log)[..m] + live)
      ensures log == if ok then old(log)[..m] + live else old(log)
      ensures ok ==> batch == Numbered(m + 1, live)
      ensures !ok ==> Restored(old(blooms.Abs()), blooms.Abs(), bloomOf, log, m)
      ensures ok ==> Tried(old(blooms.Abs()), blooms.Abs(), bloomOf, log, m)
      ensures B.Coherent(blooms.Abs()) && (old(BloomsMatch()) ==> BloomsMatch())
    {
      hide B.Coherent, BloomsMatch, AllAccepted, Numbered, Raised, Lowered, Restored, Tried;
      ghost var base := log[..m];
      if m != headNumber { Revert(m); }
      assert log == base;
      ghost var y := blooms.Abs();
      var pushed: nat;
      pushed, batch := PushBranch(live, known);
      ghost var z, part := blooms.Abs(), log;
      ok := pushed == |live|;
      assert live[..|live|] == live;
      if !ok {
        RefusedSomewhere(accept, base, live, pushed);
        Revert(m);
        assert log == base;
        ghost var v := blooms.Abs();
        Replay(dead);
        RaisedThenRestored(old(blooms.Abs()), y, z, v, blooms.Abs(), bloomOf, log, part, m);
      } else {
        LoweredThenRaised(old(blooms.Abs()), y, z, bloomOf, log, m, headNumber);
      }
    }

    /** The new head's chain becomes the canonical one, in the databases and in memory. */
    method Commit(h: Hash, n: nat, known: Tree, batch: map<nat, Hash>, m: nat, early: seq<nat>, late: seq<nat>)
      requires CacheAgrees() && B.Coherent(blooms.Abs()) && m <= headNumber
      requires forall k: nat :: k in index ==> k <= headNumber
      requires forall k: nat :: k in batch ==> m < k
      modifies this, blooms
      ensures tree == known && index == old(index) + batch && head == h && headNumber == n && log == old(log)
      ensures CacheAgrees() && B.Coherent(blooms.Abs())
      ensures if m == old(headNumber) then blooms.Abs() == old(blooms.Abs())
              else B.Cleared(old(blooms.Abs()), blooms.Abs(), m + 1, old(headNumber) + 1)
    {
      hide B.Coherent;
      Readers(early);
      assert CacheAgrees();
      ghost var before := index;
      tree := known;
      index := index + batch;
      if m != headNumber {
        Readers(late);
        ghost var seen := blooms.Abs();
        ClearCaches(m + 1);
        ClearedCoherent(seen, blooms.Abs(), m + 1, headNumber + 1);
      }
      head, headNumber := h, n;
    }

    /** The import of a block above the head. */
    method InsertBest(h: Hash, parent: Hash, early: seq<nat>, late: seq<nat>)
        returns (r: ImportRoute, ghost how: Outcome)
      requires Valid() && CacheAgrees() && B.Coherent(blooms.Abs())
      requires h !in tree && h != NULL && parent in tree && tree[parent].number + 1 > headNumber
      modifies this, blooms
      ensures Valid() && CacheAgrees() && B.Coherent(blooms.Abs())
      ensures Inserted(old(tree), old(head), old(headNumber), old(index), old(log), h, parent, r, how)
      ensures how == Aside || how == Refused ==> blooms.Abs() == old(blooms.Abs())
      ensures how == RolledBack ==>
                Restored(old(blooms.Abs()), blooms.Abs(), bloomOf, log, Meet(old(tree), old(head), parent))
      ensures how == Switched ==>
                Moved(old(blooms.Abs()), blooms.Abs(), bloomOf, h, Meet(old(tree), old(head), parent), old(headNumber))
      ensures old(BloomsMatch()) ==>
                if how == Switched && Meet(old(tree), old(head), parent) < old(headNumber)
                then Wiped(blooms.Abs(), BloomsOf(bloomOf, log), Meet(old(tree), old(head), parent), old(headNumber))
                else BloomsMatch()
    {
      hide Agrees, B.Coherent, B.Represents, B.Cleared, Wiped, AllAccepted, WellFormed, Meet, Chain, Numbered, Dead,
        Live, Grow, Restored, Tried, Moved;
      ghost var m, log0, number0 := Meet(tree, head, parent), log, headNumber;
      SwitchReady(tree, head, headNumber, index, log, accept, h, parent);
      var refused, dead, live, common := RouteTo(h, parent);
      if refused { return ImportRoute([], []), Refused; }
      var known := Grow(tree, h, parent);
      var ok, batch := TrySwitch(tree[common].number, dead, live, known);
      FewerAgree(cache, old(cache), index);
      if !ok { return ImportRoute([], []), RolledBack; }
      SwitchConsistent(tree, head, headNumber, index, log0, accept, h, parent);
      IndexBounds(index, log0, batch, m, live);
      ghost var seen, newLog := blooms.Abs(), log;
      Commit(h, tree[parent].number + 1, known, batch, tree[common].number, early, late);
      if B.Represents(seen, BloomsOf(bloomOf, log)) && m < number0 {
        WipedByClear(seen, blooms.Abs(), BloomsOf(bloomOf, log), m, number0);
      }
      TriedThenCleared(old(blooms.Abs()), seen, blooms.Abs(), bloomOf, newLog, m, number0);
      assert newLog[number0] == h;
      return ImportRoute(dead, live), Switched;
    }

    /** The route over the common ancestor, split where it turns. */
    method RouteTo(h: Hash, parent: Hash) returns (refused: bool, dead: seq<Hash>, live: seq<Hash>, common: Hash)
      requires WellFormed(tree) && head in tree && parent in tree && h !in tree && h != NULL
      ensures refused <==> Meet(tree, head, parent) < lastIrreversible(log)
      ensures !refused ==> dead == Dead(tree, head, parent) && live == Live(tree, head, parent, h)
                           && common in tree && tree[common].number == Meet(tree, head, parent)
    {
      hide WellFormed, Meet, Dead, Live, RouteOf, CodeIndex;
      TurningPoint(tree, head, parent, h);
      var answer := TreeRoute(tree, head, parent, true, true, true, true, lastIrreversible(log));
      if answer.ExceedIrreversible? { return true, [], [], NULL; }
      common := answer.r.common;
      var route := answer.r.blocks + [h];
      var turn := FindTurn(route, common);
      TurnsThere(route, common, turn, Dead(tree, head, parent), Live(tree, head, parent, h));
      return false, route[..turn], route[turn + 1..], common;
    }

    /** How an import changed the chain. */
    ghost predicate Inserted(t: Tree, head0: Hash, number0: nat, index0: map<nat, Hash>, log0: seq<Hash>,
                             h: Hash, parent: Hash, r: ImportRoute, how: Outcome)
      requires WellFormed(t) && head0 in t && parent in t
      reads this
    {
      && how == Verdict(t, head0, parent, h, log0, accept, lastIrreversible(log0))
      && tree == (if how == Aside || how == Switched then Grow(t, h, parent) else t)
      && (how != Switched ==> head == head0 && headNumber == number0 && index == index0 && log == log0
                              && r == ImportRoute([], []))
      && (how == Switched ==>
            && head == h && headNumber == number0 + 1
            && r == ImportRoute(Dead(t, head0, parent), Live(t, head0, parent, h)))
    }

    /** `insertBlockAndExtras`. `early` and `late` are the numbers other threads ask for before and after
        the databases are written. */
    method Insert(h: Hash, parent: Hash, early: seq<nat>, late: seq<nat>) returns (r: ImportRoute, ghost how: Outcome)
      requires Valid() && CacheAgrees() && B.Coherent(blooms.Abs())
      requires h !in tree && h != NULL && parent in tree
      modifies this, blooms
      ensures Valid() && CacheAgrees() && B.Coherent(blooms.Abs())
      ensures Inserted(old(tree), old(head), old(headNumber), old(index), old(log), h, parent, r, how)
      ensures how == Aside || how == Refused ==> blooms.Abs() == old(blooms.Abs())
      ensures how == RolledBack ==>
                Restored(old(blooms.Abs()), blooms.Abs(), bloomOf, log, Meet(old(tree), old(head), parent))
      ensures how == Switched ==>
                Moved(old(blooms.Abs()), blooms.Abs(), bloomOf, h, Meet(old(tree), old(head), parent), old(headNumber))
      ensures old(BloomsMatch()) ==>
                if how == Switched && Meet(old(tree), old(head), parent) < old(headNumber)
                then Wiped(blooms.Abs(), BloomsOf(bloomOf, log), Meet(old(tree), old(head), parent), old(headNumber))
                else BloomsMatch()
    {
      hide Agrees, B.Coherent, B.Represents, Wiped, AllAccepted, WellFormed, Meet, Chain, Numbered, Dead, Live,
        Restored, Moved;
      if tree[parent].number + 1 <= headNumber {
        AsideConsistent(tree, head, headNumber, index, log, accept, h, parent);
        tree := Grow(tree, h, parent);
        return ImportRoute([], []), Aside;
      }
      r, how := InsertBest(h, parent, early, late);
    }

    /** Other threads asking for hashes by number. */
    method Readers(numbers: seq<nat>)
      modifies this`cache
      ensures forall n :: n in old(cache) ==> n in cache && cache[n] == old(cache)[n]
      ensures forall n :: n in cache && n !in old(cache) ==> n in index && cache[n] == index[n]
    {
      for i := 0 to |numbers|
        invariant forall n :: n in old(cache) ==> n in cache && cache[n] == old(cache)[n]
        invariant forall n :: n in cache && n !in old(cache) ==> n in index && cache[n] == index[n]
      {
        if numbers[i] > 0 { var h := NumberHash(numbers[i]); }
      }
    }
  }

  /** A bloom index of `chain` in which the entries above `m` up to `top` were wiped. */
  ghost predicate Wiped(x: B.Index, chain: seq<B.Bloom>, m: nat, top: nat) {
    forall n: nat :: B.Get(x.low, n) == if 1 <= n <= |chain| && !(m < n <= top) then chain[n - 1] else {}
  }

  lemma WipedByClear(x: B.Index, y: B.Index, chain: seq<B.Bloom>, m: nat, top: nat)
    requires B.Represents(x, chain) && B.Cleared(x, y, m + 1, top + 1)
    ensures Wiped(y, chain, m, top)
  {
    hide B.Coherent;
  }

  /** After a switch the queries of the new chain are complete exactly when no wiped block had a bit. */
  lemma WipedIsComplete(x: B.Index, chain: seq<B.Bloom>, m: nat, top: nat)
    requires Wiped(x, chain, m, top) && B.Coherent(x)
    ensures B.Represents(x, chain) <==> forall i :: m <= i < top && i < |chain| ==> chain[i] == {}
  {
    hide B.Coherent;
    if B.Represents(x, chain) {
      forall i | m <= i < top && i < |chain| ensures chain[i] == {} {
        assert B.Get(x.low, i + 1) == {} == chain[i];
      }
    }
  }

  lemma RefusedSomewhere(accept: (seq<Hash>, Hash) -> bool, log: seq<Hash>, up: seq<Hash>, k: nat)
    requires k < |up| && !accept(log + up[..k], up[k])
    ensures !AllAccepted(accept, log + up)
  {
    var l := log + up;
    assert l[..|log| + k] == log + up[..k] && l[|log| + k] == up[k];
  }

  /** What becomes of an import. */
  ghost function Verdict(t: Tree, head: Hash, parent: Hash, h: Hash, log: seq<Hash>,
                         accept: (seq<Hash>, Hash) -> bool, irreversible: nat): Outcome
    requires WellFormed(t) && head in t && parent in t
  {
    if t[parent].number + 1 <= t[head].number then Aside
    else if Meet(t, head, parent) < irreversible then Refused
    else if Meet(t, head, parent) <= |log| &&
        AllAccepted(accept, log[..Meet(t, head, parent)] + Live(t, head, parent, h))
    then Switched else RolledBack
  }

  /** The outcome told by the two chains alone: a block whose chain is no longer than the present one is put
      aside; a chain that leaves the present one below the irreversible number is refused; a longer one is switched
      to if the producer accepts all of it, and given up otherwise. */
  lemma VerdictExact(t: Tree, head: Hash, number: nat, index: map<nat, Hash>, log: seq<Hash>,
                     accept: (seq<Hash>, Hash) -> bool, h: Hash, parent: Hash, irreversible: nat)
    requires Consistent(t, head, number, index, log, accept)
    requires parent in t && h !in t && h != NULL && WellFormed(Grow(t, h, parent))
    ensures var other, v := Chain(Grow(t, h, parent), h), Verdict(t, head, parent, h, log, accept, irreversible);
            var kept := irreversible <= |log| && irreversible < |other| && other[..irreversible] == log[..irreversible];
            && (v == Aside <==> |other| <= |log|)
            && (v == Refused <==> |other| > |log| && !kept)
            && (v == Switched <==> |other| > |log| && kept && AllAccepted(accept, other))
            && (v == RolledBack <==> |other| > |log| && kept && !AllAccepted(accept, other))
  {
    hide WellFormed, Numbered, AllAccepted, Meet, Grow, Dead, Live;
    var m := Meet(t, head, parent);
    SwitchedChain(t, head, parent, h);
    GrownChain(t, h, parent);
    SharedPrefix(t, head, parent);
    KeptExact(t, head, parent, h, irreversible);
    assert log[..m] == Chain(t, head)[..m];
  }

  /** Two chains agree up to a height exactly if their lowest common ancestor is not below it. */
  lemma KeptExact(t: Tree, head: Hash, parent: Hash, h: Hash, n: nat)
    requires WellFormed(t) && head in t && parent in t
    ensures n <= Meet(t, head, parent) <==>
            && n <= t[head].number && n <= t[parent].number
            && (Chain(t, parent) + [h])[..n] == Chain(t, head)[..n]
  {
    hide WellFormed, Meet;
    MeetBounds(t, head, parent);
    var a, b := Chain(t, head), Chain(t, parent);
    if n <= Meet(t, head, parent) {
      SharedPrefix(t, head, parent);
      assert (b + [h])[..n] == b[..n] == b[..Meet(t, head, parent)][..n];
      assert a[..n] == a[..Meet(t, head, parent)][..n];
    } else if n <= t[head].number && n <= t[parent].number {
      assert !Meets(t, head, parent, n);
      assert a[..n][n - 1] == At(t, head, n) && (b + [h])[..n][n - 1] == At(t, parent, n);
    }
  }

  lemma ClearedCoherent(x: B.Index, y: B.Index, begin: nat, end: nat)
    requires B.Cleared(x, y, begin, end)
    ensures B.Coherent(y)
  {
  }

  lemma AcceptedPrefix(accept: (seq<Hash>, Hash) -> bool, log: seq<Hash>, up: seq<Hash>, k: nat)
    requires AllAccepted(accept, log + up) && k <= |up|
    ensures AllAccepted(accept, log + up[..k])
    ensures k < |up| ==> accept(log + up[..k], up[k])
  {
    var l, p := log + up, log + up[..k];
    forall i | 0 <= i < |p| ensures accept(p[..i], p[i]) {
      assert p[..i] == l[..i] && p[i] == l[i];
    }
    if k < |up| { assert l[..|log| + k] == p && l[|log| + k] == up[k]; }
  }

  lemma FewerAgree(cache: map<nat, Hash>, cache0: map<nat, Hash>, index: map<nat, Hash>)
    requires Agrees(cache0, index) && forall n :: n in cache ==> n in cache0 && cache[n] == cache0[n]
    ensures Agrees(cache, index)
  {
  }

  lemma IndexBounds(index: map<nat, Hash>, log: seq<Hash>, batch: map<nat, Hash>, m: nat, live: seq<Hash>)
    requires index == Numbered(1, log) && batch == Numbered(m + 1, live)
    ensures (forall k: nat :: k in index ==> k <= |log|) && (forall k: nat :: k in batch ==> m < k)
  {
  }

  lemma GrowNumbers(t: Tree, h: Hash, parent: Hash)
    requires parent in t && h !in t
    ensures var u := Grow(t, h, parent);
            h in u && u[h].number == t[parent].number + 1 && forall g :: g in u ==> g == h || (g in t && u[g] == t[g])
  {
  }

  lemma TurnsThere(route: seq<Hash>, common: Hash, turn: nat, dead: seq<Hash>, live: seq<Hash>)
    requires route == dead + [common] + live && common !in dead
    requires turn < |route| && route[turn] == common && common !in route[..turn]
    ensures turn == |dead| && route[..turn] == dead && route[turn + 1..] == live
  {
    assert route[|dead|] == common;
    assert forall i :: 0 <= i < |dead| ==> route[i] == dead[i] && dead[i] in dead;
    assert forall i :: 0 <= i < turn ==> route[i] == route[..turn][i];
  }

  method FindTurn(route: seq<Hash>, common: Hash) returns (i: nat)
    requires common in route
    ensures i < |route| && route[i] == common && common !in route[..i]
  {
    i := 0;
    while route[i] != common
      invariant i < |route| && common !in route[..i] && common in route[i..]
      decreases |route| - i
    {
      assert route[..i + 1] == route[..i] + [route[i]] && route[i..] == [route[i]] + route[i + 1..];
      i := i + 1;
    }
  }

  lemma AcceptedMore(accept: (seq<Hash>, Hash) -> bool, log: seq<Hash>, h: Hash)
    requires AllAccepted(accept, log) && accept(log, h)
    ensures AllAccepted(accept, log + [h])
  {
    var l := log + [h];
    forall i | 0 <= i < |l| ensures accept(l[..i], l[i]) {
      assert i < |log| ==> l[..i] == log[..i];
      assert i == |log| ==> l[..i] == log;
    }
  }

  lemma BloomsMore(bloomOf: Hash -> B.Bloom, log: seq<Hash>, h: Hash, x: B.Index)
    requires B.Represents(x, BloomsOf(bloomOf, log))
    ensures B.Represents(B.Add(x, |log| + 1, bloomOf(h)), BloomsOf(bloomOf, log + [h]))
  {
    hide B.Represents;
    B.AddNext(x, BloomsOf(bloomOf, log), bloomOf(h));
    assert BloomsOf(bloomOf, log + [h]) == BloomsOf(bloomOf, log) + [bloomOf(h)];
  }
}
