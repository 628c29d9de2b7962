/** Whole runs of imports: the databases and the producer's log over any sequence of blocks, in
    whatever order they arrive. */
module ForkRuns {
  import opened BlockTree
  import opened ForkSwitch
  import B = BloomIndex

  /** Tree, head and number index as stored, and the log of the producer. */
  datatype Db = Db(tree: Tree, head: Hash, number: nat, index: map<nat, Hash>, log: seq<Hash>)

  /** The parts of the producer that imports depend on. */
  datatype Producer = Producer(accept: (seq<Hash>, Hash) -> bool, irreversible: seq<Hash> -> nat)

  datatype Arrival = Arrival(h: Hash, parent: Hash)

  ghost predicate Sound(p: Producer, d: Db) {
    Consistent(d.tree, d.head, d.number, d.index, d.log, p.accept)
  }

  /** Known blocks and blocks without a known parent are turned away before the import. */
  ghost predicate Importable(d: Db, a: Arrival) {
    a.h !in d.tree && a.h != NULL && a.parent in d.tree
  }

  ghost function After(p: Producer, d: Db, a: Arrival): Db
    requires Sound(p, d)
  {
    if !Importable(d, a) then d else
    var grown := Grow(d.tree, a.h, a.parent);
    match Verdict(d.tree, d.head, a.parent, a.h, d.log, p.accept, p.irreversible(d.log))
    case Aside => d.(tree := grown)
    case Switched =>
      var m, live := Meet(d.tree, d.head, a.parent), Live(d.tree, d.head, a.parent, a.h);
      Db(grown, a.h, d.number + 1, d.index + Numbered(m + 1, live), d.log[..m] + live)
    case Refused => d
    case RolledBack => d
  }

  /** Each import keeps index, log and head together, and the head changes only to a higher block. */
  lemma AfterSound(p: Producer, d: Db, a: Arrival)
    requires Sound(p, d)
    ensures var e := After(p, d, a);
            Sound(p, e) && d.number <= e.number && (e.head != d.head ==> e.number == d.number + 1)
  {
    hide Consistent, Meet, Numbered, Live, Grow, WellFormed, AllAccepted;
    if Importable(d, a) {
      Facts(p, d);
      var v := Verdict(d.tree, d.head, a.parent, a.h, d.log, p.accept, p.irreversible(d.log));
      if v == Aside {
        AsideConsistent(d.tree, d.head, d.number, d.index, d.log, p.accept, a.h, a.parent);
      } else if v == Switched {
        SwitchConsistent(d.tree, d.head, d.number, d.index, d.log, p.accept, a.h, a.parent);
      }
    }
  }

  lemma Facts(p: Producer, d: Db)
    requires Sound(p, d)
    ensures WellFormed(d.tree) && d.head in d.tree && d.number == d.tree[d.head].number == |d.log|
  {
  }

  /** What is irreversible before an import is in the chain after it. */
  lemma AfterKeeps(p: Producer, d: Db, a: Arrival, n: nat)
    requires Sound(p, d) && n <= |d.log| && n <= p.irreversible(d.log)
    ensures n <= |After(p, d, a).log| && After(p, d, a).log[..n] == d.log[..n]
  {
    hide Consistent, Numbered, Live, Grow, WellFormed;
    Facts(p, d);
    if Importable(d, a) { MeetBounds(d.tree, d.head, a.parent); }
  }

  ghost function Run(p: Producer, d: Db, arrivals: seq<Arrival>): (e: Db)
    requires Sound(p, d)
    ensures Sound(p, e)
    decreases |arrivals|
  {
    AfterSound(p, d, if arrivals == [] then Arrival(NULL, NULL) else arrivals[0]);
    if arrivals == [] then d else Run(p, After(p, d, arrivals[0]), arrivals[1..])
  }

  /** After every run the index at each height up to the head is the head's ancestor there, nothing
      stands above the head, and the head has not moved down. */
  lemma {:induction false} EveryRunIsSound(p: Producer, d: Db, arrivals: seq<Arrival>)
    requires Sound(p, d)
    ensures var e := Run(p, d, arrivals);
            && WellFormed(e.tree) && e.head in e.tree && e.number == e.tree[e.head].number && d.number <= e.number
            && (forall h :: h in e.tree ==> e.tree[h].number <= e.number)
            && (forall n: nat :: n in e.index <==> 1 <= n <= e.number)
            && (forall n: nat :: 1 <= n <= e.number ==> e.index[n] == At(e.tree, e.head, n))
    decreases |arrivals|
  {
    hide Consistent, After;
    if arrivals == [] {
      IndexIsChain(p, d);
    } else {
      AfterSound(p, d, arrivals[0]);
      EveryRunIsSound(p, After(p, d, arrivals[0]), arrivals[1..]);
    }
  }

  lemma IndexIsChain(p: Producer, d: Db)
    requires Sound(p, d)
    ensures WellFormed(d.tree) && d.head in d.tree && d.number == d.tree[d.head].number
    ensures forall h :: h in d.tree ==> d.tree[h].number <= d.number
    ensures forall n: nat :: n in d.index <==> 1 <= n <= d.number
    ensures forall n: nat :: 1 <= n <= d.number ==> d.index[n] == At(d.tree, d.head, n)
  {
    hide Numbered, AllAccepted;
    forall n: nat | 1 <= n <= d.number ensures d.index[n] == At(d.tree, d.head, n) {
      assert d.index[n] == d.log[n - 1] == Chain(d.tree, d.head)[n - 1];
    }
  }

  // ----- the object follows the runs

  ghost function ProducerOf(c: ChainDb): Producer {
    Producer(c.accept, c.lastIrreversible)
  }

  ghost function DbOf(c: ChainDb): Db
    reads c
  {
    Db(c.tree, c.head, c.headNumber, c.index, c.log)
  }

  /** Index and log are determined by tree and head. */
  lemma SoundIsDetermined(p: Producer, d: Db, e: Db)
    requires Sound(p, d) && Sound(p, e) && d.tree == e.tree && d.head == e.head
    ensures d == e
  {
  }

  /** The heights above `m` up to `top`. */
  ghost function Heights(m: nat, top: nat): (r: set<nat>)
    ensures forall n: nat :: n in r <==> m < n <= top
  {
    if top <= m then {} else Heights(m, top - 1) + {top}
  }

  /** Which heights have their bloom entry filled after an import. */
  ghost function FullAfter(p: Producer, d: Db, full: set<nat>, a: Arrival): set<nat>
    requires Sound(p, d)
  {
    if !Importable(d, a) then full else
    var m := Meet(d.tree, d.head, a.parent);
    match Verdict(d.tree, d.head, a.parent, a.h, d.log, p.accept, p.irreversible(d.log))
    case Aside => full
    case Refused => full
    case RolledBack => full + Heights(m, d.number)
    case Switched => (set n | n in full && n <= m) + {d.number + 1}
  }

  ghost function RunFull(p: Producer, d: Db, full: set<nat>, arrivals: seq<Arrival>): set<nat>
    requires Sound(p, d)
    decreases |arrivals|
  {
    AfterSound(p, d, if arrivals == [] then Arrival(NULL, NULL) else arrivals[0]);
    if arrivals == [] then full
    else RunFull(p, After(p, d, arrivals[0]), FullAfter(p, d, full, arrivals[0]), arrivals[1..])
  }

  /** The entries of the heights in `full` are those of the canonical blocks; all others are empty. */
  ghost predicate Fills(x: B.Index, bloomOf: Hash -> B.Bloom, log: seq<Hash>, full: set<nat>) {
    && (forall n :: n in full ==> 1 <= n <= |log|)
    && (forall n: nat :: B.Get(x.low, n) == if n in full then bloomOf(log[n - 1]) else {})
  }

  lemma RestoredFills(x: B.Index, y: B.Index, bloomOf: Hash -> B.Bloom, log: seq<Hash>, full: set<nat>, m: nat)
    requires Fills(x, bloomOf, log, full) && Restored(x, y, bloomOf, log, m)
    ensures Fills(y, bloomOf, log, full + Heights(m, |log|))
  {
  }

  lemma MovedFills(x: B.Index, y: B.Index, bloomOf: Hash -> B.Bloom, log: seq<Hash>, live: seq<Hash>, full: set<nat>,
      m: nat)
    requires Fills(x, bloomOf, log, full) && m <= |log| && m + |live| == |log| + 1
    requires Moved(x, y, bloomOf, live[|live| - 1], m, |log|)
    ensures Fills(y, bloomOf, log[..m] + live, (set n | n in full && n <= m) + {|log| + 1})
  {
  }

  /** Bloom queries over the chain are complete exactly when no block outside `full` has a bloom bit. */
  lemma CompleteExact(x: B.Index, bloomOf: Hash -> B.Bloom, log: seq<Hash>, full: set<nat>)
    requires Fills(x, bloomOf, log, full) && B.Coherent(x)
    ensures B.Represents(x, BloomsOf(bloomOf, log)) <==>
            forall i :: 0 <= i < |log| && i + 1 !in full ==> bloomOf(log[i]) == {}
  {
    hide B.Coherent;
    var c := BloomsOf(bloomOf, log);
    if B.Represents(x, c) {
      forall i | 0 <= i < |log| && i + 1 !in full ensures bloomOf(log[i]) == {} {
        assert B.Get(x.low, i + 1) == {} && B.Get(x.low, i + 1) == c[i];
      }
    } else {
      var n: nat :| B.Get(x.low, n) != if 1 <= n <= |c| then c[n - 1] else {};
      assert n !in full && 1 <= n <= |log|;
      assert bloomOf(log[n - 1]) != {};
    }
  }

  /** The bloom entries follow the import. */
  lemma BloomsFollow(p: Producer, d: Db, full: set<nat>, a: Arrival, x: B.Index, y: B.Index, bloomOf: Hash -> B.Bloom)
    requires Sound(p, d) && Importable(d, a) && Fills(x, bloomOf, d.log, full)
    requires var m := Meet(d.tree, d.head, a.parent);
             match Verdict(d.tree, d.head, a.parent, a.h, d.log, p.accept, p.irreversible(d.log))
             case Aside => y == x
             case Refused => y == x
             case RolledBack => Restored(x, y, bloomOf, d.log, m)
             case Switched => Moved(x, y, bloomOf, a.h, m, d.number)
    ensures Fills(y, bloomOf, After(p, d, a).log, FullAfter(p, d, full, a))
  {
    hide Consistent, Fills, Restored, Moved, Meet, Numbered, Grow, WellFormed, AllAccepted;
    Facts(p, d);
    var m := Meet(d.tree, d.head, a.parent);
    var v := Verdict(d.tree, d.head, a.parent, a.h, d.log, p.accept, p.irreversible(d.log));
    if v == RolledBack {
      RestoredFills(x, y, bloomOf, d.log, full, m);
    } else if v == Switched {
      SwitchReady(d.tree, d.head, d.number, d.index, d.log, p.accept, a.h, a.parent);
      MovedFills(x, y, bloomOf, d.log, Live(d.tree, d.head, a.parent, a.h), full, m);
    }
  }

  /** Import block after block; `early` and `late` give the numbers other threads ask for meanwhile.
      Databases and log follow the run, the cache agrees, and the bloom entries are filled exactly where
      the run says. */
  method ImportAll(c: ChainDb, arrivals: seq<Arrival>, early: nat -> seq<nat>, late: nat -> seq<nat>,
      ghost full: set<nat>)
    requires c.Valid() && c.CacheAgrees() && B.Coherent(c.blooms.Abs())
    requires Fills(c.blooms.Abs(), c.bloomOf, c.log, full)
    modifies c, c.blooms
    ensures c.Valid() && c.CacheAgrees() && B.Coherent(c.blooms.Abs())
    ensures DbOf(c) == Run(ProducerOf(c), old(DbOf(c)), arrivals)
    ensures Fills(c.blooms.Abs(), c.bloomOf, c.log, RunFull(ProducerOf(c), old(DbOf(c)), full, arrivals))
  {
    hide Consistent, Agrees, B.Coherent, After, FullAfter, Fills;
    assert arrivals[0..] == arrivals;
    ghost var now := full;
    for i := 0 to |arrivals|
      invariant c.Valid() && c.CacheAgrees() && B.Coherent(c.blooms.Abs())
      invariant Run(ProducerOf(c), DbOf(c), arrivals[i..]) == Run(ProducerOf(c), old(DbOf(c)), arrivals)
      invariant Fills(c.blooms.Abs(), c.bloomOf, c.log, now)
      invariant RunFull(ProducerOf(c), DbOf(c), now, arrivals[i..]) ==
          RunFull(ProducerOf(c), old(DbOf(c)), full, arrivals)
    {
      assert arrivals[i..][0] == arrivals[i] && arrivals[i..][1..] == arrivals[i + 1..];
      now := ImportOne(c, arrivals[i], early(i), late(i), now);
    }
  }

  method ImportOne(c: ChainDb, a: Arrival, early: seq<nat>, late: seq<nat>, ghost full: set<nat>)
      returns (ghost now: set<nat>)
    requires c.Valid() && c.CacheAgrees() && B.Coherent(c.blooms.Abs())
    requires Fills(c.blooms.Abs(), c.bloomOf, c.log, full)
    modifies c, c.blooms
    ensures c.Valid() && c.CacheAgrees() && B.Coherent(c.blooms.Abs())
    ensures DbOf(c) == After(ProducerOf(c), old(DbOf(c)), a)
    ensures now == FullAfter(ProducerOf(c), old(DbOf(c)), full, a) && Fills(c.blooms.Abs(), c.bloomOf, c.log, now)
  {
    hide Consistent, Agrees, B.Coherent, Meet, Numbered, Live, Dead, Grow, WellFormed, Verdict, Fills, Restored, Moved;
    Facts(ProducerOf(c), DbOf(c));
    AfterSound(ProducerOf(c), DbOf(c), a);
    now := FullAfter(ProducerOf(c), DbOf(c), full, a);
    if a.h !in c.tree && a.h != NULL && a.parent in c.tree {
      ghost var d, x := DbOf(c), c.blooms.Abs();
      var r, how := c.Insert(a.h, a.parent, early, late);
      SoundIsDetermined(ProducerOf(c), DbOf(c), After(ProducerOf(c), d, a));
      BloomsFollow(ProducerOf(c), d, full, a, x, c.blooms.Abs(), c.bloomOf);
    }
  }
}
