/** Whether the irreversible check alone keeps irreversible blocks in the chain over whole runs. The number
    it compares with is read from the producer's database, which a fork switch rewinds, so it protects what
    is irreversible now. Here the producer's reversions always return; `ForkCommitted` is about that. */
module ForkIrreversible {
  import opened BlockTree
  import opened ForkSwitch
  import opened ForkRuns

  /** The first `n` blocks of the chain are still there after the run. */
  ghost predicate Kept(p: Producer, d: Db, arrivals: seq<Arrival>, n: nat)
    requires Sound(p, d) && n <= |d.log|
  {
    n <= |Run(p, d, arrivals).log| && Run(p, d, arrivals).log[..n] == d.log[..n]
  }

  /** No run from any sound database takes out a block that was irreversible at its start. */
  ghost predicate Preserves(p: Producer) {
    forall d: Db, arrivals: seq<Arrival>, n: nat ::
      Sound(p, d) && n <= |d.log| && n <= p.irreversible(d.log) ==> Kept(p, d, arrivals, n)
  }

  /** A switch the code accepts: from the chain `l` over genesis `g`, at height `m`, to the branch `live`. */
  ghost predicate Switchable(p: Producer, g: Hash, l: seq<Hash>, m: nat, live: seq<Hash>) {
    && m <= |l| && m + |live| == |l| + 1 && p.irreversible(l) <= m
    && AllAccepted(p.accept, l) && AllAccepted(p.accept, l[..m] + live)
    && Distinct([g] + l + live) && NULL !in [g] + l + live
  }

  /** No accepted switch lowers the producer's irreversible number. */
  ghost predicate Monotone(p: Producer) {
    forall g: Hash, l: seq<Hash>, m: nat, live: seq<Hash> ::
      Switchable(p, g, l, m, live) ==> p.irreversible(l) <= p.irreversible(l[..m] + live)
  }

  ghost predicate CanExtend(p: Producer, log: seq<Hash>, used: set<Hash>) {
    exists h :: h !in used && p.accept(log, h)
  }

  /** On every accepted log the producer accepts some block not seen so far. */
  ghost predicate Extensible(p: Producer) {
    forall log: seq<Hash>, used: set<Hash> :: AllAccepted(p.accept, log) ==> CanExtend(p, log, used)
  }

  // ----- the producer's promise is enough

  /** Blocks differ if their heights do, and at equal heights by assumption. */
  lemma DistinctByHeight(u: Tree, g: Hash, log: seq<Hash>, m: nat, live: seq<Hash>)
    requires g in u && u[g].number == 0 && NULL !in u
    requires forall i :: 0 <= i < |log| ==> log[i] in u && u[log[i]].number == i + 1
    requires forall j :: 0 <= j < |live| ==> live[j] in u && u[live[j]].number == m + 1 + j
    requires forall j :: 0 <= j < |live| && m + j < |log| ==> live[j] != log[m + j]
    ensures Distinct([g] + log + live) && NULL !in [g] + log + live
  {
    var l := [g] + log + live;
    forall i, j | 0 <= i < j < |l| ensures l[i] != l[j] {
      if 0 < i { assert i <= |log| ==> l[i] == log[i - 1]; }
      if i > |log| { assert l[i] == live[i - |log| - 1]; }
      if j > |log| { assert l[j] == live[j - |log| - 1]; } else { assert l[j] == log[j - 1]; }
    }
  }

  lemma LogHeights(p: Producer, d: Db)
    requires Sound(p, d) && WellFormed(d.tree) && d.head in d.tree && d.tree[d.head].number == |d.log|
    ensures forall i :: 0 <= i < |d.log| ==>
              d.log[i] == At(d.tree, d.head, i + 1) && d.log[i] in d.tree && d.tree[d.log[i]].number == i + 1
  {
    hide WellFormed, Numbered, AllAccepted, At;
  }

  lemma NoNull(t: Tree, h: Hash, parent: Hash)
    requires WellFormed(t) && parent in t && h != NULL
    ensures NULL !in Grow(t, h, parent)
  {
  }

  /** Blocks of the old chain keep their heights in the grown tree. */
  lemma OldHeights(p: Producer, d: Db, a: Arrival)
    requires Sound(p, d) && Importable(d, a)
    ensures var u := Grow(d.tree, a.h, a.parent);
            forall i :: 0 <= i < |d.log| ==> d.log[i] in u && u[d.log[i]].number == i + 1
  {
    hide Consistent, WellFormed;
    Facts(p, d);
    LogHeights(p, d);
  }

  lemma BranchParts(p: Producer, d: Db, a: Arrival)
    requires Sound(p, d) && Importable(d, a) && d.tree[a.parent].number == d.number
    ensures WellFormed(d.tree) && d.head in d.tree
    ensures var live, m := Live(d.tree, d.head, a.parent, a.h), Meet(d.tree, d.head, a.parent);
            forall j :: 0 <= j < |live| && m + j < |d.log| ==> live[j] != d.log[m + j]
  {
    hide Meet, Consistent, Live, WellFormed;
    Facts(p, d);
    var live, m := Live(d.tree, d.head, a.parent, a.h), Meet(d.tree, d.head, a.parent);
    forall j | 0 <= j < |live| && m + j < |d.log| ensures live[j] != d.log[m + j] {
      NotOnBoth(d.tree, d.head, a.parent, a.h, j);
      LogAt(p, d, m + j);
    }
  }

  lemma LogAt(p: Producer, d: Db, i: nat)
    requires Sound(p, d) && i < |d.log| && WellFormed(d.tree) && d.head in d.tree && i < d.tree[d.head].number
    ensures d.log[i] == At(d.tree, d.head, i + 1)
  {
    hide WellFormed, Numbered, AllAccepted, At;
  }

  lemma LiveHeights(t: Tree, head: Hash, parent: Hash, h: Hash)
    requires WellFormed(t) && head in t && parent in t && h !in t && h != NULL
    ensures var u, m, live := Grow(t, h, parent), Meet(t, head, parent), Live(t, head, parent, h);
            forall j :: 0 <= j < |live| ==> live[j] in u && u[live[j]].number == m + 1 + j
  {
    hide Meet, Live, Grow, WellFormed, Dead;
    RouteHeights(t, head, parent, h);
  }

  /** The blocks of the old chain and of the new branch are all different. */
  lemma BranchIsDistinct(p: Producer, d: Db, a: Arrival, g: Hash)
    requires Sound(p, d) && Importable(d, a) && d.tree[a.parent].number == d.number
    requires g in d.tree && d.tree[g].number == 0
    ensures WellFormed(d.tree) && d.head in d.tree
    ensures var l := [g] + d.log + Live(d.tree, d.head, a.parent, a.h); Distinct(l) && NULL !in l
  {
    hide Meet, Consistent, Live, Grow, WellFormed, Chain, Distinct, At;
    Facts(p, d);
    var u, m, live := Grow(d.tree, a.h, a.parent), Meet(d.tree, d.head, a.parent), Live(d.tree, d.head, a.parent, a.h);
    LiveHeights(d.tree, d.head, a.parent, a.h);
    GrowSame(d.tree, a.h, a.parent, g);
    NoNull(d.tree, a.h, a.parent);
    OldHeights(p, d, a);
    BranchParts(p, d, a);
    DistinctByHeight(u, g, d.log, m, live);
  }

  /** Above the ancestor the branch holds nothing of the old chain. */
  lemma NotOnBoth(t: Tree, head: Hash, parent: Hash, h: Hash, j: nat)
    requires WellFormed(t) && head in t && parent in t && h !in t && h != NULL
    requires var m := Meet(t, head, parent); j < |Live(t, head, parent, h)| && m + 1 + j <= t[head].number
    ensures Live(t, head, parent, h)[j] != At(t, head, Meet(t, head, parent) + 1 + j)
  {
    hide WellFormed, Meet;
    var m := Meet(t, head, parent);
    MeetBounds(t, head, parent);
    var up := Reversed(Down(t, parent, m));
    if j < |up| {
      assert up[j] == Down(t, parent, m)[|up| - 1 - j] == At(t, parent, m + 1 + j);
      assert !Meets(t, head, parent, m + 1 + j);
    }
  }

  lemma AfterMonotone(p: Producer, d: Db, a: Arrival)
    requires Sound(p, d) && Monotone(p)
    ensures p.irreversible(d.log) <= p.irreversible(After(p, d, a).log)
  {
    hide Meet, Numbered, AllAccepted, WellFormed, Grow, Live, Monotone, Chain;
    if Importable(d, a) {
      Facts(p, d);
      var m, live := Meet(d.tree, d.head, a.parent), Live(d.tree, d.head, a.parent, a.h);
      if Verdict(d.tree, d.head, a.parent, a.h, d.log, p.accept, p.irreversible(d.log)) == Switched {
        SwitchReady(d.tree, d.head, d.number, d.index, d.log, p.accept, a.h, a.parent);
        BranchIsDistinct(p, d, a, At(d.tree, d.head, 0));
        ByMonotone(p, At(d.tree, d.head, 0), d.log, m, live);
      }
    }
  }

  lemma ByMonotone(p: Producer, g: Hash, l: seq<Hash>, m: nat, live: seq<Hash>)
    requires Monotone(p) && Switchable(p, g, l, m, live)
    ensures p.irreversible(l) <= p.irreversible(l[..m] + live)
  {
  }

  /** Where no accepted switch lowers the number, what is irreversible stays for ever. */
  lemma {:induction false} IrreversibleForever(p: Producer, d: Db, arrivals: seq<Arrival>, n: nat)
    requires Monotone(p) && Sound(p, d) && n <= |d.log| && n <= p.irreversible(d.log)
    ensures Kept(p, d, arrivals, n)
    decreases |arrivals|
  {
    hide Consistent, After, Monotone;
    if arrivals != [] {
      AfterSound(p, d, arrivals[0]);
      AfterKeeps(p, d, arrivals[0], n);
      AfterMonotone(p, d, arrivals[0]);
      IrreversibleForever(p, After(p, d, arrivals[0]), arrivals[1..], n);
    }
  }

  // ----- and needed

  /** The arrivals of a branch, bottom up. */
  function Branch(base: Hash, live: seq<Hash>): seq<Arrival>
    decreases |live|
  {
    if live == [] then [] else [Arrival(live[0], base)] + Branch(live[0], live[1..])
  }

  /** Two chains part where they first differ. */
  lemma MeetIs(t: Tree, a: Hash, b: Hash, m: nat)
    requires WellFormed(t) && a in t && b in t && m <= t[a].number && m <= t[b].number
    requires Chain(t, a)[..m] == Chain(t, b)[..m]
    requires m < t[a].number && m < t[b].number ==> Chain(t, a)[m] != Chain(t, b)[m]
    ensures Meet(t, a, b) == m
  {
    hide WellFormed, Meet;
    MeetBounds(t, a, b);
    if m > 0 {
      assert Chain(t, a)[m - 1] == Chain(t, a)[..m][m - 1] == Chain(t, b)[m - 1];
      BranchesDiffer(t, a, b, m);
    }
    if m < t[a].number && m < t[b].number { BranchesDiffer(t, a, b, m + 1); }
  }

  /** What the last block of a branch brings with it. */
  lemma LiveIs(t: Tree, head: Hash, parent: Hash, h: Hash, m: nat)
    requires WellFormed(t) && head in t && parent in t && Meet(t, head, parent) == m
    ensures m <= t[parent].number && Live(t, head, parent, h) == Chain(t, parent)[m..] + [h]
  {
    hide WellFormed, Meet;
    MeetBounds(t, head, parent);
    var c, up := Chain(t, parent), Reversed(Down(t, parent, m));
    assert c[m..] == up;
  }

  /** A block of a branch that does not reach above the head is put aside. */
  lemma PutAside(p: Producer, d: Db, a: Arrival)
    requires Sound(p, d) && Importable(d, a) && d.tree[a.parent].number < d.number
    ensures WellFormed(Grow(d.tree, a.h, a.parent))
    ensures After(p, d, a) == d.(tree := Grow(d.tree, a.h, a.parent))
    ensures Chain(Grow(d.tree, a.h, a.parent), a.h) == Chain(d.tree, a.parent) + [a.h]
  {
    hide Meet, Numbered, AllAccepted, Chain;
    GrowWellFormed(d.tree, a.h, a.parent);
    GrownChain(d.tree, a.h, a.parent);
  }

  /** The block that brings a branch above the head switches over to it. */
  lemma LastSwitches(p: Producer, d: Db, a: Arrival, m: nat, pre: seq<Hash>)
    requires Sound(p, d) && Importable(d, a) && m <= |d.log| && m + |pre| == |d.log|
    requires Chain(d.tree, a.parent) == d.log[..m] + pre && (pre != [] ==> pre[0] != d.log[m])
    requires p.irreversible(d.log) <= m && AllAccepted(p.accept, d.log[..m] + (pre + [a.h]))
    ensures After(p, d, a).log == d.log[..m] + (pre + [a.h])
    ensures After(p, d, a).tree == Grow(d.tree, a.h, a.parent)
  {
    hide Meet, Numbered, AllAccepted, Chain, Grow, WellFormed;
    Facts(p, d);
    var t := d.tree;
    var c := Chain(t, a.parent);
    assert c[..m] == d.log[..m] && c[m..] == pre;
    MeetIs(t, d.head, a.parent, m);
    LiveIs(t, d.head, a.parent, a.h, m);
  }

  /** Importing a branch block by block ends on it. */
  lemma {:induction false} BranchRun(p: Producer, d: Db, m: nat, base: Hash, pre: seq<Hash>, rest: seq<Hash>)
    requires Sound(p, d) && base in d.tree && rest != []
    requires m <= |d.log| && m + |pre| + |rest| == |d.log| + 1 && p.irreversible(d.log) <= m
    requires Chain(d.tree, base) == d.log[..m] + pre && (pre != [] && m < |d.log| ==> pre[0] != d.log[m])
    requires Distinct(rest) && forall h :: h in rest ==> h !in d.tree && h != NULL
    requires AllAccepted(p.accept, d.log[..m] + (pre + rest))
    ensures var e := Run(p, d, Branch(base, rest));
            e.log == d.log[..m] + (pre + rest) && forall h :: h in e.tree ==> h in d.tree || h in rest
    decreases |rest|
  {
    hide AllAccepted, Chain, WellFormed, Consistent, After, Grow;
    Facts(p, d);
    GrowNumbers(d.tree, rest[0], base);
    var a, more := Arrival(rest[0], base), rest[1..];
    var arrivals := Branch(base, rest);
    assert arrivals[0] == a && arrivals[1..] == Branch(rest[0], more);
    AfterSound(p, d, a);
    ChainLength(p, d, base);
    if more == [] {
      assert pre + rest == pre + [a.h];
      LastSwitches(p, d, a, m, pre);
    } else {
      PutAside(p, d, a);
      var e := After(p, d, a);
      FirstDiffers(p, d, m, pre, rest);
      assert pre + [rest[0]] + more == pre + rest;
      assert d.log[..m] + pre + [rest[0]] == d.log[..m] + (pre + [rest[0]]);
      BranchRun(p, e, m, rest[0], pre + [rest[0]], more);
    }
  }

  lemma ChainLength(p: Producer, d: Db, h: Hash)
    requires Sound(p, d) && h in d.tree
    ensures |Chain(d.tree, h)| == d.tree[h].number
  {
  }

  /** A new block is not the one the old chain has there. */
  lemma FirstDiffers(p: Producer, d: Db, m: nat, pre: seq<Hash>, rest: seq<Hash>)
    requires Sound(p, d) && rest != [] && (forall h :: h in rest ==> h !in d.tree)
    requires pre != [] && m < |d.log| ==> pre[0] != d.log[m]
    ensures m < |d.log| ==> (pre + [rest[0]])[0] != d.log[m]
  {
    hide Consistent, WellFormed;
    Facts(p, d);
    LogHeights(p, d);
    assert rest[0] in rest;
  }

  /** The database that holds nothing but the chain `l` over genesis `g`. */
  lemma {:induction false} Line(p: Producer, g: Hash, l: seq<Hash>) returns (d: Db)
    requires Distinct([g] + l) && NULL !in [g] + l && AllAccepted(p.accept, l)
    ensures Sound(p, d) && d.log == l && (forall h :: h in d.tree ==> h in [g] + l)
    ensures g in d.tree && d.tree[g].number == 0
    decreases |l|
  {
    hide AllAccepted, Consistent, Distinct;
    if l == [] {
      assert ([g] + l)[0] == g;
      d := Genesis(p, g);
    } else {
      var n := |l| - 1;
      var l0, h := l[..n], l[n];
      Shorter(p, g, l);
      var d0 := Line(p, g, l0);
      assert ([g] + l)[|l|] == h;
      NotEarlier(g, l, h);
      d := OneHigher(p, d0, h, l);
      forall x | x in d.tree ensures x in [g] + l {
        if x != h { Included(g, l, x); }
      }
    }
  }

  lemma Genesis(p: Producer, g: Hash) returns (d: Db)
    requires g != NULL
    ensures Sound(p, d) && d.log == [] && d.tree == map[g := Details(0, NULL)]
  {
    d := Db(map[g := Details(0, NULL)], g, 0, map[], []);
    NumberedNone(1);
  }

  lemma Shorter(p: Producer, g: Hash, l: seq<Hash>)
    requires l != [] && Distinct([g] + l) && NULL !in [g] + l && AllAccepted(p.accept, l)
    ensures var k := l[..|l| - 1]; Distinct([g] + k) && NULL !in [g] + k && AllAccepted(p.accept, k)
  {
    var k := l[..|l| - 1];
    forall i | 0 <= i < |[g] + k| ensures ([g] + k)[i] == ([g] + l)[i] {}
    forall i | 0 <= i < |k| ensures k[..i] == l[..i] {}
  }

  lemma NotEarlier(g: Hash, l: seq<Hash>, h: Hash)
    requires l != [] && Distinct([g] + l) && h == l[|l| - 1]
    ensures h !in [g] + l[..|l| - 1]
  {
    var a, b := [g] + l, [g] + l[..|l| - 1];
    forall i | 0 <= i < |b| ensures b[i] != h { assert b[i] == a[i] && a[|l|] == h; }
  }

  lemma Included(g: Hash, l: seq<Hash>, x: Hash)
    requires l != [] && x in [g] + l[..|l| - 1]
    ensures x in [g] + l
  {
    var a, b := [g] + l, [g] + l[..|l| - 1];
    var i :| 0 <= i < |b| && b[i] == x;
    assert a[i] == x;
  }

  lemma OwnBranch(t: Tree, head: Hash, h: Hash)
    requires WellFormed(t) && head in t
    ensures Meet(t, head, head) == t[head].number && Live(t, head, head, h) == [h]
  {
    hide WellFormed, Meet;
    var n := t[head].number;
    MeetIs(t, head, head, n);
    LiveIs(t, head, head, h, n);
    assert Chain(t, head)[n..] == [] && [] + [h] == [h];
  }

  /** One accepted block on top of the head. */
  lemma OneHigher(p: Producer, d0: Db, h: Hash, l: seq<Hash>) returns (d: Db)
    requires Sound(p, d0) && h !in d0.tree && h != NULL && l == d0.log + [h] && AllAccepted(p.accept, l)
    ensures d0.head in d0.tree && Sound(p, d) && d.log == l && d.tree == Grow(d0.tree, h, d0.head)
  {
    hide Meet, Numbered, AllAccepted, Consistent, Chain, Grow, WellFormed;
    Facts(p, d0);
    var t, n := d0.tree, d0.number;
    OwnBranch(t, d0.head, h);
    assert d0.log[..n] == d0.log;
    SwitchConsistent(t, d0.head, n, d0.index, d0.log, p.accept, h, d0.head);
    d := Db(Grow(t, h, d0.head), h, n + 1, d0.index + Numbered(n + 1, [h]), l);
  }

  /** A producer that always accepts something new can be led along a branch of any length. */
  lemma {:induction false} Extend(p: Producer, log: seq<Hash>, used: set<Hash>, n: nat) returns (f: seq<Hash>)
    requires Extensible(p) && AllAccepted(p.accept, log)
    ensures |f| == n && Distinct(f) && (forall h :: h in f ==> h !in used) && AllAccepted(p.accept, log + f)
    decreases n
  {
    if n == 0 {
      f := [];
      assert log + f == log;
    } else {
      var e := Extend(p, log, used, n - 1);
      var seen := used + set h | h in e;
      assert CanExtend(p, log + e, seen);
      var h :| h !in seen && p.accept(log + e, h);
      f := e + [h];
      AcceptedMore(p.accept, log + e, h);
      assert log + e + [h] == log + f;
      forall i, j | 0 <= i < j < |f| ensures f[i] != f[j] { if j == n - 1 { assert f[i] in e; } }
    }
  }

  lemma {:induction false} RunAppend(p: Producer, d: Db, a: seq<Arrival>, b: seq<Arrival>)
    requires Sound(p, d)
    ensures Run(p, d, a + b) == Run(p, Run(p, d, a), b)
    decreases |a|
  {
    hide Consistent, After;
    if a == [] {
      assert a + b == b;
    } else {
      AfterSound(p, d, a[0]);
      RunAppend(p, After(p, d, a[0]), a[1..], b);
      assert (a + b)[0] == a[0] && (a + b)[1..] == a[1..] + b;
    }
  }

  /** From a chain to a branch at height `m`, and from there to another at height `k`. */
  lemma TwoSwitches(p: Producer, g: Hash, l: seq<Hash>, m: nat, live: seq<Hash>, k: nat, f: seq<Hash>)
    returns (d: Db, arrivals: seq<Arrival>)
    requires Switchable(p, g, l, m, live) && p.irreversible(l[..m] + live) <= k < m
    requires k + |f| == |l| + 2 && Distinct(f) && (forall h :: h in f ==> h !in [g] + l + live && h != NULL)
    requires AllAccepted(p.accept, (l[..m] + live)[..k] + f)
    ensures Sound(p, d) && d.log == l && Run(p, d, arrivals).log == l[..k] + f
  {
    hide AllAccepted, Consistent, Chain, WellFormed, Run;
    Pieces(g, l, live);
    d := Line(p, g, l);
    var base := if m == 0 then g else l[m - 1];
    BaseChain(p, d, g, m);
    assert live == [] + live && l[..m] + [] == l[..m];
    BranchRun(p, d, m, base, [], live);
    var first := Branch(base, live);
    var e := Run(p, d, first);
    assert e.log == l[..m] + live && e.log[..k] == l[..k];
    var base' := if k == 0 then g else l[k - 1];
    GenesisStays(p, d, first, g);
    BaseChain(p, e, g, k);
    assert base' == if k == 0 then g else e.log[k - 1];
    assert f == [] + f && l[..k] + [] == l[..k];
    forall h | h in f ensures h !in e.tree { Elsewhere(g, l, live, h); }
    BranchRun(p, e, k, base', [], f);
    arrivals := first + Branch(base', f);
    RunAppend(p, d, first, Branch(base', f));
  }

  lemma Pieces(g: Hash, l: seq<Hash>, live: seq<Hash>)
    requires Distinct([g] + l + live) && NULL !in [g] + l + live
    ensures Distinct([g] + l) && NULL !in [g] + l && Distinct(live)
    ensures forall h :: h in live ==> h !in [g] + l && h != NULL
  {
    var a, b := [g] + l + live, [g] + l;
    forall i | 0 <= i < |b| ensures b[i] == a[i] {}
    forall i | 0 <= i < |live| ensures live[i] == a[|b| + i] {}
  }

  lemma Elsewhere(g: Hash, l: seq<Hash>, live: seq<Hash>, h: Hash)
    requires h !in [g] + l + live
    ensures h !in [g] + l && h !in live
  {
    var a, b := [g] + l + live, [g] + l;
    forall i | 0 <= i < |b| ensures b[i] != h { assert a[i] == b[i]; }
    forall i | 0 <= i < |live| ensures live[i] != h { assert a[|b| + i] == live[i]; }
  }

  /** The canonical block at height `m` and the chain up to it. */
  lemma BaseChain(p: Producer, d: Db, g: Hash, m: nat)
    requires Sound(p, d) && m <= |d.log| && g in d.tree && d.tree[g].number == 0
    ensures var base := if m == 0 then g else d.log[m - 1];
            WellFormed(d.tree) && base in d.tree && Chain(d.tree, base) == d.log[..m]
  {
    hide Numbered, AllAccepted, Meet;
    if m > 0 {
      var base := d.log[m - 1];
      assert base == At(d.tree, d.head, m);
      forall i | 0 <= i < m ensures Chain(d.tree, base)[i] == d.log[i] { AtAt(d.tree, d.head, m, i + 1); }
    }
  }

  lemma {:induction false} GenesisStays(p: Producer, d: Db, arrivals: seq<Arrival>, g: Hash)
    requires Sound(p, d) && g in d.tree && d.tree[g].number == 0
    ensures g in Run(p, d, arrivals).tree && Run(p, d, arrivals).tree[g].number == 0
    decreases |arrivals|
  {
    hide Consistent, Meet, Numbered, Live;
    if arrivals != [] {
      AfterSound(p, d, arrivals[0]);
      GenesisStays(p, After(p, d, arrivals[0]), arrivals[1..], g);
    }
  }

  /** A switch that lowers the number opens the way to taking out what was irreversible. */
  lemma LoweringLoses(p: Producer, g: Hash, l: seq<Hash>, m: nat, live: seq<Hash>)
    requires Extensible(p) && Switchable(p, g, l, m, live) && p.irreversible(l[..m] + live) < p.irreversible(l)
    ensures !Preserves(p)
  {
    hide AllAccepted, Consistent, Extensible;
    var k, n, l' := p.irreversible(l[..m] + live), p.irreversible(l), l[..m] + live;
    var used := (set h | h in [g] + l + live) + {NULL};
    AcceptedStart(p, l', k);
    var f := Extend(p, l'[..k], used, |l| + 2 - k);
    var d, arrivals := TwoSwitches(p, g, l, m, live, k, f);
    assert f[0] in f && ([g] + l + live)[1 + k] == l[k];
    assert Run(p, d, arrivals).log[..n][k] != d.log[..n][k];
    assert !Kept(p, d, arrivals, n);
  }

  lemma AcceptedStart(p: Producer, l: seq<Hash>, k: nat)
    requires AllAccepted(p.accept, l) && k <= |l|
    ensures AllAccepted(p.accept, l[..k])
  {
    forall i | 0 <= i < k ensures l[..k][..i] == l[..i] {}
  }

  lemma MonotonePreserves(p: Producer)
    requires Monotone(p)
    ensures Preserves(p)
  {
    hide Monotone;
    forall d: Db, arrivals: seq<Arrival>, n: nat | Sound(p, d) && n <= |d.log| && n <= p.irreversible(d.log)
      ensures Kept(p, d, arrivals, n)
    {
      IrreversibleForever(p, d, arrivals, n);
    }
  }

  /** The check protects over whole runs exactly when no accepted switch lowers the number. */
  lemma IrreversibleExact(p: Producer)
    requires Extensible(p)
    ensures Preserves(p) <==> Monotone(p)
  {
    hide Extensible, Preserves, AllAccepted, Distinct;
    if Monotone(p) {
      MonotonePreserves(p);
    } else {
      var g: Hash, l: seq<Hash>, m: nat, live: seq<Hash> :|
        Switchable(p, g, l, m, live) && p.irreversible(l) > p.irreversible(l[..m] + live);
      LoweringLoses(p, g, l, m, live);
    }
  }

  // ----- a run past an irreversible block

  /** Accepts everything; block 2 on block 1 makes block 1 irreversible. */
  ghost function Forgetful(): Producer {
    Producer((l: seq<Hash>, h: Hash) => true, (l: seq<Hash>) => if [1, 2] <= l then 1 else 0)
  }

  /** Block 1 is irreversible in the chain 1, 2; the check lets the run pass to the chain 5, 6, 7, 8. */
  lemma IrreversibleLost() returns (d: Db, arrivals: seq<Arrival>)
    ensures Sound(Forgetful(), d) && d.log == [1, 2] && Forgetful().irreversible(d.log) == 1
    ensures Run(Forgetful(), d, arrivals).log == [5, 6, 7, 8]
  {
    hide Run, Consistent;
    var p, l, live, f := Forgetful(), [1, 2], [3, 4], [5, 6, 7, 8];
    assert [10] + l + live == [10, 1, 2, 3, 4];
    assert l[..1] == [1] && l[..1] + live == [1, 3, 4];
    assert !([1, 2] <= [1, 3, 4]) by { assert [1, 3, 4][1] == 3; }
    assert Switchable(p, 10, l, 1, live);
    d, arrivals := TwoSwitches(p, 10, l, 1, live, 0, f);
    assert l[..0] + f == f;
  }
}
