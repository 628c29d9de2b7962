/** The undo history of the producer's database. Every pushed block commits the history up to the
    irreversible number, and a reversion below what was committed never ends. So no import that returns
    takes out a block that was ever irreversible, and whether imports return rests on the producer. */
module ForkCommitted {
  import opened BlockTree
  import opened Wrappers
  import opened ForkSwitch
  import opened ForkRuns
  import opened ForkIrreversible

  /** How many blocks of a branch the producer takes before it refuses one. */
  ghost function Pushed(p: Producer, log: seq<Hash>, live: seq<Hash>): (k: nat)
    ensures k <= |live|
    decreases |live|
  {
    if live == [] || !p.accept(log, live[0]) then 0 else 1 + Pushed(p, log + [live[0]], live[1..])
  }

  /** The log when a fork switch is over or the producer has refused a block. */
  ghost function Furthest(p: Producer, d: Db, a: Arrival): seq<Hash>
    requires Sound(p, d) && Importable(d, a)
  {
    Facts(p, d);
    MeetBounds(d.tree, d.head, a.parent);
    var base, live := d.log[..Meet(d.tree, d.head, a.parent)], Live(d.tree, d.head, a.parent, a.h);
    base + live[..Pushed(p, base, live)]
  }

  ghost predicate Attempted(p: Producer, d: Db, a: Arrival)
    requires Sound(p, d)
  {
    Importable(d, a) &&
    Verdict(d.tree, d.head, a.parent, a.h, d.log, p.accept, p.irreversible(d.log)) in {Switched, RolledBack}
  }

  /** The greatest number the database has committed: pushing blocks only raises it. */
  ghost function FloorAfter(p: Producer, d: Db, floor: nat, a: Arrival): nat
    requires Sound(p, d)
  {
    if Attempted(p, d, a) then Max(floor, p.irreversible(Furthest(p, d, a))) else floor
  }

  /** Both reversions of a fork switch, away from the old branch and back from a refused one, end. */
  ghost predicate Returns(p: Producer, d: Db, floor: nat, a: Arrival)
    requires Sound(p, d)
  {
    Attempted(p, d, a) ==>
      var m := Meet(d.tree, d.head, a.parent);
      m < |d.log| ==>
        && floor <= m
        && (!AllAccepted(p.accept, d.log[..m] + Live(d.tree, d.head, a.parent, a.h)) ==>
              p.irreversible(Furthest(p, d, a)) <= m)
  }

  ghost predicate AllReturn(p: Producer, d: Db, floor: nat, arrivals: seq<Arrival>)
    requires Sound(p, d)
    decreases |arrivals|
  {
    AfterSound(p, d, if arrivals == [] then Arrival(NULL, NULL) else arrivals[0]);
    arrivals != [] ==>
      && Returns(p, d, floor, arrivals[0])
      && AllReturn(p, After(p, d, arrivals[0]), FloorAfter(p, d, floor, arrivals[0]), arrivals[1..])
  }

  ghost function FloorOf(p: Producer, d: Db, floor: nat, arrivals: seq<Arrival>): nat
    requires Sound(p, d)
    decreases |arrivals|
  {
    AfterSound(p, d, if arrivals == [] then Arrival(NULL, NULL) else arrivals[0]);
    if arrivals == [] then floor
    else FloorOf(p, After(p, d, arrivals[0]), FloorAfter(p, d, floor, arrivals[0]), arrivals[1..])
  }

  // ----- what was irreversible stays

  lemma ReturnsKeeps(p: Producer, d: Db, floor: nat, a: Arrival, n: nat)
    requires Sound(p, d) && Returns(p, d, floor, a) && n <= |d.log| && n <= floor
    ensures n <= |After(p, d, a).log| && After(p, d, a).log[..n] == d.log[..n]
  {
    hide Consistent, Numbered, Live, Grow, WellFormed, Furthest, Pushed, AllAccepted;
    Facts(p, d);
    if Importable(d, a) { MeetBounds(d.tree, d.head, a.parent); }
  }

  /** What the database has committed is in the chain after every run of imports that return. */
  lemma {:induction false} CommittedForever(p: Producer, d: Db, floor: nat, arrivals: seq<Arrival>, n: nat)
    requires Sound(p, d) && AllReturn(p, d, floor, arrivals) && n <= |d.log| && n <= floor
    ensures Kept(p, d, arrivals, n)
    decreases |arrivals|
  {
    hide Consistent, After, Returns, Furthest, Attempted;
    if arrivals != [] {
      AfterSound(p, d, arrivals[0]);
      ReturnsKeeps(p, d, floor, arrivals[0], n);
      CommittedForever(p, After(p, d, arrivals[0]), FloorAfter(p, d, floor, arrivals[0]), arrivals[1..], n);
    }
  }

  lemma {:induction false} PushedAll(p: Producer, log: seq<Hash>, live: seq<Hash>)
    requires AllAccepted(p.accept, log + live)
    ensures Pushed(p, log, live) == |live|
    decreases |live|
  {
    if live != [] {
      var l := log + live;
      assert l[..|log|] == log && l[|log|] == live[0];
      assert log + [live[0]] + live[1..] == l;
      PushedAll(p, log + [live[0]], live[1..]);
    }
  }

  lemma FloorCovers(p: Producer, d: Db, floor: nat, a: Arrival)
    requires Sound(p, d) && p.irreversible(d.log) <= floor
    ensures p.irreversible(After(p, d, a).log) <= FloorAfter(p, d, floor, a)
  {
    hide Consistent, Numbered, Live, Grow, WellFormed, AllAccepted, Meet;
    Facts(p, d);
    if Importable(d, a) {
      MeetBounds(d.tree, d.head, a.parent);
      var m, live := Meet(d.tree, d.head, a.parent), Live(d.tree, d.head, a.parent, a.h);
      if AllAccepted(p.accept, d.log[..m] + live) {
        PushedAll(p, d.log[..m], live);
        assert live[..|live|] == live;
      }
    }
  }

  lemma {:induction false} RunCovers(p: Producer, d: Db, floor: nat, arrivals: seq<Arrival>)
    requires Sound(p, d) && p.irreversible(d.log) <= floor
    ensures p.irreversible(Run(p, d, arrivals).log) <= FloorOf(p, d, floor, arrivals)
    decreases |arrivals|
  {
    hide Consistent, After, FloorAfter;
    if arrivals != [] {
      AfterSound(p, d, arrivals[0]);
      FloorCovers(p, d, floor, arrivals[0]);
      RunCovers(p, After(p, d, arrivals[0]), FloorAfter(p, d, floor, arrivals[0]), arrivals[1..]);
    }
  }

  lemma {:induction false} ReturnAppend(p: Producer, d: Db, floor: nat, a: seq<Arrival>, b: seq<Arrival>)
    requires Sound(p, d)
    ensures AllReturn(p, d, floor, a + b) <==>
            AllReturn(p, d, floor, a) && AllReturn(p, Run(p, d, a), FloorOf(p, d, floor, a), b)
    decreases |a|
  {
    hide Consistent, After, FloorAfter, Returns;
    if a == [] {
      assert a + b == b;
    } else {
      AfterSound(p, d, a[0]);
      ReturnAppend(p, After(p, d, a[0]), FloorAfter(p, d, floor, a[0]), a[1..], b);
      assert (a + b)[0] == a[0] && (a + b)[1..] == a[1..] + b;
    }
  }

  /** Whatever the producer does: a block that is irreversible at some point of a run is in the chain
      as long as the imports return. */
  lemma OnceIrreversible(p: Producer, d: Db, floor: nat, first: seq<Arrival>, more: seq<Arrival>, n: nat)
    requires Sound(p, d) && p.irreversible(d.log) <= floor && AllReturn(p, d, floor, first + more)
    requires var e := Run(p, d, first); n <= |e.log| && n <= p.irreversible(e.log)
    ensures Kept(p, Run(p, d, first), more, n)
  {
    hide Consistent, AllReturn, Run;
    RunCovers(p, d, floor, first);
    ReturnAppend(p, d, floor, first, more);
    CommittedForever(p, Run(p, d, first), FloorOf(p, d, floor, first), more, n);
  }

  // ----- when imports return

  /** The number never falls while blocks are pushed. */
  ghost predicate Rising(p: Producer) {
    forall l: seq<Hash>, h: Hash :: p.irreversible(l) <= p.irreversible(l + [h])
  }

  /** A switch the check lets pass and the producer breaks off: it takes `part` and refuses `h`. */
  ghost predicate Broken(p: Producer, g: Hash, l: seq<Hash>, m: nat, part: seq<Hash>, h: Hash) {
    && part != [] && m + |part| <= |l| && p.irreversible(l) <= m
    && AllAccepted(p.accept, l) && AllAccepted(p.accept, l[..m] + part) && !p.accept(l[..m] + part, h)
    && Distinct([g] + l + (part + [h])) && NULL !in [g] + l + (part + [h])
  }

  /** No broken-off switch raises the number. */
  ghost predicate Steady(p: Producer) {
    forall g: Hash, l: seq<Hash>, m: nat, part: seq<Hash>, h: Hash ::
      Broken(p, g, l, m, part, h) ==> p.irreversible(l[..m] + part) <= p.irreversible(l)
  }

  /** Every import of every run returns. */
  ghost predicate NeverStuck(p: Producer) {
    forall d: Db, arrivals: seq<Arrival> :: Sound(p, d) ==> AllReturn(p, d, p.irreversible(d.log), arrivals)
  }

  lemma {:induction false} RisingPrefix(p: Producer, l: seq<Hash>, k: nat)
    requires Rising(p) && k <= |l|
    ensures p.irreversible(l[..k]) <= p.irreversible(l)
    decreases |l|
  {
    if k == |l| {
      assert l[..k] == l;
    } else {
      var n := |l| - 1;
      RisingPrefix(p, l[..n], k);
      assert l[..n][..k] == l[..k] && l[..n] + [l[n]] == l;
    }
  }

  lemma {:induction false} PushedStops(p: Producer, log: seq<Hash>, live: seq<Hash>)
    requires AllAccepted(p.accept, log)
    ensures var k := Pushed(p, log, live);
            AllAccepted(p.accept, log + live[..k]) && (k < |live| ==> !p.accept(log + live[..k], live[k]))
    decreases |live|
  {
    var k := Pushed(p, log, live);
    if k == 0 {
      assert log + live[..0] == log;
    } else {
      AcceptedMore(p.accept, log, live[0]);
      PushedStops(p, log + [live[0]], live[1..]);
      assert log + [live[0]] + live[1..][..k - 1] == log + live[..k];
    }
  }

  lemma {:induction false} PushedIs(p: Producer, log: seq<Hash>, live: seq<Hash>, k: nat)
    requires k < |live| && AllAccepted(p.accept, log + live[..k]) && !p.accept(log + live[..k], live[k])
    ensures Pushed(p, log, live) == k
    decreases k
  {
    if k == 0 {
      assert log + live[..0] == log;
    } else {
      var l := log + live[..k];
      assert l[..|log|] == log && l[|log|] == live[0];
      assert log + [live[0]] + live[1..][..k - 1] == l;
      PushedIs(p, log + [live[0]], live[1..], k - 1);
    }
  }

  lemma PartDistinct(g: Hash, l: seq<Hash>, live: seq<Hash>, k: nat)
    requires k < |live| && Distinct([g] + l + live) && NULL !in [g] + l + live
    ensures var s := [g] + l + (live[..k] + [live[k]]); Distinct(s) && NULL !in s
  {
    var a, b := [g] + l + live, [g] + l + (live[..k] + [live[k]]);
    forall i | 0 <= i < |b| ensures b[i] == a[i] {}
  }

  lemma BySteady(p: Producer, g: Hash, l: seq<Hash>, m: nat, part: seq<Hash>, h: Hash)
    requires Steady(p) && Broken(p, g, l, m, part, h)
    ensures p.irreversible(l[..m] + part) <= p.irreversible(l)
  {
  }

  lemma AttemptAbove(p: Producer, d: Db, a: Arrival)
    requires Sound(p, d) && Attempted(p, d, a)
    ensures WellFormed(d.tree) && d.head in d.tree && d.tree[a.parent].number == d.number
    ensures p.irreversible(d.log) <= Meet(d.tree, d.head, a.parent) <= |d.log|
  {
    hide Meet, Numbered, AllAccepted, WellFormed, Grow, Live, Chain;
    Facts(p, d);
    MeetBounds(d.tree, d.head, a.parent);
    SwitchReady(d.tree, d.head, d.number, d.index, d.log, p.accept, a.h, a.parent);
  }

  /** What the producer takes of a branch it refuses does not raise the number. */
  lemma PartStaysLow(p: Producer, g: Hash, l: seq<Hash>, m: nat, live: seq<Hash>)
    requires Steady(p) && Rising(p) && p.irreversible(l) <= m <= |l| && m + |live| == |l| + 1
    requires AllAccepted(p.accept, l) && !AllAccepted(p.accept, l[..m] + live)
    requires Distinct([g] + l + live) && NULL !in [g] + l + live
    ensures p.irreversible(l[..m] + live[..Pushed(p, l[..m], live)]) <= p.irreversible(l)
  {
    hide AllAccepted, Steady, Rising, Distinct, Pushed;
    AcceptedStart(p, l, m);
    PushedStops(p, l[..m], live);
    var k := Pushed(p, l[..m], live);
    assert live[..|live|] == live;
    if k == 0 {
      assert l[..m] + live[..0] == l[..m];
      RisingPrefix(p, l, m);
    } else {
      PartDistinct(g, l, live, k);
      BySteady(p, g, l, m, live[..k], live[k]);
    }
  }

  lemma BreaksLow(p: Producer, d: Db, a: Arrival)
    requires Sound(p, d) && Steady(p) && Rising(p) && Attempted(p, d, a)
    ensures var m := Meet(d.tree, d.head, a.parent);
            m <= |d.log| && p.irreversible(d.log) <= m &&
            (!AllAccepted(p.accept, d.log[..m] + Live(d.tree, d.head, a.parent, a.h)) ==>
               p.irreversible(Furthest(p, d, a)) <= p.irreversible(d.log))
  {
    hide Consistent, Meet, Numbered, AllAccepted, WellFormed, Live, Steady, Rising, Distinct, Pushed;
    AttemptAbove(p, d, a);
    Facts(p, d);
    SoundAccepts(p, d);
    var l, m, live := d.log, Meet(d.tree, d.head, a.parent), Live(d.tree, d.head, a.parent, a.h);
    if !AllAccepted(p.accept, l[..m] + live) {
      var g := At(d.tree, d.head, 0);
      BranchIsDistinct(p, d, a, g);
      RouteHeights(d.tree, d.head, a.parent, a.h);
      PartStaysLow(p, g, l, m, live);
    }
  }

  lemma SteadyStep(p: Producer, d: Db, a: Arrival)
    requires Sound(p, d) && Monotone(p) && Steady(p) && Rising(p)
    ensures Returns(p, d, p.irreversible(d.log), a)
    ensures FloorAfter(p, d, p.irreversible(d.log), a) == p.irreversible(After(p, d, a).log)
  {
    hide Consistent, Meet, Numbered, AllAccepted, WellFormed, Grow, Live, Steady, Rising, Monotone;
    Facts(p, d);
    if Attempted(p, d, a) {
      MeetBounds(d.tree, d.head, a.parent);
      var m, live := Meet(d.tree, d.head, a.parent), Live(d.tree, d.head, a.parent, a.h);
      BreaksLow(p, d, a);
      if AllAccepted(p.accept, d.log[..m] + live) {
        PushedAll(p, d.log[..m], live);
        assert live[..|live|] == live;
        AfterMonotone(p, d, a);
      }
    }
  }

  lemma {:induction false} SteadyReturns(p: Producer, d: Db, arrivals: seq<Arrival>)
    requires Sound(p, d) && Monotone(p) && Steady(p) && Rising(p)
    ensures AllReturn(p, d, p.irreversible(d.log), arrivals)
    decreases |arrivals|
  {
    hide Consistent, After, FloorAfter, Returns, Steady, Rising, Monotone;
    if arrivals != [] {
      AfterSound(p, d, arrivals[0]);
      SteadyStep(p, d, arrivals[0]);
      SteadyReturns(p, After(p, d, arrivals[0]), arrivals[1..]);
    }
  }

  // ----- and when they do not

  function Tip(base: Hash, live: seq<Hash>): Hash {
    if live == [] then base else live[|live| - 1]
  }

  lemma AsideStep(p: Producer, d: Db, floor: nat, a: Arrival, c: seq<Hash>)
    requires Sound(p, d) && Importable(d, a) && Chain(d.tree, a.parent) == c && |c| < |d.log|
    ensures var e := After(p, d, a);
            && Sound(p, e) && e == d.(tree := e.tree) && a.h in e.tree && Chain(e.tree, a.h) == c + [a.h]
            && (forall h :: h in e.tree ==> h in d.tree || h == a.h)
            && Returns(p, d, floor, a) && FloorAfter(p, d, floor, a) == floor
  {
    hide AllAccepted, Chain, WellFormed, Consistent, After, Furthest, Meet, Live;
    Facts(p, d);
    AfterSound(p, d, a);
    ChainLength(p, d, a.parent);
    PutAside(p, d, a);
  }

  lemma RestDistinct(l: seq<Hash>)
    requires Distinct(l) && l != []
    ensures Distinct(l[1..]) && l[0] !in l[1..] && forall h :: h in l[1..] ==> h in l
  {
    var r := l[1..];
    forall i | 0 <= i < |r| ensures r[i] == l[i + 1] && r[i] != l[0] {}
  }

  /** A branch that stays below the head is only stored. */
  lemma {:induction false} AsideRun(p: Producer, d: Db, floor: nat, base: Hash, c: seq<Hash>, rest: seq<Hash>)
    requires Sound(p, d) && base in d.tree && Chain(d.tree, base) == c && |c| + |rest| <= |d.log|
    requires Distinct(rest) && forall h :: h in rest ==> h !in d.tree && h != NULL
    ensures var e := Run(p, d, Branch(base, rest));
            && e == d.(tree := e.tree) && Tip(base, rest) in e.tree && Chain(e.tree, Tip(base, rest)) == c + rest
            && (forall h :: h in e.tree ==> h in d.tree || h in rest)
    ensures AllReturn(p, d, floor, Branch(base, rest)) && FloorOf(p, d, floor, Branch(base, rest)) == floor
    decreases |rest|
  {
    hide Chain, WellFormed, Consistent, After, Returns, FloorAfter, Distinct;
    if rest == [] {
      assert c + rest == c;
    } else {
      var a, more := Arrival(rest[0], base), rest[1..];
      var arrivals := Branch(base, rest);
      assert arrivals[0] == a && arrivals[1..] == Branch(rest[0], more);
      assert rest[0] in rest;
      AsideStep(p, d, floor, a, c);
      assert c + [rest[0]] + more == c + rest;
      RestDistinct(rest);
      forall h | h in more ensures h !in After(p, d, a).tree && h != NULL { assert h in rest; }
      AsideRun(p, After(p, d, a), floor, rest[0], c + [rest[0]], more);
      assert Tip(rest[0], more) == Tip(base, rest);
    }
  }

  /** The block that brings a branch above the head starts a switch, unless the check stops it. */
  lemma LastAttempts(p: Producer, d: Db, a: Arrival, m: nat, pre: seq<Hash>)
    requires Sound(p, d) && Importable(d, a) && m <= |d.log| && m + |pre| == |d.log|
    requires Chain(d.tree, a.parent) == d.log[..m] + pre && (pre != [] ==> pre[0] != d.log[m])
    requires p.irreversible(d.log) <= m
    ensures WellFormed(d.tree) && d.head in d.tree && Attempted(p, d, a)
    ensures Meet(d.tree, d.head, a.parent) == m && Live(d.tree, d.head, a.parent, a.h) == pre + [a.h]
  {
    hide Meet, Numbered, AllAccepted, Chain, Grow, WellFormed;
    Facts(p, d);
    var c := Chain(d.tree, a.parent);
    assert c[..m] == d.log[..m] && c[m..] == pre;
    MeetIs(d.tree, d.head, a.parent, m);
    LiveIs(d.tree, d.head, a.parent, a.h, m);
  }

  /** Importing a branch that reaches one above the head, up to its last block. */
  lemma Reaches(p: Producer, d: Db, floor: nat, g: Hash, m: nat, live: seq<Hash>)
    returns (e: Db, arrivals: seq<Arrival>, a: Arrival)
    requires Sound(p, d) && g in d.tree && d.tree[g].number == 0
    requires m < |d.log| && m + |live| == |d.log| + 1 && p.irreversible(d.log) <= m
    requires Distinct(live) && forall h :: h in live ==> h !in d.tree && h != NULL
    ensures Sound(p, e) && e == Run(p, d, arrivals) && e == d.(tree := e.tree)
    ensures AllReturn(p, d, floor, arrivals) && FloorOf(p, d, floor, arrivals) == floor
    ensures (forall h :: h in e.tree ==> h in d.tree || h in live) && g in e.tree && e.tree[g].number == 0
    ensures WellFormed(e.tree) && e.head in e.tree && Attempted(p, e, a)
    ensures Meet(e.tree, e.head, a.parent) == m && Live(e.tree, e.head, a.parent, a.h) == live
  {
    hide AllAccepted, Consistent, Chain, WellFormed, Attempted, Meet, Live, AllReturn, FloorOf;
    var n := |live| - 1;
    var rest, h := live[..n], live[n];
    forall x | x in rest ensures x in live {}
    var base := if m == 0 then g else d.log[m - 1];
    BaseChain(p, d, g, m);
    assert |d.log[..m]| == m;
    AsideRun(p, d, floor, base, d.log[..m], rest);
    arrivals := Branch(base, rest);
    e := Run(p, d, arrivals);
    GenesisStays(p, d, arrivals, g);
    a := Arrival(h, Tip(base, rest));
    assert h in live && forall i :: 0 <= i < n ==> rest[i] != h;
    FreshIsNew(p, d, m, live[0]);
    LastAttempts(p, e, a, m, rest);
    assert rest + [h] == live;
  }

  lemma FreshIsNew(p: Producer, d: Db, m: nat, h: Hash)
    requires Sound(p, d) && m < |d.log| && h !in d.tree
    ensures d.log[m] != h
  {
    hide Consistent, WellFormed;
    Facts(p, d);
    LogHeights(p, d);
  }

  /** Where more is committed than the check protects, a switch in between never returns. */
  lemma GapStalls(p: Producer, d: Db, floor: nat, g: Hash) returns (arrivals: seq<Arrival>)
    requires Extensible(p) && Sound(p, d) && g in d.tree && d.tree[g].number == 0
    requires p.irreversible(d.log) < floor && p.irreversible(d.log) < |d.log|
    ensures !AllReturn(p, d, floor, arrivals)
  {
    hide AllAccepted, Extensible, Attempted, Furthest, Consistent, WellFormed, Meet, Live;
    var m := p.irreversible(d.log);
    SoundAccepts(p, d);
    AcceptedStart(p, d.log, m);
    var f := Extend(p, d.log[..m], (set h | h in d.tree) + {NULL}, |d.log| + 1 - m);
    var e, first, a := Reaches(p, d, floor, g, m, f);
    assert !Returns(p, e, floor, a);
    arrivals := first + [a];
    ReturnAppend(p, d, floor, first, [a]);
  }

  lemma SoundAccepts(p: Producer, d: Db)
    requires Sound(p, d)
    ensures AllAccepted(p.accept, d.log)
  {
  }

  /** A broken-off switch that raises the number leaves such a gap, if it returns at all. */
  lemma BrokenStalls(p: Producer, g: Hash, l: seq<Hash>, m: nat, part: seq<Hash>, h: Hash)
    requires Extensible(p) && Broken(p, g, l, m, part, h) && p.irreversible(l) < p.irreversible(l[..m] + part)
    ensures !NeverStuck(p)
  {
    hide AllAccepted, Extensible, Attempted, Consistent, WellFormed, Meet, Live, Distinct;
    var floor, start := p.irreversible(l), part + [h];
    Pieces(g, l, start);
    var d := Line(p, g, l);
    var used := (set x | x in [g] + l) + (set x | x in start) + {NULL};
    var f := Extend(p, l, used, |l| - m - |part|);
    var live := start + f;
    JoinDistinct(start, f);
    forall x | x in live ensures x !in d.tree && x != NULL { assert x in start || x in f; }
    var e, first, a := Reaches(p, d, floor, g, m, live);
    Breaks(p, l[..m], part, h, f);
    RollsBack(p, e, floor, a);
    assert l[..m] + live[..|part|] == l[..m] + part;
    var second := GapStalls(p, e, p.irreversible(l[..m] + part), g);
    assert ([a] + second)[0] == a && ([a] + second)[1..] == second;
    ReturnAppend(p, d, floor, first, [a] + second);
    assert !AllReturn(p, d, floor, first + ([a] + second));
  }

  lemma RollsBack(p: Producer, d: Db, floor: nat, a: Arrival)
    requires Sound(p, d) && Attempted(p, d, a)
    ensures var m, live := Meet(d.tree, d.head, a.parent), Live(d.tree, d.head, a.parent, a.h);
            && m <= |d.log|
            && (!AllAccepted(p.accept, d.log[..m] + live) ==>
                  && After(p, d, a) == d
                  && FloorAfter(p, d, floor, a) ==
                     Max(floor, p.irreversible(d.log[..m] + live[..Pushed(p, d.log[..m], live)])))
  {
    hide AllAccepted, Consistent, WellFormed, Meet, Live, Pushed;
    Facts(p, d);
    MeetBounds(d.tree, d.head, a.parent);
  }

  lemma JoinDistinct(a: seq<Hash>, b: seq<Hash>)
    requires Distinct(a) && Distinct(b) && forall x :: x in b ==> x !in a
    ensures Distinct(a + b)
  {
    var c := a + b;
    forall i, j | 0 <= i < j < |c| ensures c[i] != c[j] {
      if i < |a| <= j { assert c[j] == b[j - |a|] && b[j - |a|] in b && c[i] in a; }
    }
  }

  lemma Breaks(p: Producer, log: seq<Hash>, part: seq<Hash>, h: Hash, f: seq<Hash>)
    requires AllAccepted(p.accept, log + part) && !p.accept(log + part, h)
    ensures var live := part + [h] + f;
            !AllAccepted(p.accept, log + live) && live[..|part|] == part && Pushed(p, log, live) == |part|
  {
    var live := part + [h] + f;
    var l, k := log + live, |log| + |part|;
    assert live[..|part|] == part && live[|part|] == h;
    assert l[..k] == log + part && l[k] == h;
    PushedIs(p, log, live, |part|);
  }

  lemma LoweringStalls(p: Producer, g: Hash, l: seq<Hash>, m: nat, live: seq<Hash>)
    requires Extensible(p) && Switchable(p, g, l, m, live) && p.irreversible(l[..m] + live) < p.irreversible(l)
    ensures !NeverStuck(p)
  {
    hide Extensible, AllAccepted, Distinct, Kept, AllReturn, Consistent;
    LoweringLoses(p, g, l, m, live);
    var d: Db, arrivals: seq<Arrival>, n: nat :|
      Sound(p, d) && n <= |d.log| && n <= p.irreversible(d.log) && !Kept(p, d, arrivals, n);
    if AllReturn(p, d, p.irreversible(d.log), arrivals) {
      CommittedForever(p, d, p.irreversible(d.log), arrivals, n);
    }
  }

  /** Every import of every run returns exactly when no accepted switch lowers the irreversible number
      and no broken-off one raises it. */
  lemma NeverStuckExact(p: Producer)
    requires Extensible(p) && Rising(p)
    ensures NeverStuck(p) <==> Monotone(p) && Steady(p)
  {
    hide Extensible, Rising, AllAccepted, Distinct, AllReturn, Consistent;
    if !Monotone(p) {
      var g: Hash, l: seq<Hash>, m: nat, live: seq<Hash> :|
        Switchable(p, g, l, m, live) && p.irreversible(l) > p.irreversible(l[..m] + live);
      LoweringStalls(p, g, l, m, live);
    } else if !Steady(p) {
      var g: Hash, l: seq<Hash>, m: nat, part: seq<Hash>, h: Hash :|
        Broken(p, g, l, m, part, h) && p.irreversible(l[..m] + part) > p.irreversible(l);
      BrokenStalls(p, g, l, m, part, h);
    } else {
      forall d: Db, arrivals: seq<Arrival> | Sound(p, d) ensures AllReturn(p, d, p.irreversible(d.log), arrivals) {
        SteadyReturns(p, d, arrivals);
      }
    }
  }

  lemma ForgetfulRises()
    ensures Rising(Forgetful())
  {
  }

  /** The run to the chain 5, 6, 7, 8 passes every check, and its second switch never returns. */
  lemma LostRunStalls() returns (d: Db, arrivals: seq<Arrival>)
    ensures Rising(Forgetful()) && Sound(Forgetful(), d) && d.log == [1, 2] && Forgetful().irreversible(d.log) == 1
    ensures Run(Forgetful(), d, arrivals).log == [5, 6, 7, 8] && !AllReturn(Forgetful(), d, 1, arrivals)
  {
    hide Run, Consistent, AllReturn, Rising;
    ForgetfulRises();
    d, arrivals := IrreversibleLost();
    assert [1, 2][..1][0] == 1 && [5, 6, 7, 8][..1][0] == 5;
    assert !Kept(Forgetful(), d, arrivals, 1);
    if AllReturn(Forgetful(), d, 1, arrivals) {
      CommittedForever(Forgetful(), d, 1, arrivals, 1);
    }
  }
}
