/** The tree of known blocks and `treeRoute`, the walk between two of them over their lowest
    common ancestor. */
module BlockTree {
  import opened Wrappers

  type Hash = nat
  const NULL: Hash := 0

  datatype Details = Details(number: nat, parent: Hash)

  type Tree = map<Hash, Details>

  /** Every block but the genesis sits one above its parent. */
  ghost predicate WellFormed(t: Tree) {
    && NULL !in t
    && (forall h :: h in t && t[h].number > 0 ==> t[h].parent in t && t[t[h].parent].number == t[h].number - 1)
    && (forall g, h :: g in t && h in t && t[g].number == 0 && t[h].number == 0 ==> g == h)
  }

  /** The ancestor of `h` at height `n`. */
  ghost function At(t: Tree, h: Hash, n: nat): (a: Hash)
    requires WellFormed(t) && h in t && n <= t[h].number
    ensures a in t && t[a].number == n
    decreases t[h].number
  {
    if n == t[h].number then h else At(t, t[h].parent, n)
  }

  lemma {:induction false} AtAt(t: Tree, h: Hash, m: nat, n: nat)
    requires WellFormed(t) && h in t && n <= m <= t[h].number
    ensures At(t, At(t, h, m), n) == At(t, h, n)
    decreases t[h].number
  {
    if m < t[h].number { AtAt(t, t[h].parent, m, n); }
  }

  lemma AtParent(t: Tree, h: Hash, n: nat)
    requires WellFormed(t) && h in t && n < t[h].number
    ensures t[At(t, h, n + 1)].parent == At(t, h, n)
  {
    AtAt(t, h, n + 1, n);
  }

  /** The blocks from `h` down to, but without, height `n`. */
  ghost function Down(t: Tree, h: Hash, n: nat): (r: seq<Hash>)
    requires WellFormed(t) && h in t && n <= t[h].number
    ensures |r| == t[h].number - n
    ensures forall i :: 0 <= i < |r| ==> r[i] == At(t, h, t[h].number - i)
    decreases t[h].number
  {
    if n == t[h].number then [] else [h] + Down(t, t[h].parent, n)
  }

  function Reversed<T>(s: seq<T>): (r: seq<T>)
    ensures |r| == |s|
    ensures forall i :: 0 <= i < |s| ==> r[i] == s[|s| - 1 - i]
  {
    seq(|s|, i requires 0 <= i < |s| => s[|s| - 1 - i])
  }

  ghost predicate Meets(t: Tree, a: Hash, b: Hash, n: nat)
    requires WellFormed(t) && a in t && b in t
  {
    n <= t[a].number && n <= t[b].number && At(t, a, n) == At(t, b, n)
  }

  /** The height of the lowest common ancestor, searching downwards from `n`. */
  ghost function MeetFrom(t: Tree, a: Hash, b: Hash, n: nat): (m: nat)
    requires WellFormed(t) && a in t && b in t && n <= t[a].number && n <= t[b].number
    ensures m <= n && Meets(t, a, b, m)
    ensures forall k :: m < k <= n ==> !Meets(t, a, b, k)
  {
    if At(t, a, n) == At(t, b, n) then n else MeetFrom(t, a, b, n - 1)
  }

  ghost function Meet(t: Tree, a: Hash, b: Hash): (m: nat)
    requires WellFormed(t) && a in t && b in t
    ensures Meets(t, a, b, m)
    ensures forall k :: m < k ==> !Meets(t, a, b, k)
  {
    MeetFrom(t, a, b, Min(t[a].number, t[b].number))
  }

  /** Below the lowest common ancestor the two chains are one. */
  lemma MeetsBelow(t: Tree, a: Hash, b: Hash, n: nat)
    requires WellFormed(t) && a in t && b in t && n <= Meet(t, a, b)
    ensures Meets(t, a, b, n)
  {
    var m := Meet(t, a, b);
    AtAt(t, a, m, n);
    AtAt(t, b, m, n);
  }

  // ----- the route

  datatype Route = Route(blocks: seq<Hash>, common: Hash, index: int)

  datatype Answer = Found(r: Route) | ExceedIrreversible

  /** What the walk must return: down from `a` to the ancestor, the ancestor, and up to `b`. */
  ghost function RouteOf(t: Tree, a: Hash, b: Hash, common: bool, pre: bool, post: bool): seq<Hash>
    requires WellFormed(t) && a in t && b in t
  {
    var m := Meet(t, a, b);
    (if pre then Down(t, a, m) else [])
    + (if common && (pre || post) then [At(t, a, m)] else [])
    + (if post then Reversed(Down(t, b, m)) else [])
  }

  lemma DownStep(t: Tree, h: Hash, n: nat)
    requires WellFormed(t) && h in t && n < t[h].number
    ensures Down(t, h, n) == Down(t, h, n + 1) + [At(t, h, n + 1)]
    ensures t[At(t, h, n + 1)].parent == At(t, h, n)
  {
    AtParent(t, h, n);
  }

  /** The loops that bring the deeper end to the height of the other. */
  method Climb(t: Tree, h: Hash, n: nat, keep: bool) returns (route: seq<Hash>, top: Hash)
    requires WellFormed(t) && h in t && n <= t[h].number
    ensures top == At(t, h, n) && route == if keep then Down(t, h, n) else []
  {
    hide WellFormed;
    var fn := t[h].number;
    route, top := [], h;
    while fn > n
      invariant n <= fn <= t[h].number && top == At(t, h, fn)
      invariant route == if keep then Down(t, h, fn) else []
    {
      DownStep(t, h, fn - 1);
      if keep { route := route + [top]; }
      top := t[top].parent;
      fn := fn - 1;
    }
  }

  /** What the common walk has collected once it stands at height `n`. */
  ghost predicate Collected(t: Tree, a: Hash, b: Hash, common: bool, pre: bool, post: bool, n: nat, done: bool,
                            route: seq<Hash>, back: seq<Hash>)
    requires WellFormed(t) && a in t && b in t && n <= t[a].number && n <= t[b].number
  {
    && route == (if pre then Down(t, a, n) else []) + (if done && pre && common then [At(t, a, n)] else [])
    && back == (if post then Down(t, b, n) else []) + (if done && post && !pre && common then [At(t, b, n)] else [])
  }

  /** The joint loop: both ends step down until they are the same block. */
  method WalkTogether(t: Tree, a: Hash, b: Hash, common: bool, pre: bool, post: bool, check: bool, irreversible: nat,
                      n: nat, from0: Hash, to0: Hash, route0: seq<Hash>, back0: seq<Hash>)
    returns (found: bool, meet: Hash, route: seq<Hash>, back: seq<Hash>)
    requires WellFormed(t) && a in t && b in t && Meet(t, a, b) <= n <= t[a].number && n <= t[b].number
    requires from0 == At(t, a, n) && to0 == At(t, b, n)
    requires Collected(t, a, b, common, pre, post, n, false, route0, back0)
    ensures found <==> !(check && Meet(t, a, b) < irreversible)
    ensures found ==> meet == At(t, a, Meet(t, a, b))
                      && Collected(t, a, b, common, pre, post, Meet(t, a, b), true, route, back)
  {
    hide WellFormed, Meet;
    ghost var m := Meet(t, a, b);
    var from, to, fn := from0, to0, n;
    route, back := route0, back0;
    while true
      invariant m <= fn <= t[a].number && fn <= t[b].number
      invariant from == At(t, a, fn) && to == At(t, b, fn)
      invariant Collected(t, a, b, common, pre, post, fn, false, route, back)
      decreases fn
    {
      assert from == to <==> Meets(t, a, b, fn);
      if check && fn < irreversible { return false, NULL, [], []; }
      if pre && (from != to || common) { route := route + [from]; }
      if post && (from != to || (!pre && common)) { back := back + [to]; }
      if from == to { return true, from, route, back; }
      DownStep(t, a, fn - 1);
      DownStep(t, b, fn - 1);
      from, to := t[from].parent, t[to].parent;
      fn := fn - 1;
    }
  }

  lemma Assemble(t: Tree, a: Hash, b: Hash, common: bool, pre: bool, post: bool, route: seq<Hash>, back: seq<Hash>)
    requires WellFormed(t) && a in t && b in t
    requires Collected(t, a, b, common, pre, post, Meet(t, a, b), true, route, back)
    ensures route + Reversed(back) == RouteOf(t, a, b, common, pre, post)
    ensures |route| - (if common && route != [] && back != [] then 1 else 0) == CodeIndex(t, a, b, common, pre, post)
  {
    hide WellFormed, Meet;
    var m := Meet(t, a, b);
    var c, up := At(t, a, m), Down(t, b, m);
    assert Reversed(up + [c]) == [c] + Reversed(up) && Reversed(up + []) == Reversed(up);
  }

  /** `treeRoute`. `irreversible` is the last irreversible number when the caller asked for the
      check. The final `index` follows the code. */
  method TreeRoute(t: Tree, a: Hash, b: Hash, common: bool, pre: bool, post: bool,
                   check: bool, irreversible: nat) returns (r: Answer)
    requires WellFormed(t)
    ensures a !in t || b !in t ==> r == Found(Route([], NULL, 0))
    ensures a in t && b in t ==>
              if check && Meet(t, a, b) < irreversible then r == ExceedIrreversible
              else r.Found? && r.r.blocks == RouteOf(t, a, b, common, pre, post)
                   && r.r.common == At(t, a, Meet(t, a, b))
                   && r.r.index == CodeIndex(t, a, b, common, pre, post)
  {
    hide WellFormed, Meet, RouteOf, CodeIndex;
    if a !in t || b !in t { return Found(Route([], NULL, 0)); }
    var n := Min(t[a].number, t[b].number);
    var route, from := Climb(t, a, n, pre);
    var back, to := Climb(t, b, n, post);
    var found, meet, route', back' := WalkTogether(t, a, b, common, pre, post, check, irreversible, n, from, to,
        route, back);
    if !found { return ExceedIrreversible; }
    var i := |route'| - (if common && route' != [] && back' != [] then 1 else 0);
    Assemble(t, a, b, common, pre, post, route', back');
    r := Found(Route(route' + Reversed(back'), meet, i));
  }

  /** The third component as the code computes it. */
  ghost function CodeIndex(t: Tree, a: Hash, b: Hash, common: bool, pre: bool, post: bool): int
    requires WellFormed(t) && a in t && b in t
  {
    var m := Meet(t, a, b);
    var route := (if pre then t[a].number - m else 0) + (if pre && common then 1 else 0);
    var back := (if post then t[b].number - m else 0) + (if post && !pre && common then 1 else 0);
    route - if common && route > 0 && back > 0 then 1 else 0
  }

  // ----- what the route is

  /** One of the two is the other's parent. */
  ghost predicate Linked(t: Tree, g: Hash, h: Hash)
    requires g in t && h in t
  {
    (t[g].number == t[h].number + 1 && t[g].parent == h) || (t[h].number == t[g].number + 1 && t[h].parent == g)
  }

  /** A walk down from `a` to height `k` and up again to `b`. */
  ghost function Walk(t: Tree, a: Hash, b: Hash, k: nat): (r: seq<Hash>)
    requires WellFormed(t) && a in t && b in t && Meets(t, a, b, k)
    ensures |r| == t[a].number - k + 1 + t[b].number - k
  {
    Down(t, a, k) + [At(t, a, k)] + Reversed(Down(t, b, k))
  }

  /** Its blocks, one by one. */
  lemma WalkAt(t: Tree, a: Hash, b: Hash, k: nat)
    requires WellFormed(t) && a in t && b in t && Meets(t, a, b, k)
    ensures var r := Walk(t, a, b, k);
            && (forall i :: 0 <= i <= t[a].number - k ==> r[i] == At(t, a, t[a].number - i))
            && (forall i :: t[a].number - k <= i < |r| ==> r[i] == At(t, b, k + i - (t[a].number - k)))
  {
    hide WellFormed;
    var r, d, up := Walk(t, a, b, k), t[a].number - k, Reversed(Down(t, b, k));
    forall i | d < i < |r| ensures r[i] == At(t, b, k + i - d) {
      assert r[i] == up[i - d - 1] == Down(t, b, k)[t[b].number - k - 1 - (i - d - 1)];
    }
  }

  ghost predicate Distinct(s: seq<Hash>) {
    forall i, j :: 0 <= i < j < |s| ==> s[i] != s[j]
  }

  /** The full route leads from `a` to `b` along parent links and repeats no block. */
  lemma RouteIsAPath(t: Tree, a: Hash, b: Hash)
    requires WellFormed(t) && a in t && b in t
    ensures var r := RouteOf(t, a, b, true, true, true);
            && r == Walk(t, a, b, Meet(t, a, b)) && r[0] == a && r[|r|-1] == b && Distinct(r)
            && (forall h :: h in r ==> h in t)
            && (forall i :: 0 <= i < |r| - 1 ==> Linked(t, r[i], r[i + 1]))
  {
    hide WellFormed, Meet, Meets;
    var m := Meet(t, a, b);
    var w := Walk(t, a, b, m);
    WalkAt(t, a, b, m);
    assert t[a].number >= m && t[b].number >= m by { MeetBounds(t, a, b); }
    forall i | 0 <= i < |w| - 1 ensures Linked(t, w[i], w[i + 1]) { WalkLinked(t, a, b, m, i); }
    WalkDistinct(t, a, b);
  }

  lemma MeetBounds(t: Tree, a: Hash, b: Hash)
    requires WellFormed(t) && a in t && b in t
    ensures Meet(t, a, b) <= t[a].number && Meet(t, a, b) <= t[b].number
  {
    assert Meets(t, a, b, Meet(t, a, b));
  }

  lemma WalkLinked(t: Tree, a: Hash, b: Hash, k: nat, i: nat)
    requires WellFormed(t) && a in t && b in t && Meets(t, a, b, k)
    requires i + 1 < |Walk(t, a, b, k)|
    ensures var w := Walk(t, a, b, k); w[i] in t && w[i + 1] in t && Linked(t, w[i], w[i + 1])
  {
    hide WellFormed, Walk;
    WalkAt(t, a, b, k);
    if i < t[a].number - k {
      AtParent(t, a, t[a].number - i - 1);
    } else {
      AtParent(t, b, k + i - (t[a].number - k));
    }
  }

  lemma WalkDistinct(t: Tree, a: Hash, b: Hash)
    requires WellFormed(t) && a in t && b in t
    ensures Distinct(Walk(t, a, b, Meet(t, a, b)))
  {
    hide WellFormed, Meet, Walk;
    var m := Meet(t, a, b);
    var w, d := Walk(t, a, b, m), t[a].number - m;
    WalkAt(t, a, b, m);
    forall i, j | 0 <= i < j < |w| ensures w[i] != w[j] {
      if i < d < j {
        assert w[i] == At(t, a, t[a].number - i) && w[j] == At(t, b, m + j - d);
        if t[a].number - i == m + j - d { assert !Meets(t, a, b, m + j - d); }
      }
    }
  }

  /** Going deeper than the lowest common ancestor before turning round repeats it. */
  lemma TurnsAtMeet(t: Tree, a: Hash, b: Hash, k: nat)
    requires WellFormed(t) && a in t && b in t && Meets(t, a, b, k)
    ensures Distinct(Walk(t, a, b, k)) <==> k == Meet(t, a, b)
  {
    hide WellFormed, Meet;
    var m := Meet(t, a, b);
    if k == m {
      WalkDistinct(t, a, b);
    } else {
      MeetBounds(t, a, b);
      var w := Walk(t, a, b, k);
      WalkAt(t, a, b, k);
      assert Meets(t, a, b, m);
      assert w[t[a].number - m] == At(t, a, m) && w[t[a].number - k + m - k] == At(t, b, m);
    }
  }

  /** A sequence of known blocks in which neighbours are parent and child. */
  ghost predicate Path(t: Tree, p: seq<Hash>) {
    && p != [] && (forall i :: 0 <= i < |p| ==> p[i] in t)
    && (forall i :: 0 <= i < |p| - 1 ==> Linked(t, p[i], p[i + 1]))
  }

  lemma TailIsPath(t: Tree, p: seq<Hash>)
    requires Path(t, p) && Distinct(p) && |p| > 1
    ensures Path(t, p[1..]) && Distinct(p[1..]) && p[0] in t && p[1] in t && Linked(t, p[0], p[1]) && p[0] !in p[1..]
  {
    var q := p[1..];
    assert forall i :: 0 <= i < |q| ==> q[i] == p[i + 1];
    forall i | 0 <= i < |q| - 1 ensures Linked(t, q[i], q[i + 1]) {
      assert q[i] == p[i + 1] && q[i + 1] == p[i + 2];
    }
  }

  lemma ParentBelow(t: Tree, a: Hash)
    requires WellFormed(t) && a in t && t[a].number > 0
    ensures t[a].parent in t && t[t[a].parent].number == t[a].number - 1
  {
  }

  /** One more block at the lower end of a walk's first half. */
  lemma WalkFromChild(t: Tree, a: Hash, b: Hash, k: nat)
    requires WellFormed(t) && a in t && b in t && t[a].number > 0 && t[a].parent in t
    requires Meets(t, t[a].parent, b, k)
    ensures Meets(t, a, b, k) && Walk(t, a, b, k) == [a] + Walk(t, t[a].parent, b, k)
  {
    hide WellFormed, Walk;
    ParentBelow(t, a);
    var p := t[a].parent;
    assert forall n: nat :: n <= t[p].number ==> At(t, a, n) == At(t, p, n);
    var w, v := Walk(t, a, b, k), Walk(t, p, b, k);
    WalkAt(t, a, b, k);
    WalkAt(t, p, b, k);
    forall i | 1 <= i < |w| ensures w[i] == v[i - 1] {
      if i <= t[a].number - k { assert v[i - 1] == At(t, p, t[p].number - (i - 1)); }
    }
  }

  /** A walk that only climbs can start one lower. */
  lemma WalkFromParent(t: Tree, a: Hash, c: Hash, b: Hash)
    requires WellFormed(t) && a in t && b in t && c in t && t[c].number == t[a].number + 1 && t[c].parent == a
    requires Meets(t, c, b, t[c].number)
    ensures Meets(t, a, b, t[a].number) && Walk(t, a, b, t[a].number) == [a] + Walk(t, c, b, t[c].number)
  {
    hide WellFormed, Walk;
    AtParent(t, b, t[a].number);
    var w, v := Walk(t, a, b, t[a].number), Walk(t, c, b, t[c].number);
    WalkAt(t, a, b, t[a].number);
    WalkAt(t, c, b, t[c].number);
    forall i | 1 <= i < |w| ensures w[i] == v[i - 1] {}
  }

  /** A path that never repeats a block goes down for a while and then only up. */
  lemma {:induction false} PathIsWalk(t: Tree, p: seq<Hash>) returns (k: nat)
    requires WellFormed(t) && Path(t, p) && Distinct(p)
    ensures p[0] in t && p[|p| - 1] in t && Meets(t, p[0], p[|p| - 1], k) && p == Walk(t, p[0], p[|p| - 1], k)
    decreases |p|
  {
    hide WellFormed, Distinct, Linked;
    var a, b := p[0], p[|p| - 1];
    if |p| == 1 {
      k := t[a].number;
      assert p == [a];
      WalkAt(t, a, a, k);
      assert Walk(t, a, a, k)[0] == a;
    } else {
      var q := p[1..];
      TailIsPath(t, p);
      var j := PathIsWalk(t, q);
      assert p == [a] + q && q[|q| - 1] == b;
      k := FirstStep(t, a, q, b, j);
    }
  }

  lemma FirstStep(t: Tree, a: Hash, q: seq<Hash>, b: Hash, j: nat) returns (k: nat)
    requires WellFormed(t) && a in t && b in t && q != [] && q[0] in t && Linked(t, a, q[0]) && a !in q
    requires Meets(t, q[0], b, j) && q == Walk(t, q[0], b, j)
    ensures Meets(t, a, b, k) && [a] + q == Walk(t, a, b, k)
  {
    if t[a].number == t[q[0]].number + 1 && t[a].parent == q[0] {
      k := j;
      WalkFromChild(t, a, b, j);
    } else {
      k := t[a].number;
      if j < t[q[0]].number { StepsBack(t, a, q, b, j); }
      WalkFromParent(t, a, q[0], b);
    }
  }

  /** After a step up the only way down is back. */
  lemma StepsBack(t: Tree, a: Hash, q: seq<Hash>, b: Hash, j: nat)
    requires WellFormed(t) && a in t && b in t && q != [] && q[0] in t
    requires t[q[0]].number == t[a].number + 1 && t[q[0]].parent == a
    requires Meets(t, q[0], b, j) && q == Walk(t, q[0], b, j) && j < t[q[0]].number
    ensures a in q
  {
    hide WellFormed, Walk;
    WalkAt(t, q[0], b, j);
    AtParent(t, q[0], t[a].number);
    assert q[1] in q;
  }

  /** The route is the only path between two blocks that repeats none. */
  lemma RouteIsUnique(t: Tree, a: Hash, b: Hash, p: seq<Hash>)
    requires WellFormed(t) && a in t && b in t
    ensures Path(t, p) && Distinct(p) && p[0] == a && p[|p| - 1] == b <==> p == RouteOf(t, a, b, true, true, true)
  {
    hide WellFormed, Meet, Distinct, RouteOf;
    RouteIsAPath(t, a, b);
    if Path(t, p) && Distinct(p) && p[0] == a && p[|p| - 1] == b {
      var k := PathIsWalk(t, p);
      TurnsAtMeet(t, a, b, k);
    }
  }

  /** For every choice of flags the list is the full route cut at its lowest block: the part before, the block
      itself once, the part behind. */
  lemma FlagsExact(t: Tree, a: Hash, b: Hash, common: bool, pre: bool, post: bool)
    requires WellFormed(t) && a in t && b in t
    ensures var full, k := RouteOf(t, a, b, true, true, true), t[a].number - Meet(t, a, b);
            && 0 <= k < |full| && (forall i :: 0 <= i < |full| ==> full[i] in t)
            && (forall i :: 0 <= i < |full| && i != k ==> t[full[i]].number > t[full[k]].number)
            && RouteOf(t, a, b, common, pre, post) ==
               (if pre then full[..k] else []) + (if common && (pre || post) then [full[k]] else []) +
               (if post then full[k + 1..] else [])
  {
    hide WellFormed, Meet;
    RouteIsAPath(t, a, b);
    MeetBounds(t, a, b);
    var full, k, m := RouteOf(t, a, b, true, true, true), t[a].number - Meet(t, a, b), Meet(t, a, b);
    assert full == Down(t, a, m) + [At(t, a, m)] + Reversed(Down(t, b, m));
    assert full[..k] == Down(t, a, m) && full[k] == At(t, a, m) && full[k + 1..] == Reversed(Down(t, b, m));
  }

  /** The returned index is the place of the common ancestor exactly unless the ancestor was put into
      the first part and the second part is empty; then it is one more. */
  lemma IndexExact(t: Tree, a: Hash, b: Hash, common: bool, pre: bool, post: bool)
    requires WellFormed(t) && a in t && b in t
    ensures var place := if pre then t[a].number - Meet(t, a, b) else 0;
            CodeIndex(t, a, b, common, pre, post) ==
            if pre && common && (!post || Meet(t, a, b) == t[b].number) then place + 1 else place
  {
    hide WellFormed, Meet;
    MeetBounds(t, a, b);
  }

  /** An accepted switch leaves every irreversible block in place. */
  lemma IrreversibleStays(t: Tree, a: Hash, b: Hash, irreversible: nat)
    requires WellFormed(t) && a in t && b in t && irreversible <= Meet(t, a, b)
    ensures forall h :: h in Down(t, a, Meet(t, a, b)) ==> t[h].number > irreversible
    ensures forall n :: 0 <= n <= irreversible ==> Meets(t, a, b, n)
  {
    hide WellFormed, Meet;
    MeetBounds(t, a, b);
    forall n: nat | n <= irreversible ensures Meets(t, a, b, n) { MeetsBelow(t, a, b, n); }
  }
}
