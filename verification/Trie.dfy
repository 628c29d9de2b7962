/** The modified Merkle-Patricia tree of Appendix D of the Ethereum Yellow Paper, with node
    references replaced by the nodes themselves. */
module Trie {
  import opened BigEndian
  import opened Wrappers

  type Nibble = x: int | 0 <= x < 16
  type Path = seq<Nibble>

  datatype Entry = Entry(key: Path, value: Bytes)

  datatype Node = Null | Leaf(path: Path, value: Bytes) | Ext(path: Path, child: Node)
                | Branch(children: seq<Node>, value: Bytes)

  // ----- the map

  predicate Less(a: Path, b: Path) {
    if b == [] then false
    else if a == [] then true
    else a[0] < b[0] || (a[0] == b[0] && Less(a[1..], b[1..]))
  }

  /** The lexicographic order: a proper prefix comes first, otherwise the first difference decides. */
  lemma {:induction false} LessExact(a: Path, b: Path)
    ensures Less(a, b) <==>
            || (|a| < |b| && b[..|a|] == a)
            || exists i :: 0 <= i < |a| && i < |b| && a[..i] == b[..i] && a[i] < b[i]
    decreases |a|
  {
    if a != [] && b != [] {
      var c, d := a[1..], b[1..];
      LessExact(c, d);
      assert a == [a[0]] + c && b == [b[0]] + d;
      if a[0] == b[0] {
        assert |a| < |b| ==> (b[..|a|] == a <==> d[..|c|] == c);
        if i :| 0 <= i < |c| && i < |d| && c[..i] == d[..i] && c[i] < d[i] {
          assert a[..i + 1] == b[..i + 1] && a[i + 1] < b[i + 1];
        }
        if i :| 0 <= i < |a| && i < |b| && a[..i] == b[..i] && a[i] < b[i] {
          assert c[..i - 1] == a[..i][1..] && d[..i - 1] == b[..i][1..];
        }
      } else {
        assert a[..0] == b[..0];
        assert forall i :: 0 < i < |a| && i < |b| ==> a[..i][0] == a[0] && b[..i][0] == b[0];
      }
    }
  }

  /** Strictly ascending keys, as in an ordered map. */
  ghost predicate Sorted(es: seq<Entry>) {
    forall i, j :: 0 <= i < j < |es| ==> Less(es[i].key, es[j].key)
  }

  ghost predicate HasValues(es: seq<Entry>) {
    forall i :: 0 <= i < |es| ==> es[i].value != []
  }

  function Find(es: seq<Entry>, k: Path): Option<Bytes> {
    if es == [] then None
    else if es[0].key == k then Some(es[0].value)
    else Find(es[1..], k)
  }

  // ----- the tree

  function Lookup(n: Node, k: Path): Option<Bytes>
    decreases n
  {
    match n
    case Null => None
    case Leaf(p, v) => if k == p then Some(v) else None
    case Ext(p, c) => if p <= k then Lookup(c, k[|p|..]) else None
    case Branch(cs, v) =>
      if k == [] then (if v == [] then None else Some(v))
      else if k[0] < |cs| then Lookup(cs[k[0]], k[1..])
      else None
  }

  function CommonPrefix(a: Path, b: Path): (n: nat)
    ensures n <= |a| && n <= |b| && a[..n] == b[..n]
    ensures n < |a| && n < |b| ==> a[n] != b[n]
  {
    if a == [] || b == [] || a[0] != b[0] then 0 else
    var n := 1 + CommonPrefix(a[1..], b[1..]);
    assert a[..n] == [a[0]] + a[1..][..n - 1] && b[..n] == [b[0]] + b[1..][..n - 1];
    n
  }

  /** How many nibbles all keys share with `k`. */
  function SharedWith(k: Path, es: seq<Entry>): (n: nat)
    ensures n <= |k|
    ensures forall i :: 0 <= i < |es| ==> n <= |es[i].key| && es[i].key[..n] == k[..n]
  {
    if es == [] then |k| else
    var a, b := CommonPrefix(k, es[0].key), SharedWith(k, es[1..]);
    var n := Min(a, b);
    assert k[..n] == k[..a][..n] && es[0].key[..n] == es[0].key[..a][..n];
    assert forall i :: 1 <= i < |es| ==>
        es[i] == es[1..][i - 1] && es[i].key[..n] == es[i].key[..b][..n] && k[..n] == k[..b][..n];
    n
  }

  function Size(es: seq<Entry>): nat {
    if es == [] then 0 else |es[0].key| + 1 + Size(es[1..])
  }

  /** All entries, without the first `n` nibbles of their keys. */
  function Strip(es: seq<Entry>, n: nat): (r: seq<Entry>)
    requires forall i :: 0 <= i < |es| ==> n <= |es[i].key|
    ensures |r| == |es| && forall i :: 0 <= i < |es| ==> r[i] == Entry(es[i].key[n..], es[i].value)
    ensures Size(r) == Size(es) - n * |es|
  {
    if es == [] then [] else [Entry(es[0].key[n..], es[0].value)] + Strip(es[1..], n)
  }

  /** The entries whose key starts with `x`, without that nibble. */
  function Group(es: seq<Entry>, x: Nibble): (r: seq<Entry>)
    ensures Size(r) <= Size(es) && (es != [] ==> Size(r) < Size(es)) && |r| <= |es|
  {
    if es == [] then []
    else if es[0].key != [] && es[0].key[0] == x
    then [Entry(es[0].key[1..], es[0].value)] + Group(es[1..], x)
    else Group(es[1..], x)
  }

  /** The prefix all keys of a map with several entries share. */
  function Shared(es: seq<Entry>): (n: nat)
    requires |es| > 1
    ensures n <= |es[0].key|
    ensures forall i :: 0 <= i < |es| ==> n <= |es[i].key| && es[i].key[..n] == es[0].key[..n]
  {
    assert forall i :: 1 <= i < |es| ==> es[i] == es[1..][i - 1];
    SharedWith(es[0].key, es[1..])
  }

  function Build(es: seq<Entry>): Node
    decreases Size(es)
  {
    if es == [] then Null
    else if |es| == 1 then Leaf(es[0].key, es[0].value)
    else
      var n := Shared(es);
      if n > 0 then Ext(es[0].key[..n], Build(Strip(es, n)))
      else Branch(seq(16, i requires 0 <= i < 16 => Build(Group(es, i))), if es[0].key == [] then es[0].value else [])
  }

  // ----- faithful: lookup in the tree is lookup in the map

  lemma {:induction false} LessIrreflexive(a: Path)
    ensures !Less(a, a)
  {
    if a != [] { LessIrreflexive(a[1..]); }
  }

  lemma {:induction false} LessStrip(a: Path, b: Path, n: nat)
    requires n <= |a| && n <= |b| && a[..n] == b[..n]
    ensures Less(a[n..], b[n..]) == Less(a, b)
  {
    if n > 0 {
      assert a[0] == a[..n][0] == b[..n][0] == b[0];
      assert a[1..][..n - 1] == a[..n][1..] && b[1..][..n - 1] == b[..n][1..];
      LessStrip(a[1..], b[1..], n - 1);
      assert a[1..][n - 1..] == a[n..] && b[1..][n - 1..] == b[n..];
    } else {
      assert a[0..] == a && b[0..] == b;
    }
  }

  lemma SortedStrip(es: seq<Entry>, n: nat)
    requires Sorted(es) && es != [] && n <= |es[0].key|
    requires forall i :: 0 <= i < |es| ==> n <= |es[i].key| && es[i].key[..n] == es[0].key[..n]
    ensures Sorted(Strip(es, n))
  {
    var r := Strip(es, n);
    forall i, j | 0 <= i < j < |r| ensures Less(r[i].key, r[j].key) {
      LessStrip(es[i].key, es[j].key, n);
    }
  }

  /** Every entry of a group stands in the original, behind its nibble. */
  lemma {:induction false} GroupMember(es: seq<Entry>, x: Nibble, j: nat)
    requires j < |Group(es, x)|
    ensures exists i :: 0 <= i < |es| && es[i] == Entry([x] + Group(es, x)[j].key, Group(es, x)[j].value)
  {
    if es[0].key != [] && es[0].key[0] == x {
      if j == 0 {
        assert es[0].key == [x] + es[0].key[1..];
      } else {
        GroupMember(es[1..], x, j - 1);
        var i :| 0 <= i < |es[1..]| && es[1..][i] ==
            Entry([x] + Group(es[1..], x)[j - 1].key, Group(es[1..], x)[j - 1].value);
        assert es[i + 1] == es[1..][i];
      }
    } else {
      GroupMember(es[1..], x, j);
      var i :| 0 <= i < |es[1..]| && es[1..][i] == Entry([x] + Group(es[1..], x)[j].key, Group(es[1..], x)[j].value);
      assert es[i + 1] == es[1..][i];
    }
  }

  lemma {:induction false} GroupSorted(es: seq<Entry>, x: Nibble)
    requires Sorted(es)
    ensures Sorted(Group(es, x))
  {
    if es != [] {
      GroupSorted(es[1..], x);
      if es[0].key != [] && es[0].key[0] == x {
        var rest := Group(es[1..], x);
        forall j | 0 <= j < |rest| ensures Less(es[0].key[1..], rest[j].key) {
          GroupMember(es[1..], x, j);
          var i :| 0 <= i < |es[1..]| && es[1..][i] == Entry([x] + rest[j].key, rest[j].value);
          assert Less(es[0].key, es[i + 1].key);
          assert es[i + 1].key[1..] == rest[j].key;
        }
      }
    }
  }

  lemma GroupHasValues(es: seq<Entry>, x: Nibble)
    requires HasValues(es)
    ensures HasValues(Group(es, x))
  {
    var g := Group(es, x);
    forall j | 0 <= j < |g| ensures g[j].value != [] {
      GroupMember(es, x, j);
    }
  }

  lemma {:induction false} FindInGroup(es: seq<Entry>, x: Nibble, k: Path)
    ensures Find(Group(es, x), k) == Find(es, [x] + k)
  {
    if es != [] {
      FindInGroup(es[1..], x, k);
      assert ([x] + k)[1..] == k;
      if es[0].key != [] && es[0].key[0] == x {
        assert es[0].key == [x] + es[0].key[1..];
        var r := [Entry(es[0].key[1..], es[0].value)] + Group(es[1..], x);
        assert r[1..] == Group(es[1..], x);
      }
    }
  }

  lemma {:induction false} FindInStripped(es: seq<Entry>, p: Path, k: Path)
    requires forall i :: 0 <= i < |es| ==> p <= es[i].key
    ensures Find(Strip(es, |p|), k) == Find(es, p + k)
  {
    if es != [] {
      FindInStripped(es[1..], p, k);
      assert es[0].key == p + es[0].key[|p|..];
      assert (p + k)[|p|..] == k;
      assert Strip(es, |p|)[1..] == Strip(es[1..], |p|);
    }
  }

  lemma {:induction false} FindNone(es: seq<Entry>, k: Path)
    requires forall i :: 0 <= i < |es| ==> es[i].key != k
    ensures Find(es, k) == None
  {
    if es != [] { FindNone(es[1..], k); }
  }

  lemma {:induction false} FindSome(es: seq<Entry>, i: nat)
    requires Sorted(es) && i < |es|
    ensures Find(es, es[i].key) == Some(es[i].value)
  {
    if i > 0 {
      LessIrreflexive(es[i].key);
      FindSome(es[1..], i - 1);
    }
  }

  /** Only the first key of a sorted map can be empty. */
  lemma OnlyFirstIsEmpty(es: seq<Entry>, i: nat)
    requires Sorted(es) && 0 < i < |es|
    ensures es[i].key != []
  {
    assert Less(es[0].key, es[i].key);
  }

  lemma {:induction false} LookupFinds(es: seq<Entry>, k: Path)
    requires Sorted(es) && HasValues(es)
    ensures Lookup(Build(es), k) == Find(es, k)
    decreases Size(es)
  {
    if |es| > 1 {
      var n := Shared(es);
      if n > 0 { LookupExtension(es, k); } else { LookupBranch(es, k); }
    } else if |es| == 1 {
      assert Find(es[1..], k) == None;
    }
  }

  lemma {:induction false} LookupExtension(es: seq<Entry>, k: Path)
    requires Sorted(es) && HasValues(es) && |es| > 1 && Shared(es) > 0
    ensures Lookup(Build(es), k) == Find(es, k)
    decreases Size(es), 0
  {
    hide Sorted, Less, Find;
    var n := Shared(es);
    var p := es[0].key[..n];
    SortedStrip(es, n);
    if p <= k {
      assert k == p + k[n..];
      FindInStripped(es, p, k[n..]);
      LookupFinds(Strip(es, n), k[n..]);
    } else {
      FindNone(es, k);
    }
  }

  lemma {:induction false} LookupBranch(es: seq<Entry>, k: Path)
    requires Sorted(es) && HasValues(es) && |es| > 1 && Shared(es) == 0
    ensures Lookup(Build(es), k) == Find(es, k)
    decreases Size(es), 0
  {
    if k == [] {
      forall i | 1 <= i < |es| ensures es[i].key != [] { OnlyFirstIsEmpty(es, i); }
      FindNone(es[1..], k);
    } else {
      var x := k[0];
      assert k == [x] + k[1..];
      GroupSorted(es, x);
      GroupHasValues(es, x);
      LookupFinds(Group(es, x), k[1..]);
      FindInGroup(es, x, k[1..]);
    }
  }

  // ----- canonical: the shape is determined by the map

  ghost predicate Crowded(cs: seq<Node>, v: Bytes) {
    || (exists i, j :: 0 <= i < j < |cs| && cs[i] != Null && cs[j] != Null)
    || (v != [] && exists i :: 0 <= i < |cs| && cs[i] != Null)
  }

  /** Extensions have non-empty paths and lead to branches; branches have two occupied slots. */
  ghost predicate Proper(n: Node)
    decreases n
  {
    match n
    case Null => false
    case Leaf(_, v) => v != []
    case Ext(p, c) => p != [] && c.Branch? && Proper(c)
    case Branch(cs, v) =>
      && |cs| == 16 && Crowded(cs, v)
      && forall i :: 0 <= i < |cs| ==> cs[i] == Null || Proper(cs[i])
  }

  ghost predicate Canonical(n: Node) {
    n == Null || Proper(n)
  }

  lemma {:induction false} SharedIsLongest(k: Path, es: seq<Entry>)
    ensures SharedWith(k, es) == |k| ||
            exists i :: 0 <= i < |es| && CommonPrefix(k, es[i].key) == SharedWith(k, es)
  {
    if es != [] {
      SharedIsLongest(k, es[1..]);
      if CommonPrefix(k, es[0].key) > SharedWith(k, es[1..]) {
        if i :| 0 <= i < |es[1..]| && CommonPrefix(k, es[1..][i].key) == SharedWith(k, es[1..]) {
          assert es[i + 1] == es[1..][i];
        }
      }
    }
  }

  /** Where nothing is shared, either the first key is empty or some key starts differently. */
  lemma Fork(es: seq<Entry>)
    requires Sorted(es) && |es| > 1 && Shared(es) == 0
    ensures es[0].key == [] || exists i :: 0 < i < |es| && es[i].key != [] && es[i].key[0] != es[0].key[0]
  {
    SharedIsLongest(es[0].key, es[1..]);
    if es[0].key != [] {
      var i :| 0 <= i < |es[1..]| && CommonPrefix(es[0].key, es[1..][i].key) == 0;
      assert es[i + 1] == es[1..][i];
      OnlyFirstIsEmpty(es, i + 1);
    }
  }

  lemma {:induction false} GroupOccupied(es: seq<Entry>, i: nat)
    requires i < |es| && es[i].key != []
    ensures Group(es, es[i].key[0]) != []
  {
    if i > 0 { GroupOccupied(es[1..], i - 1); }
  }

  lemma {:induction false} CommonPrefixStrip(a: Path, b: Path, n: nat)
    requires n <= CommonPrefix(a, b)
    ensures CommonPrefix(a[n..], b[n..]) == CommonPrefix(a, b) - n
  {
    if n > 0 {
      CommonPrefixStrip(a[1..], b[1..], n - 1);
      assert a[1..][n - 1..] == a[n..] && b[1..][n - 1..] == b[n..];
    } else {
      assert a[0..] == a && b[0..] == b;
    }
  }

  lemma {:induction false} SharedAtMost(k: Path, es: seq<Entry>, i: nat)
    requires i < |es|
    ensures SharedWith(k, es) <= CommonPrefix(k, es[i].key)
  {
    if i > 0 { SharedAtMost(k, es[1..], i - 1); }
  }

  /** Once the shared prefix is gone, nothing is shared. */
  lemma NothingMoreShared(es: seq<Entry>)
    requires Sorted(es) && |es| > 1
    ensures Shared(Strip(es, Shared(es))) == 0
  {
    var n := Shared(es);
    var r := Strip(es, n);
    SharedIsLongest(es[0].key, es[1..]);
    if n < |es[0].key| {
      var i :| 0 <= i < |es[1..]| && CommonPrefix(es[0].key, es[1..][i].key) == n;
      CommonPrefixStrip(es[0].key, es[i + 1].key, n);
      assert r[1..][i] == r[i + 1];
      SharedAtMost(r[0].key, r[1..], i);
    }
  }

  lemma {:induction false} BuildIsCanonical(es: seq<Entry>)
    requires Sorted(es) && HasValues(es)
    ensures Canonical(Build(es)) && (Build(es) == Null <==> es == [])
    decreases Size(es)
  {
    hide Sorted, Less, Group, Crowded;
    if |es| > 1 {
      if Shared(es) > 0 {
        SortedStrip(es, Shared(es));
        NothingMoreShared(es);
        BuildIsCanonical(Strip(es, Shared(es)));
      } else {
        forall i: Nibble
          ensures Canonical(Build(Group(es, i))) && (Build(Group(es, i)) == Null <==> Group(es, i) == [])
        {
          GroupSorted(es, i);
          GroupHasValues(es, i);
          BuildIsCanonical(Group(es, i));
        }
        BranchIsCrowded(es);
      }
    }
  }

  /** Two groups, or one group and the value, are occupied. */
  lemma TwoGroups(es: seq<Entry>) returns (x: Nibble, y: Nibble)
    requires Sorted(es) && |es| > 1 && Shared(es) == 0
    ensures Group(es, x) != [] && Group(es, y) != [] && (es[0].key == [] || x != y)
  {
    Fork(es);
    if es[0].key == [] {
      OnlyFirstIsEmpty(es, 1);
      GroupOccupied(es, 1);
      x, y := es[1].key[0], es[1].key[0];
    } else {
      var i :| 0 < i < |es| && es[i].key != [] && es[i].key[0] != es[0].key[0];
      GroupOccupied(es, 0);
      GroupOccupied(es, i);
      x, y := es[0].key[0], es[i].key[0];
    }
  }

  lemma BranchIsCrowded(es: seq<Entry>)
    requires Sorted(es) && HasValues(es) && |es| > 1 && Shared(es) == 0
    requires forall i: Nibble :: Build(Group(es, i)) == Null <==> Group(es, i) == []
    ensures Crowded(Build(es).children, Build(es).value)
  {
    hide Group, Size, Shared, Sorted;
    var x, y := TwoGroups(es);
    var cs := Build(es).children;
    assert cs[x] != Null && cs[y] != Null;
    if y < x { assert 0 <= y < x < |cs|; }
  }

  lemma {:induction false} SomeKey(n: Node) returns (k: Path)
    requires Proper(n)
    ensures Lookup(n, k).Some?
    decreases n
  {
    match n
    case Leaf(p, _) => k := p;
    case Ext(p, c) =>
      var q := SomeKey(c);
      k := p + q;
      assert k[|p|..] == q;
    case Branch(cs, v) =>
      var i :| 0 <= i < |cs| && cs[i] != Null;
      var q := SomeKey(cs[i]);
      k := [i] + q;
      assert k[1..] == q;
  }

  /** The path every key of a branching node starts with. */
  function Stem(n: Node): Path
    requires n.Ext? || n.Branch?
  {
    if n.Ext? then n.path else []
  }

  /** No nibble in common. */
  predicate Diverge(a: Path, b: Path) {
    a != b && (a == [] || b == [] || a[0] != b[0])
  }

  lemma SlotKey(n: Node, i: nat) returns (k: Path)
    requires n.Branch? && Proper(n) && i < 16 && n.children[i] != Null
    ensures k != [] && k[0] == i && Lookup(n, k).Some?
  {
    var q := SomeKey(n.children[i]);
    k := [i] + q;
    assert k[1..] == q;
  }

  lemma BranchKeys(n: Node) returns (a: Path, b: Path)
    requires n.Branch? && Proper(n)
    ensures Lookup(n, a).Some? && Lookup(n, b).Some? && Diverge(a, b)
  {
    if i, j :| 0 <= i < j < |n.children| && n.children[i] != Null && n.children[j] != Null {
      a := SlotKey(n, i);
      b := SlotKey(n, j);
    } else {
      var i :| 0 <= i < |n.children| && n.children[i] != Null;
      a := [];
      b := SlotKey(n, i);
    }
  }

  /** A branching node has two keys that part right behind its stem. */
  lemma TwoKeys(n: Node) returns (a: Path, b: Path)
    requires (n.Ext? || n.Branch?) && Proper(n)
    ensures Lookup(n, Stem(n) + a).Some? && Lookup(n, Stem(n) + b).Some? && Diverge(a, b)
  {
    var p := Stem(n);
    if n.Ext? {
      a, b := BranchKeys(n.child);
      assert (p + a)[|p|..] == a && (p + b)[|p|..] == b;
    } else {
      a, b := BranchKeys(n);
      assert p + a == a && p + b == b;
    }
  }

  lemma StartsWithStem(n: Node, k: Path)
    requires (n.Ext? || n.Branch?) && Lookup(n, k).Some?
    ensures Stem(n) <= k
  {
  }

  ghost predicate SameMap(a: Node, b: Node) {
    forall k: Path :: Lookup(a, k) == Lookup(b, k)
  }

  /** What two diverging continuations of `p` have in common lies within `p`. */
  lemma {:induction false} CommonStem(p: Path, x: Path, y: Path, q: Path)
    requires Diverge(x, y) && q <= p + x && q <= p + y
    ensures q <= p
  {
    if p == [] {
      assert p + x == x && p + y == y;
    } else if q != [] {
      assert (p + x)[1..] == p[1..] + x && (p + y)[1..] == p[1..] + y;
      CommonStem(p[1..], x, y, q[1..]);
    }
  }

  lemma ShorterStem(a: Node, b: Node)
    requires Proper(a) && Proper(b) && SameMap(a, b) && (a.Ext? || a.Branch?) && (b.Ext? || b.Branch?)
    ensures Stem(b) <= Stem(a)
  {
    var x, y := TwoKeys(a);
    var p, q := Stem(a), Stem(b);
    StartsWithStem(b, p + x);
    StartsWithStem(b, p + y);
    CommonStem(p, x, y, q);
  }

  /** A node with one key is no branching node. */
  lemma LeafIsNotBranching(a: Node, b: Node)
    requires a.Leaf? && Proper(b) && !b.Leaf?
    ensures !SameMap(a, b) && !SameMap(b, a)
  {
    var x, y := TwoKeys(b);
    var p := Stem(b);
    assert (p + x)[|p|..] == x && (p + y)[|p|..] == y;
    assert Lookup(a, p + x) != Lookup(b, p + x) || Lookup(a, p + y) != Lookup(b, p + y);
  }

  /** A node is no empty map. */
  lemma NodeIsNotNull(n: Node)
    requires Proper(n)
    ensures !SameMap(Null, n) && !SameMap(n, Null)
  {
    var k := SomeKey(n);
    assert Lookup(Null, k) != Lookup(n, k);
  }

  lemma SameSlots(a: Node, b: Node, i: Nibble)
    requires a.Branch? && b.Branch? && |a.children| == 16 && |b.children| == 16 && SameMap(a, b)
    ensures SameMap(a.children[i], b.children[i])
  {
    forall k: Path ensures Lookup(a.children[i], k) == Lookup(b.children[i], k) {
      var q: Path := [i] + k;
      assert q[1..] == k;
      assert Lookup(a, q) == Lookup(b, q);
    }
  }

  lemma SameBelow(a: Node, b: Node)
    requires a.Ext? && b.Ext? && a.path == b.path && SameMap(a, b)
    ensures SameMap(a.child, b.child)
  {
    forall k: Path ensures Lookup(a.child, k) == Lookup(b.child, k) {
      var q := a.path + k;
      assert q[|a.path|..] == k;
      assert Lookup(a, q) == Lookup(b, q);
    }
  }

  /** Only one canonical tree answers every lookup in a given way. */
  lemma {:induction false} CanonicalIsUnique(a: Node, b: Node)
    requires Canonical(a) && Canonical(b) && SameMap(a, b)
    ensures a == b
    decreases a
  {
    if a == Null {
      if b != Null { NodeIsNotNull(b); }
    } else if b == Null {
      NodeIsNotNull(a);
    } else if a.Leaf? != b.Leaf? {
      if a.Leaf? { LeafIsNotBranching(a, b); } else { LeafIsNotBranching(b, a); }
    } else if a.Leaf? {
      assert Lookup(a, a.path) == Lookup(b, a.path);
    } else {
      ShorterStem(a, b);
      ShorterStem(b, a);
      assert Stem(a) == Stem(b);
      if a.Ext? {
        SameBelow(a, b);
        CanonicalIsUnique(a.child, b.child);
      } else {
        assert Lookup(a, []) == Lookup(b, []);
        forall i: Nibble ensures a.children[i] == b.children[i] {
          SameSlots(a, b, i);
          CanonicalIsUnique(a.children[i], b.children[i]);
        }
        assert a.children == b.children;
      }
    }
  }

  // ----- the tree determines the map

  lemma {:induction false} LessAsymmetric(a: Path, b: Path)
    requires Less(a, b)
    ensures !Less(b, a)
  {
    if a != [] && a[0] == b[0] { LessAsymmetric(a[1..], b[1..]); }
  }

  lemma {:induction false} FindIndex(es: seq<Entry>, k: Path) returns (i: nat)
    requires Find(es, k).Some?
    ensures i < |es| && es[i] == Entry(k, Find(es, k).value)
  {
    if es[0].key == k {
      i := 0;
    } else {
      i := FindIndex(es[1..], k);
      i := i + 1;
    }
  }

  ghost predicate SameFinds(a: seq<Entry>, b: seq<Entry>) {
    forall k: Path :: Find(a, k) == Find(b, k)
  }

  lemma SameFirst(a: seq<Entry>, b: seq<Entry>)
    requires Sorted(a) && Sorted(b) && a != [] && b != [] && SameFinds(a, b)
    ensures a[0] == b[0] && SameFinds(a[1..], b[1..])
  {
    assert Find(a, a[0].key) == Find(b, a[0].key) && Find(a, b[0].key) == Find(b, b[0].key);
    var i := FindIndex(b, a[0].key);
    var j := FindIndex(a, b[0].key);
    if i > 0 && j > 0 {
      LessAsymmetric(b[0].key, b[i].key);
      assert false;
    }
    forall k: Path ensures Find(a[1..], k) == Find(b[1..], k) {
      assert Find(a, k) == Find(b, k);
      if k == a[0].key {
        LessIrreflexive(k);
        FindNone(a[1..], k);
        FindNone(b[1..], k);
      }
    }
  }

  lemma EmptyFindsNothing(es: seq<Entry>)
    requires es != []
    ensures !SameFinds([], es) && !SameFinds(es, [])
  {
    assert Find([], es[0].key) != Find(es, es[0].key);
  }

  lemma {:induction false} SortedIsUnique(a: seq<Entry>, b: seq<Entry>)
    requires Sorted(a) && Sorted(b) && SameFinds(a, b)
    ensures a == b
  {
    if a == [] {
      if b != [] { EmptyFindsNothing(b); }
    } else if b == [] {
      EmptyFindsNothing(a);
    } else {
      SameFirst(a, b);
      SortedIsUnique(a[1..], b[1..]);
      assert a == [a[0]] + a[1..] && b == [b[0]] + b[1..];
    }
  }

  /** Distinct maps give distinct trees. */
  lemma TreeDeterminesMap(a: seq<Entry>, b: seq<Entry>)
    requires Sorted(a) && Sorted(b) && HasValues(a) && HasValues(b)
    ensures Build(a) == Build(b) <==> a == b
  {
    if Build(a) == Build(b) {
      forall k: Path ensures Find(a, k) == Find(b, k) {
        LookupFinds(a, k);
        LookupFinds(b, k);
      }
      SortedIsUnique(a, b);
    }
  }
}
