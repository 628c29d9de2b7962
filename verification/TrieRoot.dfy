/** The tree as bytes and its root: nodes below 32 bytes stand in their parent, longer ones are
    replaced by their hash. The root commits to the map as far as the hash does. */
module TrieRoot {
  import opened BigEndian
  import opened Trie
  import opened Rlp
  import HexPrefix

  /** An uninterpreted hash of 32 bytes. */
  type Hasher = Bytes -> Bytes

  ghost predicate Wide(h: Hasher) {
    forall b :: |h(b)| == 32
  }

  function NodeItem(n: Node, h: Hasher): Item
    decreases n, 0
  {
    match n
    case Null => Data([])
    case Leaf(p, v) => List([Data(HexPrefix.Encoded(p, true)), Data(v)])
    case Ext(p, c) => List([Data(HexPrefix.Encoded(p, false)), Ref(c, h)])
    case Branch(cs, v) => List(seq(|cs|, i requires 0 <= i < |cs| => Ref(cs[i], h)) + [Data(v)])
  }

  /** How a parent mentions a node. */
  function Ref(n: Node, h: Hasher): Item
    decreases n, 1
  {
    var t := NodeItem(n, h);
    if |Encode(t)| < 32 then t else Data(h(Encode(t)))
  }

  function Bytes256(n: Node, h: Hasher): Bytes {
    Encode(NodeItem(n, h))
  }

  function Root(n: Node, h: Hasher): Bytes {
    h(Bytes256(n, h))
  }

  ghost predicate Within(x: Node, n: Node)
    decreases n
  {
    || x == n
    || (n.Ext? && Within(x, n.child))
    || (n.Branch? && exists i :: 0 <= i < |n.children| && Within(x, n.children[i]))
  }

  /** Every node has an encoding of admissible length. */
  ghost predicate Fits(n: Node, h: Hasher) {
    forall x :: Within(x, n) ==> |Bytes256(x, h)| < TOO_LONG
  }

  /** The hash separates the nodes of the two trees. */
  ghost predicate Separates(h: Hasher, a: Node, b: Node) {
    forall x, y :: Within(x, a) && Within(y, b) && Root(x, h) == Root(y, h) ==> Bytes256(x, h) == Bytes256(y, h)
  }

  // ----- the root commits to the tree

  lemma SameBytes(a: Node, b: Node, h: Hasher)
    requires Fits(a, h) && Fits(b, h) && Bytes256(a, h) == Bytes256(b, h)
    ensures NodeItem(a, h) == NodeItem(b, h)
  {
    assert Within(a, a) && Within(b, b);
    DecodeEncode(NodeItem(a, h));
    DecodeEncode(NodeItem(b, h));
  }

  /** A short node cannot be mistaken for a hash. */
  lemma SameRef(a: Node, b: Node, h: Hasher)
    requires Wide(h) && Fits(a, h) && Fits(b, h) && Separates(h, a, b) && Ref(a, h) == Ref(b, h)
    ensures NodeItem(a, h) == NodeItem(b, h)
  {
    hide Encode, Fits;
    assert Within(a, a) && Within(b, b);
    assert NodeItem(a, h) != Data(h(Bytes256(b, h))) && NodeItem(b, h) != Data(h(Bytes256(a, h)));
    if |Bytes256(a, h)| >= 32 {
      assert Root(a, h) == Root(b, h);
      SameBytes(a, b, h);
    }
  }

  lemma Below(a: Node, b: Node, c: Node, d: Node, h: Hasher)
    requires Fits(a, h) && Fits(b, h) && Separates(h, a, b)
    requires (a.Ext? && c == a.child) || (a.Branch? && c in a.children)
    requires (b.Ext? && d == b.child) || (b.Branch? && d in b.children)
    ensures Fits(c, h) && Fits(d, h) && Separates(h, c, d)
  {
    hide Bytes256, Root;
    forall x | Within(x, c) ensures Within(x, a) {}
    forall x | Within(x, d) ensures Within(x, b) {}
  }

  /** Canonical trees with the same top item are the same. */
  lemma {:induction false} ItemDeterminesNode(a: Node, b: Node, h: Hasher)
    requires Wide(h) && Canonical(a) && Canonical(b) && Fits(a, h) && Fits(b, h) && Separates(h, a, b)
    requires NodeItem(a, h) == NodeItem(b, h)
    ensures a == b
    decreases a
  {
    hide Fits, Separates, Bytes256, Ref, HexPrefix.Encoded;
    if a != Null && b != Null {
      var x, y := NodeItem(a, h).items, NodeItem(b, h).items;
      assert a.Branch? <==> |x| == 17;
      assert b.Branch? <==> |y| == 17;
      if a.Branch? {
        forall i: Nibble ensures a.children[i] == b.children[i] {
          assert x[i] == Ref(a.children[i], h) && y[i] == Ref(b.children[i], h);
          Below(a, b, a.children[i], b.children[i], h);
          SameRef(a.children[i], b.children[i], h);
          ItemDeterminesNode(a.children[i], b.children[i], h);
        }
        assert a.children == b.children;
        assert x[16] == Data(a.value) && y[16] == Data(b.value);
      } else {
        assert x[0] == Data(HexPrefix.Encoded(a.path, a.Leaf?)) && y[0] == Data(HexPrefix.Encoded(b.path, b.Leaf?));
        HexPrefix.EncodedIsInjective(a.path, a.Leaf?, b.path, b.Leaf?);
        assert x[1] == y[1];
        if a.Ext? {
          Below(a, b, a.child, b.child, h);
          SameRef(a.child, b.child, h);
          ItemDeterminesNode(a.child, b.child, h);
        }
      }
    }
  }

  /** Equal roots mean equal maps, unless the hash confuses two nodes of the two trees. */
  lemma RootCommits(a: seq<Entry>, b: seq<Entry>, h: Hasher)
    requires Sorted(a) && Sorted(b) && HasValues(a) && HasValues(b) && Wide(h)
    requires Fits(Build(a), h) && Fits(Build(b), h) && Separates(h, Build(a), Build(b))
    ensures Root(Build(a), h) == Root(Build(b), h) <==> a == b
  {
    var m, n := Build(a), Build(b);
    if Root(m, h) == Root(n, h) {
      assert Within(m, m) && Within(n, n);
      SameBytes(m, n, h);
      BuildIsCanonical(a);
      BuildIsCanonical(b);
      ItemDeterminesNode(m, n, h);
      TreeDeterminesMap(a, b);
    }
  }
}
