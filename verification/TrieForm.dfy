/** Nodes as Appendix D of the Ethereum Yellow Paper writes them: how a parent mentions a node, and a reader
    that finds its way back from the bytes to the tree when it can look hashes up. */
module TrieForm {
  import opened BigEndian
  import opened Wrappers
  import opened Trie
  import opened Rlp
  import opened TrieRoot
  import HexPrefix
  import RlpForm

  /** A node is mentioned by at most 33 bytes: by its own if there are fewer than 32, else by a string of 32. */
  lemma RefForm(n: Node, h: Hasher)
    requires Wide(h)
    ensures |Encode(Ref(n, h))| <= 33
    ensures |Encode(Ref(n, h))| == 33 <==> |Bytes256(n, h)| >= 32
    ensures |Bytes256(n, h)| <= 31 ==> Encode(Ref(n, h)) == Bytes256(n, h)
    ensures |Bytes256(n, h)| >= 32 ==> Encode(Ref(n, h)) == [0xa0] + h(Bytes256(n, h))
  {
    hide NodeItem, EncodeData;
    RlpForm.ShortData(h(Bytes256(n, h)));
  }

  // ----- reading a tree back

  /** What is known about hashes: the bytes they stand for. */
  type Lookup256 = Bytes -> Option<Bytes>

  /** The node an item spells out, looking no deeper than `depth`. */
  function ReadNode(t: Item, store: Lookup256, depth: nat): Option<Node>
    decreases depth, 1
  {
    if depth == 0 then None
    else if t == Data([]) then Some(Null)
    else if t.Data? then None
    else if |t.items| == 17 && t.items[16].Data? then
      match ReadAll(t.items[..16], store, depth - 1) {
        case None => None
        case Some(cs) => Some(Branch(cs, t.items[16].bytes))
      }
    else if |t.items| == 2 && t.items[0].Data? && t.items[0].bytes != [] then
      var head := t.items[0].bytes;
      if head[0] / 32 == 1 then
        if t.items[1].Data? then Some(Leaf(HexPrefix.KeyOf(head), t.items[1].bytes)) else None
      else
        match ReadRef(t.items[1], store, depth - 1) {
          case None => None
          case Some(c) => Some(Ext(HexPrefix.KeyOf(head), c))
        }
    else None
  }

  /** A string of 32 bytes is a hash to look up; anything else stands for itself. */
  function ReadRef(t: Item, store: Lookup256, depth: nat): Option<Node>
    decreases depth, 2
  {
    if t.Data? && |t.bytes| == 32 then
      match store(t.bytes) {
        case None => None
        case Some(b) =>
          match Decode(b) {
            case Err(_) => None
            case Ok(u) => ReadNode(u, store, depth)
          }
      }
    else ReadNode(t, store, depth)
  }

  function ReadAll(ts: seq<Item>, store: Lookup256, depth: nat): Option<seq<Node>>
    decreases depth, 3, |ts|
  {
    if ts == [] then Some([]) else
    match ReadAll(ts[..|ts| - 1], store, depth) {
      case None => None
      case Some(cs) =>
        match ReadRef(ts[|ts| - 1], store, depth) {
          case None => None
          case Some(c) => Some(cs + [c])
        }
    }
  }

  function Depth(n: Node): nat
    decreases n, 0
  {
    match n
    case Ext(_, c) => 1 + Depth(c)
    case Branch(cs, _) => 1 + DepthAll(cs)
    case _ => 1
  }

  function DepthAll(cs: seq<Node>): nat
    decreases cs, 1
  {
    if cs == [] then 0 else Max(Depth(cs[0]), DepthAll(cs[1..]))
  }

  lemma {:induction false} DepthBounds(cs: seq<Node>, i: nat)
    requires i < |cs|
    ensures Depth(cs[i]) <= DepthAll(cs)
  {
    if i > 0 { DepthBounds(cs[1..], i - 1); }
  }

  /** The store knows the nodes of the tree. */
  ghost predicate Stores(store: Lookup256, n: Node, h: Hasher) {
    forall x :: Within(x, n) ==> store(h(Bytes256(x, h))) == Some(Bytes256(x, h))
  }

  lemma StoresBelow(store: Lookup256, n: Node, c: Node, h: Hasher)
    requires Stores(store, n, h) && Fits(n, h) && ((n.Ext? && c == n.child) || (n.Branch? && c in n.children))
    ensures Stores(store, c, h) && Fits(c, h)
  {
    hide Bytes256;
    forall x | Within(x, c) ensures Within(x, n) {}
  }

  /** Every canonical tree is read back from what is written for it. */
  lemma {:induction false} ReadsBack(n: Node, h: Hasher, store: Lookup256, depth: nat)
    requires Canonical(n) && Wide(h) && Fits(n, h) && Stores(store, n, h) && Depth(n) <= depth
    ensures ReadNode(NodeItem(n, h), store, depth) == Some(n)
    decreases n, 0
  {
    hide Fits, Stores, Bytes256, Ref, HexPrefix.Encoded, HexPrefix.KeyOf, Encode;
    match n
    case Null =>
    case Leaf(p, _) => HeadOfPath(p, true);
    case Ext(p, c) =>
      HeadOfPath(p, false);
      StoresBelow(store, n, c, h);
      RefReadsBack(c, h, store, depth - 1);
    case Branch(cs, v) =>
      var ts := NodeItem(n, h).items;
      assert ts[16] == Data(v);
      forall i | 0 <= i < 16 ensures ReadRef(ts[..16][i], store, depth - 1) == Some(cs[i]) {
        StoresBelow(store, n, cs[i], h);
        DepthBounds(cs, i);
        RefReadsBack(cs[i], h, store, depth - 1);
      }
      AllReadBack(ts[..16], cs, store, depth - 1);
  }

  lemma HeadOfPath(p: Path, leaf: bool)
    ensures var b := HexPrefix.Encoded(p, leaf);
            b != [] && (b[0] / 32 == 1 <==> leaf) && HexPrefix.KeyOf(b) == p
  {
    HexPrefix.DecodeEncoded(p, leaf);
    HexPrefix.EncodedForm(p, leaf);
  }

  lemma {:induction false} RefReadsBack(n: Node, h: Hasher, store: Lookup256, depth: nat)
    requires Canonical(n) && Wide(h) && Fits(n, h) && Stores(store, n, h) && Depth(n) <= depth
    ensures ReadRef(Ref(n, h), store, depth) == Some(n)
    decreases n, 1
  {
    hide NodeItem, Encode, ReadNode, Depth;
    assert Within(n, n);
    ReadsBack(n, h, store, depth);
    DecodeEncode(NodeItem(n, h));
    NotAHash(n, h);
  }

  lemma NotAHash(n: Node, h: Hasher)
    ensures NodeItem(n, h).Data? ==> NodeItem(n, h).bytes == []
  {
  }

  lemma {:induction false} AllReadBack(ts: seq<Item>, cs: seq<Node>, store: Lookup256, depth: nat)
    requires |ts| == |cs| && forall i :: 0 <= i < |ts| ==> ReadRef(ts[i], store, depth) == Some(cs[i])
    ensures ReadAll(ts, store, depth) == Some(cs)
    decreases |ts|
  {
    hide ReadRef;
    if ts != [] {
      var m := |ts| - 1;
      AllReadBack(ts[..m], cs[..m], store, depth);
      assert cs == cs[..m] + [cs[m]];
    }
  }

  /** Whoever knows the nodes finds, from the root alone, every entry of the map. */
  lemma RootReadsBack(es: seq<Entry>, h: Hasher, store: Lookup256, k: Path)
    requires Sorted(es) && HasValues(es) && Wide(h)
    requires Fits(Build(es), h) && Stores(store, Build(es), h)
    ensures var n := ReadRef(Data(Root(Build(es), h)), store, Depth(Build(es)));
            n.Some? && Lookup(n.value, k) == Find(es, k)
  {
    hide NodeItem, Encode, ReadNode, Depth, Lookup, Find, Build;
    var n := Build(es);
    assert Within(n, n);
    BuildIsCanonical(es);
    ReadsBack(n, h, store, Depth(n));
    DecodeEncode(NodeItem(n, h));
    LookupFinds(es, k);
  }
}
