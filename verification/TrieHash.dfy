/** The construction of the tree over an ordered map, written straight into an RLP stream. */
module TrieHash {
  import opened BigEndian
  import opened Wrappers
  import opened Trie
  import opened Rlp
  import opened RlpStream
  import opened TrieRoot
  import HexPrefix

  const UINT_MAX := 0xFFFF_FFFF
  const INT_MAX := 0x7FFF_FFFF

  /** All keys start with the same `pre` nibbles. Lengths fit an `int`, to which the source casts them. */
  ghost predicate Range(es: seq<Entry>, pre: nat) {
    && Sorted(es)
    && forall i :: 0 <= i < |es| ==>
         pre <= |es[i].key| <= INT_MAX && pre <= |es[0].key| && es[i].key[..pre] == es[0].key[..pre]
  }

  // ----- the shared prefix

  lemma {:induction false} SharedWithAppend(k: Path, es: seq<Entry>, e: Entry)
    ensures SharedWith(k, es + [e]) == Min(SharedWith(k, es), CommonPrefix(k, e.key))
  {
    if es == [] {
      assert es + [e] == [e] && [e][1..] == [];
    } else {
      SharedWithAppend(k, es[1..], e);
      assert (es + [e])[1..] == es[1..] + [e];
    }
  }

  lemma {:induction false} SharedWithPrefix(k: Path, es: seq<Entry>, i: nat)
    requires i <= |es|
    ensures SharedWith(k, es) <= SharedWith(k, es[..i])
  {
    if i > 0 {
      assert es[..i][1..] == es[1..][..i - 1];
      SharedWithPrefix(k, es[1..], i - 1);
    }
  }

  lemma AgreeStep(a: Path, b: Path, i: nat)
    requires i < |a| && i < |b| && a[i] == b[i]
    ensures CommonPrefix(a[i..], b[i..]) == 1 + CommonPrefix(a[i + 1..], b[i + 1..])
  {
    assert a[i..][1..] == a[i + 1..] && b[i..][1..] == b[i + 1..];
  }

  /** Walk along two keys from `pre` up to `x` while they agree. */
  method Agreement(a: Path, b: Path, pre: nat, x: nat) returns (shared: nat)
    requires pre <= x <= |a| && x <= |b|
    ensures shared == Min(x, pre + CommonPrefix(a[pre..], b[pre..]))
  {
    hide CommonPrefix;
    shared := pre;
    while shared < x && a[shared] == b[shared]
      invariant pre <= shared <= x
      invariant shared + CommonPrefix(a[shared..], b[shared..]) == pre + CommonPrefix(a[pre..], b[pre..])
    {
      AgreeStep(a, b, shared);
      shared := shared + 1;
    }
  }

  /** The number of nibbles the first key shares with each other key, stopping early at zero. */
  method SharedPrefix(es: seq<Entry>, pre: nat) returns (sharedPre: nat)
    requires Range(es, pre) && |es| > 1
    ensures sharedPre == pre + Shared(Strip(es, pre))
  {
    hide Sorted, CommonPrefix, SharedWith;
    sharedPre := SharedFrom(es, pre, Strip(es, pre));
  }

  method SharedFrom(es: seq<Entry>, pre: nat, ghost r: seq<Entry>) returns (sharedPre: nat)
    requires |r| == |es| > 1
    requires forall i :: 0 <= i < |es| ==> pre <= |es[i].key| <= INT_MAX && r[i].key == es[i].key[pre..]
    ensures sharedPre == pre + SharedWith(r[0].key, r[1..])
  {
    hide CommonPrefix, SharedWith;
    ghost var k := r[0].key;
    sharedPre := UINT_MAX;
    var i := 1;
    while i < |es| && sharedPre > 0
      invariant 1 <= i <= |es|
      invariant i == 1 ==> sharedPre == UINT_MAX
      invariant i > 1 ==> sharedPre == pre + SharedWith(k, r[1..i])
    {
      var x := Min(sharedPre, Min(|es[0].key|, |es[i].key|));
      var shared := Agreement(es[0].key, es[i].key, pre, x);
      SharedStep(k, r, i);
      sharedPre := Min(shared, sharedPre);
      i := i + 1;
    }
    assert r[1..][..i - 1] == r[1..i];
    SharedWithPrefix(k, r[1..], i - 1);
    assert i == |es| ==> r[1..i] == r[1..];
  }

  /** One more entry; the first one alone shares all of the key with nothing yet seen. */
  lemma SharedStep(k: Path, r: seq<Entry>, i: nat)
    requires 1 <= i < |r|
    ensures SharedWith(k, r[1..i + 1]) ==
            if i == 1 then CommonPrefix(k, r[i].key) else Min(SharedWith(k, r[1..i]), CommonPrefix(k, r[i].key))
  {
    SharedWithAppend(k, r[1..i], r[i]);
    assert r[1..i] + [r[i]] == r[1..i + 1];
    if i == 1 { assert r[1..1] == []; }
  }

  // ----- groups are runs

  lemma EntriesAssoc(a: seq<Entry>, b: seq<Entry>, c: seq<Entry>)
    ensures a + b + c == a + (b + c)
  {
  }

  lemma {:induction false} GroupAppend(a: seq<Entry>, b: seq<Entry>, x: Nibble)
    ensures Group(a + b, x) == Group(a, x) + Group(b, x)
  {
    hide Size;
    if a == [] {
      assert a + b == b;
    } else {
      GroupAppend(a[1..], b, x);
      assert (a + b)[1..] == a[1..] + b;
      var first: Entry := Entry(if a[0].key == [] then [] else a[0].key[1..], a[0].value);
      EntriesAssoc([first], Group(a[1..], x), Group(b, x));
    }
  }

  lemma {:induction false} GroupNone(a: seq<Entry>, x: Nibble)
    requires forall i :: 0 <= i < |a| ==> a[i].key == [] || a[i].key[0] != x
    ensures Group(a, x) == []
  {
    if a != [] { GroupNone(a[1..], x); }
  }

  lemma {:induction false} GroupAll(a: seq<Entry>, x: Nibble)
    requires forall i :: 0 <= i < |a| ==> a[i].key != [] && a[i].key[0] == x
    ensures Group(a, x) == Strip(a, 1)
  {
    if a != [] { GroupAll(a[1..], x); }
  }

  lemma RunIsGroup(r: seq<Entry>, b: nat, n: nat, x: Nibble)
    requires b <= n <= |r|
    requires forall i :: 0 <= i < b || n <= i < |r| ==> r[i].key == [] || r[i].key[0] != x
    requires forall i :: b <= i < n ==> r[i].key != [] && r[i].key[0] == x
    ensures Group(r, x) == Strip(r[b..n], 1)
  {
    hide Group, Size;
    assert r == r[..b] + (r[b..n] + r[n..]);
    GroupAppend(r[..b], r[b..n] + r[n..], x);
    GroupAppend(r[b..n], r[n..], x);
    GroupNone(r[..b], x);
    GroupAll(r[b..n], x);
    GroupNone(r[n..], x);
  }

  lemma StripTwice(es: seq<Entry>, b: nat, n: nat, pre: nat)
    requires b <= n <= |es| && forall i :: 0 <= i < |es| ==> pre <= |es[i].key|
    requires forall i :: b <= i < n ==> pre < |es[i].key|
    ensures Strip(Strip(es, pre)[b..n], 1) == Strip(es[b..n], pre + 1)
  {
  }

  lemma StripMore(es: seq<Entry>, pre: nat, n: nat)
    requires forall i :: 0 <= i < |es| ==> pre + n <= |es[i].key|
    ensures Strip(Strip(es, pre), n) == Strip(es, pre + n)
  {
  }

  /** Past the first entry every key goes on, and the next nibbles ascend. */
  lemma NextNibbles(es: seq<Entry>, pre: nat, i: nat, j: nat)
    requires Range(es, pre) && i < j < |es|
    ensures |es[j].key| > pre && (|es[i].key| > pre ==> es[i].key[pre] <= es[j].key[pre])
  {
    LessStrip(es[i].key, es[j].key, pre);
  }

  /** Entries before `b` are done with once the next nibble reaches `x`. */
  ghost predicate Cut(es: seq<Entry>, pre: nat, b: nat, x: nat) {
    && b <= |es|
    && (forall i :: 0 <= i < b ==> |es[i].key| == pre || (|es[i].key| > pre && es[i].key[pre] < x))
    && (forall i :: b <= i < |es| ==> |es[i].key| > pre && es[i].key[pre] >= x)
  }

  /** Scan over the entries that go on with `x`. */
  method FindRun(es: seq<Entry>, pre: nat, b: nat, x: Nibble) returns (n: nat)
    requires Range(es, pre) && Cut(es, pre, b, x)
    ensures b <= n && Cut(es, pre, n, x + 1)
    ensures Range(es[b..n], pre + 1)
    ensures Group(Strip(es, pre), x) == Strip(es[b..n], pre + 1)
  {
    n := b;
    while n < |es| && es[n].key[pre] == x
      invariant b <= n <= |es|
      invariant forall i :: b <= i < n ==> es[i].key[pre] == x
    {
      n := n + 1;
    }
    RunCut(es, pre, b, n, x);
    RunGroup(es, pre, b, n, x);
    RunRange(es, pre, b, n, x);
  }

  lemma RunCut(es: seq<Entry>, pre: nat, b: nat, n: nat, x: Nibble)
    requires Range(es, pre) && Cut(es, pre, b, x) && b <= n <= |es|
    requires forall i :: b <= i < n ==> es[i].key[pre] == x
    requires n < |es| ==> es[n].key[pre] != x
    ensures Cut(es, pre, n, x + 1)
  {
    hide Sorted;
    forall i | n < i < |es| ensures es[i].key[pre] > x { NextNibbles(es, pre, n, i); }
  }

  lemma RunGroup(es: seq<Entry>, pre: nat, b: nat, n: nat, x: Nibble)
    requires Range(es, pre) && Cut(es, pre, b, x) && Cut(es, pre, n, x + 1) && b <= n
    requires forall i :: b <= i < n ==> es[i].key[pre] == x
    ensures Group(Strip(es, pre), x) == Strip(es[b..n], pre + 1)
  {
    hide Group, Size, Sorted;
    RunIsGroup(Strip(es, pre), b, n, x);
    StripTwice(es, b, n, pre);
  }

  lemma RunRange(es: seq<Entry>, pre: nat, b: nat, n: nat, x: Nibble)
    requires Range(es, pre) && Cut(es, pre, b, x) && b <= n <= |es|
    requires forall i :: b <= i < n ==> es[i].key[pre] == x
    ensures Range(es[b..n], pre + 1)
  {
    forall i | b <= i < n ensures es[i].key[..pre + 1] == es[0].key[..pre] + [x] {
      assert es[i].key[..pre + 1] == es[i].key[..pre] + [es[i].key[pre]];
    }
  }

  // ----- writing the tree

  lemma {:induction false} PartsFit(ts: seq<Item>, i: nat)
    requires i < |ts|
    ensures |Encode(ts[i])| <= |EncodeAll(ts)|
  {
    if i > 0 { PartsFit(ts[1..], i - 1); }
  }

  lemma DataFits(b: Bytes)
    ensures |b| <= |EncodeData(b)|
  {
  }

  /** The items of an admissible list, and the strings among them, are admissible. */
  lemma ListFits(ts: seq<Item>)
    requires |Encode(List(ts))| < TOO_LONG
    ensures |EncodeAll(ts)| < TOO_LONG
    ensures forall i :: 0 <= i < |ts| ==> |Encode(ts[i])| < TOO_LONG && (ts[i].Data? ==> |ts[i].bytes| < TOO_LONG)
  {
    forall i | 0 <= i < |ts| ensures |Encode(ts[i])| < TOO_LONG && (ts[i].Data? ==> |ts[i].bytes| < TOO_LONG) {
      PartsFit(ts, i);
      if ts[i].Data? { DataFits(ts[i].bytes); }
    }
  }

  /** Two items written one after the other. */
  lemma DriveTwo(s: Stream, a: Item, b: Item)
    requires Valid(s)
    ensures DriveAll(s, [a, b]) == if Drive(s, a).Written? then Drive(Drive(s, a).s, b) else Drive(s, a)
  {
    assert [a, b][1..] == [b] && [b][1..] == [];
    var o := Drive(s, a);
    if o.Written? { assert DriveAll(o.s, [b]) == Drive(o.s, b); }
  }

  method WriteNode(es: seq<Entry>, pre: nat, w: Writer, h: Hasher) returns (ok: bool)
    requires Range(es, pre) && Valid(w.Abs()) && Fits(Build(Strip(es, pre)), h) && Wide(h)
    modifies w
    ensures w.Became(ok, Push(old(w.Abs()), Bytes256(Build(Strip(es, pre)), h), 1))
    decreases Size(Strip(es, pre)), 2
  {
    if es == [] {
      ok := w.Append([], false);
    } else if |es| == 1 {
      ok := WriteLeaf(es, pre, w, h);
    } else {
      var sharedPre := SharedPrefix(es, pre);
      if sharedPre > pre {
        ok := WriteExtension(es, pre, sharedPre, w, h);
      } else {
        ok := WriteBranch(es, pre, w, h);
      }
    }
  }

  method WriteLeaf(es: seq<Entry>, pre: nat, w: Writer, h: Hasher) returns (ok: bool)
    requires Range(es, pre) && |es| == 1 && Valid(w.Abs()) && Fits(Build(Strip(es, pre)), h)
    modifies w
    ensures w.Became(ok, Push(old(w.Abs()), Bytes256(Build(Strip(es, pre)), h), 1))
  {
    hide Push, Encode, HexPrefix.Encoded;
    ghost var n := Build(Strip(es, pre));
    assert Within(n, n);
    ghost var x, y := Data(HexPrefix.Encoded(es[0].key[pre..], true)), Data(es[0].value);
    assert NodeItem(n, h) == List([x, y]);
    assert es[0].key[pre..|es[0].key|] == es[0].key[pre..];
    ListFits([x, y]);
    assert |Encode([x, y][0])| < TOO_LONG && |Encode([x, y][1])| < TOO_LONG;
    StreamingRefinesRecursion(w.Abs(), List([x, y]));
    ok := w.AppendList(2);
    DriveTwo(w.Abs(), x, y);
    var hp := HexPrefix.EncodeVector(es[0].key, true, pre, -1);
    ok := w.Append(hp, false);
    if !ok { return; }
    ok := w.Append(es[0].value, false);
  }

  lemma ChildFits(n: Node, h: Hasher)
    requires n.Ext? && Fits(n, h)
    ensures |Bytes256(n, h)| < TOO_LONG && Fits(n.child, h)
  {
    hide Bytes256;
    assert Within(n, n);
    forall x | Within(x, n.child) ensures Within(x, n) {}
  }

  lemma Product(a: nat, b: nat, n: nat)
    requires a < b && n > 0
    ensures a * n < b * n
  {
  }

  lemma StripShrinks(es: seq<Entry>, pre: nat, sharedPre: nat)
    requires es != [] && pre < sharedPre && forall i :: 0 <= i < |es| ==> sharedPre <= |es[i].key|
    ensures Size(Strip(es, sharedPre)) < Size(Strip(es, pre))
  {
    hide Size, Strip;
    Product(pre, sharedPre, |es|);
  }

  /** What an extension consists of. */
  lemma ExtensionNode(es: seq<Entry>, pre: nat, sharedPre: nat)
    requires Range(es, pre) && |es| > 1
    requires sharedPre == pre + Shared(Strip(es, pre)) && sharedPre > pre
    ensures Range(es, sharedPre)
    ensures Build(Strip(es, pre)) == Ext(es[0].key[pre..sharedPre], Build(Strip(es, sharedPre)))
    ensures Size(Strip(es, sharedPre)) < Size(Strip(es, pre))
  {
    hide Sorted, Shared, Size, Strip, Group;
    Deeper(es, pre, sharedPre);
    StripMore(es, pre, sharedPre - pre);
    StripShrinks(es, pre, sharedPre);
    assert Strip(es, pre)[0].key[..sharedPre - pre] == es[0].key[pre..sharedPre];
  }

  method WriteExtension(es: seq<Entry>, pre: nat, sharedPre: nat, w: Writer, h: Hasher) returns (ok: bool)
    requires Range(es, pre) && |es| > 1 && Valid(w.Abs()) && Fits(Build(Strip(es, pre)), h) && Wide(h)
    requires sharedPre == pre + Shared(Strip(es, pre)) && sharedPre > pre
    modifies w
    ensures w.Became(ok, Push(old(w.Abs()), Bytes256(Build(Strip(es, pre)), h), 1))
    decreases Size(Strip(es, pre)), 1
  {
    hide Push, Encode, HexPrefix.Encoded, Build, Size, NodeItem, Ref, Fits, Sorted, Shared;
    ExtensionNode(es, pre, sharedPre);
    ChildFits(Build(Strip(es, pre)), h);
    ExtensionItem(es[0].key[pre..sharedPre], Build(Strip(es, sharedPre)), h);
    ghost var x, y := Data(HexPrefix.Encoded(es[0].key[pre..sharedPre], false)), Ref(Build(Strip(es, sharedPre)), h);
    ListFits([x, y]);
    assert |Encode([x, y][0])| < TOO_LONG && |Encode([x, y][1])| < TOO_LONG;
    StreamingRefinesRecursion(w.Abs(), List([x, y]));
    ok := w.AppendList(2);
    DriveTwo(w.Abs(), x, y);
    Bounds(es, pre, sharedPre);
    var hp := HexPrefix.EncodeVector(es[0].key, false, pre, sharedPre);
    ok := w.Append(hp, false);
    if !ok { return; }
    StreamingRefinesRecursion(w.Abs(), y);
    ok := WriteRef(es, sharedPre, w, h);
  }

  lemma ExtensionItem(p: Path, c: Node, h: Hasher)
    ensures NodeItem(Ext(p, c), h) == List([Data(HexPrefix.Encoded(p, false)), Ref(c, h)])
  {
  }

  lemma Bounds(es: seq<Entry>, pre: nat, sharedPre: nat)
    requires Range(es, pre) && Range(es, sharedPre) && es != [] && pre <= sharedPre
    ensures HexPrefix.EndOf(|es[0].key|, sharedPre) == sharedPre <= |es[0].key|
  {
  }

  lemma TwoPieces(k: Path, pre: nat, n: nat)
    requires pre + n <= |k|
    ensures k[..pre + n] == k[..pre] + k[pre..][..n]
  {
  }

  /** All keys also agree on the nibbles they share. */
  lemma Deeper(es: seq<Entry>, pre: nat, sharedPre: nat)
    requires Range(es, pre) && |es| > 1 && sharedPre == pre + Shared(Strip(es, pre))
    ensures Range(es, sharedPre)
  {
    hide Sorted, SharedWith, Size;
    var r := Strip(es, pre);
    forall i | 0 <= i < |es| ensures sharedPre <= |es[i].key| && es[i].key[..sharedPre] == es[0].key[..sharedPre] {
      TwoPieces(es[i].key, pre, sharedPre - pre);
      TwoPieces(es[0].key, pre, sharedPre - pre);
      assert r[i].key == es[i].key[pre..] && r[0].key == es[0].key[pre..];
    }
  }

  /** What a branch consists of. */
  lemma BranchItems(es: seq<Entry>, pre: nat, h: Hasher)
    requires Range(es, pre) && |es| > 1 && Fits(Build(Strip(es, pre)), h) && Shared(Strip(es, pre)) == 0
    ensures var r := Strip(es, pre);
            var t := NodeItem(Build(r), h);
            && t.List? && |t.items| == 17 && |Bytes256(Build(r), h)| < TOO_LONG
            && (forall i: Nibble :: t.items[i] == Ref(Build(Group(r, i)), h))
            && t.items[16] == Data(if pre == |es[0].key| then es[0].value else [])
  {
    hide Ref, Group;
    var n := Build(Strip(es, pre));
    assert Within(n, n);
  }

  lemma SlotFits(r: seq<Entry>, i: Nibble, h: Hasher)
    requires |r| > 1 && Fits(Build(r), h) && Shared(r) == 0
    ensures Fits(Build(Group(r, i)), h)
  {
    hide Bytes256, Group;
    var n := Build(r);
    assert n.children[i] == Build(Group(r, i));
    forall x | Within(x, n.children[i]) ensures Within(x, n) {}
  }

  /** The first slot starts behind the entry that ends here. */
  lemma FirstCut(es: seq<Entry>, pre: nat)
    requires Range(es, pre) && |es| > 1
    ensures Cut(es, pre, if pre == |es[0].key| then 1 else 0, 0)
  {
    forall i | 0 < i < |es| ensures |es[i].key| > pre { NextNibbles(es, pre, 0, i); }
  }

  method WriteBranch(es: seq<Entry>, pre: nat, w: Writer, h: Hasher) returns (ok: bool)
    requires Range(es, pre) && |es| > 1 && Valid(w.Abs()) && Fits(Build(Strip(es, pre)), h) && Wide(h)
    requires Shared(Strip(es, pre)) == 0
    modifies w
    ensures w.Became(ok, Push(old(w.Abs()), Bytes256(Build(Strip(es, pre)), h), 1))
    decreases Size(Strip(es, pre)), 1
  {
    hide Push, Encode, Size, Group, Build, NodeItem, Ref, Fits, Sorted, Shared, Drive, Cut;
    BranchItems(es, pre, h);
    ghost var r := Strip(es, pre);
    ghost var items := NodeItem(Build(r), h).items;
    ListFits(items);
    StreamingRefinesRecursion(w.Abs(), List(items));
    ok := w.AppendList(17);
    StartOfList(old(w.Abs()), items);
    assert items[0..] == items;
    var b := 0;
    if pre == |es[0].key| { b := 1; }
    FirstCut(es, pre);
    for i := 0 to 16
      invariant Valid(w.Abs()) && Cut(es, pre, b, i)
      invariant DriveAll(w.Abs(), items[i..]) == Push(old(w.Abs()), Bytes256(Build(r), h), 1)
    {
      DriveNext(w.Abs(), items, i);
      SlotFits(r, i, h);
      b, ok := WriteSlot(es, pre, b, i, w, h);
      if !ok { return; }
    }
    DriveNext(w.Abs(), items, 16);
    DataItem(items[16].bytes);
    if pre == |es[0].key| {
      ok := w.Append(es[0].value, false);
    } else {
      ok := w.Append([], false);
    }
  }

  lemma DataItem(b: Bytes)
    ensures Encode(Data(b)) == EncodeData(b)
  {
  }

  lemma StartOfList(s: Stream, items: seq<Item>)
    requires Valid(s) && items != []
    ensures Drive(s, List(items)) == DriveAll(Stream(s.out, s.stack + [Open(|items|, |s.out|)]), items)
  {
  }

  /** The next of several items. */
  lemma DriveNext(s: Stream, items: seq<Item>, i: nat)
    requires Valid(s) && i < |items| && |Encode(items[i])| < TOO_LONG
    ensures var o := Push(s, Encode(items[i]), 1);
            DriveAll(s, items[i..]) == if o.Written? then DriveAll(o.s, items[i + 1..]) else o
    ensures forall s' | Valid(s') :: DriveAll(s', items[|items|..]) == Written(s')
  {
    StreamingRefinesRecursion(s, items[i]);
    assert items[i..][0] == items[i] && items[i..][1..] == items[i + 1..];
  }

  /** One slot of a branch: nothing, or the node of the entries going on with `i`. */
  method WriteSlot(es: seq<Entry>, pre: nat, b: nat, i: Nibble, w: Writer, h: Hasher) returns (n: nat, ok: bool)
    requires Range(es, pre) && |es| > 1 && Valid(w.Abs()) && Wide(h) && Cut(es, pre, b, i)
    requires Fits(Build(Group(Strip(es, pre), i)), h)
    modifies w
    ensures Cut(es, pre, n, i + 1)
    ensures w.Became(ok, Push(old(w.Abs()), Encode(Ref(Build(Group(Strip(es, pre), i)), h)), 1))
    decreases Size(Strip(es, pre)), 0
  {
    hide Push, Size, Sorted, Cut, Group, Fits;
    n := FindRun(es, pre, b, i);
    if b == n {
      ok := w.Append([], false);
    } else {
      ok := WriteRef(es[b..n], pre + 1, w, h);
    }
  }

  /** A node in its parent: its bytes if there are few of them, else their hash. */
  method WriteRef(es: seq<Entry>, pre: nat, w: Writer, h: Hasher) returns (ok: bool)
    requires Range(es, pre) && Valid(w.Abs()) && Fits(Build(Strip(es, pre)), h) && Wide(h)
    modifies w
    ensures w.Became(ok, Push(old(w.Abs()), Encode(Ref(Build(Strip(es, pre)), h)), 1))
    decreases Size(Strip(es, pre)), 3
  {
    var rlp := new Writer();
    var done := WriteNode(es, pre, rlp, h);
    assert done && rlp.out == Bytes256(Build(Strip(es, pre)), h);
    if |rlp.out| < 32 {
      ok := w.AppendRaw(rlp.out, 1);
    } else {
      ok := w.Append(h(rlp.out), false);
    }
  }
}
