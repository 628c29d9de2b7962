/** Tries over byte-string maps, and over lists keyed by their encoded indices. */
module OrderedTrie {
  import opened BigEndian
  import opened Wrappers
  import opened Trie
  import opened Rlp
  import opened RlpStream
  import opened TrieRoot
  import opened TrieHash
  import HexPrefix

  // ----- the ordered map

  /** Assignment in an ordered map. */
  function Put(es: seq<Entry>, k: Path, v: Bytes): seq<Entry> {
    if es == [] then [Entry(k, v)]
    else if es[0].key == k then [Entry(k, v)] + es[1..]
    else if Less(k, es[0].key) then [Entry(k, v)] + es
    else [es[0]] + Put(es[1..], k, v)
  }

  lemma {:induction false} PutFinds(es: seq<Entry>, k: Path, v: Bytes, q: Path)
    ensures Find(Put(es, k, v), q) == if q == k then Some(v) else Find(es, q)
  {
    if es == [] {
      assert [Entry(k, v)][1..] == [];
    } else if es[0].key == k {
      assert ([Entry(k, v)] + es[1..])[1..] == es[1..];
    } else if Less(k, es[0].key) {
      assert ([Entry(k, v)] + es)[1..] == es;
    } else {
      PutFinds(es[1..], k, v, q);
      assert ([es[0]] + Put(es[1..], k, v))[1..] == Put(es[1..], k, v);
    }
  }

  lemma {:induction false} LessTotal(a: Path, b: Path)
    ensures a == b || Less(a, b) || Less(b, a)
  {
    if a != [] && b != [] {
      LessTotal(a[1..], b[1..]);
      assert a == [a[0]] + a[1..] && b == [b[0]] + b[1..];
    }
  }

  lemma {:induction false} LessTransitive(a: Path, b: Path, c: Path)
    requires Less(a, b) && Less(b, c)
    ensures Less(a, c)
  {
    if a != [] && a[0] == b[0] == c[0] { LessTransitive(a[1..], b[1..], c[1..]); }
  }

  /** What precedes the old entries and the new key precedes the result. */
  lemma {:induction false} PutBehind(es: seq<Entry>, k: Path, v: Bytes, a: Path)
    requires Less(a, k) && forall i :: 0 <= i < |es| ==> Less(a, es[i].key)
    ensures forall i :: 0 <= i < |Put(es, k, v)| ==> Less(a, Put(es, k, v)[i].key)
  {
    if es != [] && es[0].key != k && !Less(k, es[0].key) { PutBehind(es[1..], k, v, a); }
  }

  lemma {:induction false} PutSorted(es: seq<Entry>, k: Path, v: Bytes)
    requires Sorted(es)
    ensures Sorted(Put(es, k, v))
  {
    if es != [] && es[0].key != k {
      if Less(k, es[0].key) {
        forall i | 0 <= i < |es| ensures Less(k, es[i].key) {
          if i > 0 { LessTransitive(k, es[0].key, es[i].key); }
        }
      } else {
        LessTotal(k, es[0].key);
        PutSorted(es[1..], k, v);
        PutBehind(es[1..], k, v, es[0].key);
      }
    }
  }

  /** The value a nibble path is to have: whole-byte paths stand for their bytes. */
  function Wanted(m: map<Bytes, Bytes>, k: Path): Option<Bytes> {
    if |k| % 2 == 0 && HexPrefix.Pack(k) in m then Some(m[HexPrefix.Pack(k)]) else None
  }

  /** The ordered nibble map of a byte-string map. */
  ghost predicate Represents(es: seq<Entry>, m: map<Bytes, Bytes>) {
    Sorted(es) && forall k: Path :: Find(es, k) == Wanted(m, k)
  }

  lemma RepresentsOnce(a: seq<Entry>, b: seq<Entry>, m: map<Bytes, Bytes>)
    requires Represents(a, m) && Represents(b, m)
    ensures a == b
  {
    SortedIsUnique(a, b);
  }

  lemma PutRepresents(es: seq<Entry>, m: map<Bytes, Bytes>, b: Bytes, v: Bytes)
    requires Represents(es, m)
    ensures Represents(Put(es, HexPrefix.AsNibbles(b), v), m[b := v])
  {
    hide Put, HexPrefix.AsNibbles, HexPrefix.Pack, Find, Sorted;
    var k := HexPrefix.AsNibbles(b);
    PutSorted(es, k, v);
    HexPrefix.PackUnpack(b);
    forall q: Path ensures Find(Put(es, k, v), q) == Wanted(m[b := v], q) {
      PutFinds(es, k, v, q);
      if |q| % 2 == 0 { HexPrefix.UnpackPack(q); }
    }
  }

  /** The entries are the map's, key for key. */
  lemma EntriesOf(es: seq<Entry>, m: map<Bytes, Bytes>, i: nat)
    requires Represents(es, m) && i < |es|
    ensures |es[i].key| % 2 == 0 && HexPrefix.Pack(es[i].key) in m && es[i].value == m[HexPrefix.Pack(es[i].key)]
  {
    FindSome(es, i);
    assert Find(es, es[i].key) == Wanted(m, es[i].key);
  }

  /** Keys short enough for the size arithmetic of the construction. */
  ghost predicate ShortKeys(m: map<Bytes, Bytes>) {
    forall b :: b in m ==> 2 * |b| <= INT_MAX
  }

  lemma WholeRange(es: seq<Entry>, m: map<Bytes, Bytes>)
    requires Represents(es, m) && ShortKeys(m)
    ensures Range(es, 0) && Strip(es, 0) == es
  {
    forall i | 0 <= i < |es| ensures |es[i].key| <= INT_MAX { EntriesOf(es, m, i); }
    forall i | 0 <= i < |es| ensures Strip(es, 0)[i] == es[i] {
      assert es[i].key[0..] == es[i].key;
    }
  }

  /** The nibble map is filled one entry after the other, in whatever order. */
  method HexMap(m: map<Bytes, Bytes>) returns (es: seq<Entry>)
    ensures Represents(es, m)
  {
    es := [];
    var left := m.Keys;
    ghost var done: map<Bytes, Bytes> := map[];
    while left != {}
      invariant left <= m.Keys && done.Keys == m.Keys - left && (forall b :: b in done ==> done[b] == m[b])
      invariant Represents(es, done)
      decreases |left|
    {
      var b :| b in left;
      PutRepresents(es, done, b, m[b]);
      es := Put(es, HexPrefix.AsNibbles(b), m[b]);
      done := done[b := m[b]];
      left := left - {b};
    }
    assert done == m;
  }

  /** Every map has its nibble map. */
  lemma {:induction false} Representation(m: map<Bytes, Bytes>) returns (es: seq<Entry>)
    ensures Represents(es, m)
    decreases |m|
  {
    if m == map[] {
      es := [];
    } else {
      var b :| b in m;
      var rest := m - {b};
      var fs := Representation(rest);
      PutRepresents(fs, rest, b, m[b]);
      assert rest[b := m[b]] == m;
      es := Put(fs, HexPrefix.AsNibbles(b), m[b]);
    }
  }

  /** The tree over the nibble map of `m`. */
  ghost function TreeOf(m: map<Bytes, Bytes>): (n: Node)
    ensures exists es :: Represents(es, m) && n == Build(es)
  {
    assert exists es :: Represents(es, m) by { var es := Representation(m); }
    var es :| Represents(es, m);
    Build(es)
  }

  lemma TreeIs(es: seq<Entry>, m: map<Bytes, Bytes>)
    requires Represents(es, m)
    ensures TreeOf(m) == Build(es)
  {
    var fs :| Represents(fs, m) && TreeOf(m) == Build(fs);
    RepresentsOnce(es, fs, m);
  }

  /** `rlp256`: the bytes of the top node. */
  method Rlp256(m: map<Bytes, Bytes>, h: Hasher) returns (out: Bytes)
    requires ShortKeys(m) && Wide(h) && Fits(TreeOf(m), h)
    ensures out == Bytes256(TreeOf(m), h)
  {
    hide Represents, TreeOf, Fits;
    if m == map[] {
      NoEntries();
      out := EncodeData([]);
      return;
    }
    var s := HexMap(m);
    TreeIs(s, m);
    WholeRange(s, m);
    var w := new Writer();
    var ok := WriteNode(s, 0, w, h);
    out := w.out;
    assert [] + Bytes256(Build(s), h) == Bytes256(Build(s), h);
  }

  lemma NoEntries()
    ensures TreeOf(map[]) == Null
  {
    TreeIs([], map[]);
  }

  lemma SameMapOfEntries(es: seq<Entry>, m: map<Bytes, Bytes>, n: map<Bytes, Bytes>)
    requires Represents(es, m) && Represents(es, n)
    ensures m == n
  {
    forall b: Bytes ensures (b in m <==> b in n) && (b in m ==> m[b] == n[b]) {
      var k := HexPrefix.AsNibbles(b);
      HexPrefix.PackUnpack(b);
      assert Find(es, k) == Wanted(m, k) && Find(es, k) == Wanted(n, k);
    }
    assert m.Keys == n.Keys;
  }

  ghost predicate Filled(m: map<Bytes, Bytes>) {
    forall b :: b in m ==> m[b] != []
  }

  lemma EntriesHaveValues(es: seq<Entry>, m: map<Bytes, Bytes>)
    requires Represents(es, m) && Filled(m)
    ensures HasValues(es)
  {
    forall j | 0 <= j < |es| ensures es[j].value != [] { EntriesOf(es, m, j); }
  }

  /** For every map with non-empty values, the tree answers exactly as the map does. */
  lemma MapLookup(m: map<Bytes, Bytes>, b: Bytes)
    requires Filled(m)
    ensures Lookup(TreeOf(m), HexPrefix.AsNibbles(b)) == if b in m then Some(m[b]) else None
  {
    hide TreeOf, HexPrefix.AsNibbles, HexPrefix.Pack, Find, Lookup, Build;
    var es := Representation(m);
    TreeIs(es, m);
    EntriesHaveValues(es, m);
    LookupFinds(es, HexPrefix.AsNibbles(b));
    FindsWanted(es, m, b);
  }

  lemma FindsWanted(es: seq<Entry>, m: map<Bytes, Bytes>, b: Bytes)
    requires Represents(es, m)
    ensures Find(es, HexPrefix.AsNibbles(b)) == if b in m then Some(m[b]) else None
  {
    hide HexPrefix.AsNibbles, HexPrefix.Pack, Find, Sorted;
    var k := HexPrefix.AsNibbles(b);
    HexPrefix.PackUnpack(b);
    assert Find(es, k) == Wanted(m, k);
    assert |k| % 2 == 0 && HexPrefix.Pack(k) == b;
  }

  /** Equal roots mean equal maps, as far as the hash separates their nodes. */
  lemma MapRootCommits(m: map<Bytes, Bytes>, n: map<Bytes, Bytes>, h: Hasher)
    requires Filled(m) && Filled(n) && Wide(h)
    requires Fits(TreeOf(m), h) && Fits(TreeOf(n), h) && Separates(h, TreeOf(m), TreeOf(n))
    ensures Root(TreeOf(m), h) == Root(TreeOf(n), h) <==> m == n
  {
    hide Fits, Separates, TreeOf;
    var es := Representation(m);
    var fs := Representation(n);
    TreeIs(es, m);
    TreeIs(fs, n);
    EntriesHaveValues(es, m);
    EntriesHaveValues(fs, n);
    RootCommits(es, fs, h);
    if es == fs { SameMapOfEntries(es, m, n); }
  }

  // ----- lists

  /** The list as a map from encoded index to element. */
  function OrderedMap(data: seq<Bytes>): map<Bytes, Bytes> {
    if data == [] then map[] else
    var n := |data| - 1;
    OrderedMap(data[..n])[EncodeInt(n) := data[n]]
  }

  lemma SmallIndex(n: nat)
    requires n <= UINT_MAX
    ensures |ToBE(n)| <= 8 && |EncodeInt(n)| <= 9
  {
    LengthBytes(n);
  }

  lemma IndexIsUnique(i: nat, j: nat)
    requires i <= UINT_MAX && j <= UINT_MAX && EncodeInt(i) == EncodeInt(j)
    ensures i == j
  {
    SmallIndex(i);
    SmallIndex(j);
    IntRoundTrip(i);
    IntRoundTrip(j);
  }

  lemma {:induction false} OrderedMapAt(data: seq<Bytes>, i: nat)
    requires i < |data| <= UINT_MAX
    ensures EncodeInt(i) in OrderedMap(data) && OrderedMap(data)[EncodeInt(i)] == data[i]
  {
    hide EncodeInt;
    var n := |data| - 1;
    if i < n {
      OrderedMapAt(data[..n], i);
      if EncodeInt(i) == EncodeInt(n) { IndexIsUnique(i, n); }
    }
  }

  lemma {:induction false} OrderedMapKeys(data: seq<Bytes>, b: Bytes) returns (i: nat)
    requires b in OrderedMap(data)
    ensures i < |data| && b == EncodeInt(i)
  {
    hide EncodeInt;
    var n := |data| - 1;
    i := n;
    if b != EncodeInt(n) { i := OrderedMapKeys(data[..n], b); }
  }

  lemma OrderedKeysShort(data: seq<Bytes>)
    requires |data| <= UINT_MAX
    ensures ShortKeys(OrderedMap(data))
  {
    hide EncodeInt, OrderedMap;
    forall b | b in OrderedMap(data) ensures 2 * |b| <= INT_MAX {
      var i := OrderedMapKeys(data, b);
      SmallIndex(i);
    }
  }

  /** `orderedTrieRoot`. */
  method OrderedTrieRoot(data: seq<Bytes>, h: Hasher) returns (root: Bytes)
    requires |data| <= UINT_MAX && Wide(h) && Fits(TreeOf(OrderedMap(data)), h)
    ensures root == Root(TreeOf(OrderedMap(data)), h)
  {
    hide TreeOf, Fits;
    var m: map<Bytes, Bytes> := map[];
    for j := 0 to |data|
      invariant m == OrderedMap(data[..j])
    {
      m := m[EncodeInt(j) := data[j]];
      assert data[..j + 1][..j] == data[..j];
    }
    assert data[..|data|] == data;
    OrderedKeysShort(data);
    var out := Rlp256(m, h);
    root := h(out);
  }

  lemma SameLength(a: seq<Bytes>, b: seq<Bytes>)
    requires |a| <= UINT_MAX && |b| <= UINT_MAX && OrderedMap(a) == OrderedMap(b)
    ensures |b| <= |a|
  {
    hide EncodeInt, OrderedMap;
    if b != [] {
      OrderedMapAt(b, |b| - 1);
      var i := OrderedMapKeys(a, EncodeInt(|b| - 1));
      IndexIsUnique(i, |b| - 1);
    }
  }

  lemma OrderedMapInjective(a: seq<Bytes>, b: seq<Bytes>)
    requires |a| <= UINT_MAX && |b| <= UINT_MAX && OrderedMap(a) == OrderedMap(b)
    ensures a == b
  {
    hide EncodeInt, OrderedMap;
    SameLength(a, b);
    SameLength(b, a);
    forall i | 0 <= i < |a| ensures a[i] == b[i] {
      OrderedMapAt(a, i);
      OrderedMapAt(b, i);
    }
  }

  lemma OrderedHasValues(data: seq<Bytes>)
    requires |data| <= UINT_MAX && forall i :: 0 <= i < |data| ==> data[i] != []
    ensures Filled(OrderedMap(data))
  {
    hide EncodeInt, OrderedMap;
    forall b | b in OrderedMap(data) ensures OrderedMap(data)[b] != [] {
      var i := OrderedMapKeys(data, b);
      OrderedMapAt(data, i);
    }
  }

  /** Every element is found under its encoded index, and nothing under any other byte string. */
  lemma OrderedLookup(data: seq<Bytes>, b: Bytes)
    requires |data| <= UINT_MAX && forall j :: 0 <= j < |data| ==> data[j] != []
    ensures var found := Lookup(TreeOf(OrderedMap(data)), HexPrefix.AsNibbles(b));
            && (forall i :: 0 <= i < |data| && b == EncodeInt(i) ==> found == Some(data[i]))
            && (found.Some? ==> exists i :: 0 <= i < |data| && b == EncodeInt(i))
  {
    hide EncodeInt, OrderedMap, TreeOf, HexPrefix.AsNibbles;
    OrderedHasValues(data);
    MapLookup(OrderedMap(data), b);
    forall i | 0 <= i < |data| && b == EncodeInt(i) ensures b in OrderedMap(data) && OrderedMap(data)[b] == data[i] {
      OrderedMapAt(data, i);
    }
    if b in OrderedMap(data) { var i := OrderedMapKeys(data, b); }
  }

  /** Equal ordered roots mean equal lists, as far as the hash separates their nodes. */
  lemma OrderedRootCommits(a: seq<Bytes>, b: seq<Bytes>, h: Hasher)
    requires |a| <= UINT_MAX && |b| <= UINT_MAX && Wide(h)
    requires (forall i :: 0 <= i < |a| ==> a[i] != []) && (forall i :: 0 <= i < |b| ==> b[i] != [])
    requires Fits(TreeOf(OrderedMap(a)), h) && Fits(TreeOf(OrderedMap(b)), h)
    requires Separates(h, TreeOf(OrderedMap(a)), TreeOf(OrderedMap(b)))
    ensures Root(TreeOf(OrderedMap(a)), h) == Root(TreeOf(OrderedMap(b)), h) <==> a == b
  {
    hide OrderedMap, Fits, Separates, TreeOf;
    OrderedHasValues(a);
    OrderedHasValues(b);
    MapRootCommits(OrderedMap(a), OrderedMap(b), h);
    if OrderedMap(a) == OrderedMap(b) { OrderedMapInjective(a, b); }
  }
}
