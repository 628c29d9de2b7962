/** Hex-prefix coding of nibble paths, Appendix C of the Ethereum Yellow Paper: the three encoders,
    the views that read a coded path back, and comparison of nibble views. */
module HexPrefix {
  import opened BigEndian
  import opened Trie

  /** Half byte `i` of a byte string, high half first. */
  function NibbleAt(data: Bytes, i: nat): Nibble
    requires i < 2 * |data|
  {
    if i % 2 == 1 then data[i / 2] % 16 else data[i / 2] / 16
  }

  function AsNibbles(data: Bytes): (p: Path)
    ensures |p| == 2 * |data|
  {
    if data == [] then [] else [data[0] / 16, data[0] % 16] + AsNibbles(data[1..])
  }

  function Join(high: Nibble, low: Nibble): Byte {
    (high as int) * 16 + low
  }

  /** Nibbles two to a byte; an odd one out stands in front of a zero. */
  function Pack(p: Path): (b: Bytes)
    ensures |b| == (|p| + 1) / 2
  {
    if p == [] then []
    else if |p| == 1 then [Join(p[0], 0)]
    else [Join(p[0], p[1])] + Pack(p[2..])
  }

  /** The flag nibble: two for a leaf, one for an odd path. */
  function Flag(leaf: bool, odd: bool): Nibble {
    (if leaf then 2 else 0) + (if odd then 1 else 0)
  }

  function Flags(leaf: bool, odd: bool): (p: Path)
    ensures |p| == if odd then 1 else 2
  {
    [Flag(leaf, odd)] + (if odd then [] else [0])
  }

  function Encoded(p: Path, leaf: bool): Bytes {
    Pack(Flags(leaf, |p| % 2 == 1) + p)
  }

  /** The leaf bit of a coded path. */
  predicate IsLeaf(b: Bytes) {
    b != [] && b[0] / 32 % 2 == 1
  }

  /** `keyOf`: the view behind the flags. */
  function KeyOf(b: Bytes): Path {
    if b == [] then []
    else if b[0] / 16 % 2 == 1 then AsNibbles(b)[1..]
    else AsNibbles(b)[2..]
  }

  // ----- reading back

  lemma {:induction false} NibbleOfNibbles(data: Bytes, i: nat)
    requires i < 2 * |data|
    ensures AsNibbles(data)[i] == NibbleAt(data, i)
  {
    if i >= 2 { NibbleOfNibbles(data[1..], i - 2); }
  }

  lemma {:induction false} UnpackPack(p: Path)
    requires |p| % 2 == 0
    ensures AsNibbles(Pack(p)) == p
  {
    if p != [] {
      UnpackPack(p[2..]);
      assert p == [p[0], p[1]] + p[2..];
      assert Pack(p)[1..] == Pack(p[2..]);
    }
  }

  lemma {:induction false} PackUnpack(b: Bytes)
    ensures Pack(AsNibbles(b)) == b
  {
    if b != [] {
      PackUnpack(b[1..]);
      assert AsNibbles(b)[2..] == AsNibbles(b[1..]);
      assert b == [b[0]] + b[1..];
    }
  }

  /** Decoding gives back the nibbles and the leaf flag. */
  lemma DecodeEncoded(p: Path, leaf: bool)
    ensures KeyOf(Encoded(p, leaf)) == p && IsLeaf(Encoded(p, leaf)) == leaf
  {
    var odd := |p| % 2 == 1;
    var ns := Flags(leaf, odd) + p;
    UnpackPack(ns);
    var b := Encoded(p, leaf);
    assert b[0] == Join(ns[0], ns[1]);
    assert ns[0] == Flag(leaf, odd);
    assert odd ==> ns[1..] == p;
    assert !odd ==> ns[1] == 0 && ns[2..] == p;
  }

  lemma EncodedIsInjective(p: Path, leaf: bool, q: Path, leaf': bool)
    ensures Encoded(p, leaf) == Encoded(q, leaf') <==> p == q && leaf == leaf'
  {
    DecodeEncoded(p, leaf);
    DecodeEncoded(q, leaf');
  }

  /** The codes are exactly the strings with two clear top bits whose padding, if any, is zero. */
  lemma EncodeDecoded(b: Bytes)
    requires b != []
    ensures Encoded(KeyOf(b), IsLeaf(b)) == b <==> b[0] < 64 && (b[0] / 16 % 2 == 0 ==> b[0] % 16 == 0)
  {
    var odd := b[0] / 16 % 2 == 1;
    var ns := AsNibbles(b);
    var k := KeyOf(b);
    assert |k| % 2 == (if odd then 1 else 0);
    PackUnpack(b);
    var ms := Flags(IsLeaf(b), odd) + k;
    assert ns[0] == b[0] / 16 && ns[1] == b[0] % 16;
    if b[0] < 64 && (!odd ==> b[0] % 16 == 0) {
      assert ns[0] == Flag(IsLeaf(b), odd);
      assert ns == ms;
    } else {
      UnpackPack(ms);
      assert ms[0] != ns[0] || ms[1] != ns[1];
    }
  }

  /** The code byte by byte: a first byte of 0x00 or 0x20 before an even path, of 0x10 or 0x30 and the first
      nibble of an odd one, then two nibbles to a byte, the earlier one high. */
  lemma EncodedForm(p: Path, leaf: bool)
    ensures var b, odd := Encoded(p, leaf), |p| % 2;
            && |b| == 1 + |p| / 2
            && b[0] == (if leaf then 0x20 else 0x00) + (if odd == 1 then 0x10 + p[0] as int else 0)
            && forall i :: 1 <= i < |b| ==> b[i] == p[2 * i - 2 + odd] as int * 16 + p[2 * i - 1 + odd] as int
  {
    hide Encoded;
    EncodedHead(p, leaf);
    var b, odd := Encoded(p, leaf), |p| % 2;
    forall i | 1 <= i < |b| ensures b[i] == p[2 * i - 2 + odd] as int * 16 + p[2 * i - 1 + odd] as int {
      EncodedAt(p, leaf, i);
    }
  }

  lemma EncodedHead(p: Path, leaf: bool)
    ensures |Encoded(p, leaf)| == 1 + |p| / 2
    ensures Encoded(p, leaf)[0] == (if leaf then 0x20 else 0x00) + (if |p| % 2 == 1 then 0x10 + p[0] as int else 0)
  {
    hide Pack;
    var ns := Flags(leaf, |p| % 2 == 1) + p;
    PackAt(ns, 0);
    if |p| % 2 == 1 { assert ns[1] == p[0]; } else { assert ns[1] == 0; }
  }

  lemma EncodedAt(p: Path, leaf: bool, i: nat)
    requires 1 <= i < 1 + |p| / 2
    ensures var odd := |p| % 2;
            && |Encoded(p, leaf)| == 1 + |p| / 2
            && Encoded(p, leaf)[i] == p[2 * i - 2 + odd] as int * 16 + p[2 * i - 1 + odd] as int
  {
    hide Pack;
    var odd := |p| % 2;
    var ns := Flags(leaf, odd == 1) + p;
    PackAt(ns, i);
    assert ns[2 * i] == p[2 * i - 2 + odd] && ns[2 * i + 1] == p[2 * i - 1 + odd];
  }

  lemma {:induction false} PackAt(p: Path, i: nat)
    requires |p| % 2 == 0 && 2 * i < |p|
    ensures Pack(p)[i] == Join(p[2 * i], p[2 * i + 1])
    decreases i
  {
    if i > 0 { PackAt(p[2..], i - 1); }
  }

  // ----- the encoders

  /** Or a nibble into a byte whose low half is clear. */
  function OrNibble(b: Byte, n: Nibble): Byte
    requires b % 16 == 0
  {
    b + n
  }

  lemma {:induction false} PackAppend(p: Path, n: Nibble)
    ensures |p| % 2 == 0 ==> Pack(p + [n]) == Pack(p) + [Join(n, 0)]
    ensures |p| % 2 == 1 ==>
              var b, last := Pack(p), |Pack(p)| - 1;
              b[last] % 16 == 0 && Pack(p + [n]) == b[last := OrNibble(b[last], n)]
  {
    if |p| >= 2 {
      PackAppend(p[2..], n);
      assert (p + [n])[2..] == p[2..] + [n];
    } else if |p| == 1 {
      assert (p + [n])[2..] == [];
    }
  }

  lemma {:induction false} PackPair(p: Path, a: Nibble, b: Nibble)
    requires |p| % 2 == 0
    ensures Pack(p + [a, b]) == Pack(p) + [Join(a, b)]
  {
    if p == [] {
      assert p + [a, b] == [a, b] && [a, b][2..] == [];
    } else {
      PackPair(p[2..], a, b);
      assert (p + [a, b])[2..] == p[2..] + [a, b];
    }
  }

  /** A negative end counts from behind, minus one being the size. */
  function EndOf(size: nat, end: int): int {
    if end < 0 then size + 1 + end else end
  }

  /** The first form: a vector of nibbles, taken in pairs. */
  method EncodeVector(hex: Path, leaf: bool, begin: nat, end: int) returns (ret: Bytes)
    requires begin <= EndOf(|hex|, end) <= |hex|
    ensures end < 0 ==> ret == Encoded(hex[begin..|hex| + 1 + end], leaf)
    ensures end >= 0 ==> ret == Encoded(hex[begin..end], leaf)
  {
    ret := EncodeUpTo(hex, leaf, begin, if end < 0 then |hex| + 1 + end else end);
  }

  method EncodeUpTo(hex: Path, leaf: bool, begin: nat, e: nat) returns (ret: Bytes)
    requires begin <= e <= |hex|
    ensures ret == Encoded(hex[begin..e], leaf)
  {
    hide Pack, Flags;
    var odd := (e - begin) % 2 != 0;
    ret := [Join(Flag(leaf, odd), 0)];
    PackFlags(leaf, odd);
    ghost var f := Flags(leaf, odd);
    if odd {
      PackAppend(f, hex[begin]);
      ret := ret[0 := OrNibble(ret[0], hex[begin])];
      ret := PutPairs(ret, hex, begin + 1, e, f + [hex[begin]]);
      assert f + [hex[begin]] + hex[begin + 1..e] == f + hex[begin..e];
    } else {
      ret := PutPairs(ret, hex, begin, e, f);
    }
  }

  /** The pairs of nibbles from `b` to `e` behind those written. */
  method PutPairs(bytes: Bytes, hex: Path, b: nat, e: nat, ghost f: Path) returns (ret: Bytes)
    requires b <= e <= |hex| && (e - b) % 2 == 0 && |f| % 2 == 0 && bytes == Pack(f)
    ensures ret == Pack(f + hex[b..e])
  {
    hide Pack, Join;
    ret := bytes;
    var i := b;
    assert f + hex[b..i] == f;
    while i < e
      invariant b <= i <= e && (e - i) % 2 == 0
      invariant ret == Pack(f + hex[b..i])
    {
      PackPair(f + hex[b..i], hex[i], hex[i + 1]);
      TwoMore(f, hex, b, i);
      ret := ret + [Join(hex[i], hex[i + 1])];
      i := i + 2;
    }
  }

  lemma PackFlags(leaf: bool, odd: bool)
    ensures Pack(Flags(leaf, odd)) == [Join(Flag(leaf, odd), 0)]
  {
    if !odd { assert Flags(leaf, odd)[2..] == []; }
  }

  lemma OneMore(f: Path, p: Path, b: nat, i: nat)
    requires b <= i < |p|
    ensures f + p[b..i] + [p[i]] == f + p[b..i + 1]
  {
  }

  lemma TwoMore(f: Path, p: Path, b: nat, i: nat)
    requires b <= i < |p| - 1
    ensures f + p[b..i] + [p[i], p[i + 1]] == f + p[b..i + 2]
  {
  }

  /** One turn of the nibble loops: `d` counts the nibbles written, flags included. */
  method PutNibble(b: Bytes, d: nat, n: Nibble, ghost ns: Path) returns (ret: Bytes)
    requires b == Pack(ns) && d % 2 == |ns| % 2 && ns != []
    ensures ret == Pack(ns + [n])
  {
    PackAppend(ns, n);
    if d % 2 == 1 {
      ret := b[|b| - 1 := OrNibble(b[|b| - 1], n)];
    } else {
      ret := b + [Join(n, 0)];
    }
  }

  /** Append half bytes `begin` to `end` of `data`. */
  method PutNibbles(b: Bytes, d: nat, data: Bytes, begin: nat, end: nat, ghost ns: Path) returns (ret: Bytes, d': nat)
    requires b == Pack(ns) && d % 2 == |ns| % 2 && ns != [] && begin <= end <= 2 * |data|
    ensures ret == Pack(ns + AsNibbles(data)[begin..end]) && d' == d + (end - begin)
  {
    hide Pack, AsNibbles, NibbleAt;
    ret, d' := b, d;
    ghost var all := AsNibbles(data);
    assert ns + all[begin..begin] == ns;
    for i := begin to end
      invariant ret == Pack(ns + all[begin..i]) && d' == d + (i - begin)
    {
      NibbleOfNibbles(data, i);
      ret := PutNibble(ret, d', NibbleAt(data, i), ns + all[begin..i]);
      d' := d' + 1;
      OneMore(ns, all, begin, i);
    }
  }

  method Start(leaf: bool, odd: bool) returns (ret: Bytes, d: nat)
    ensures ret == Pack(Flags(leaf, odd)) && d == |Flags(leaf, odd)|
  {
    ret := [Join(Flag(leaf, odd), 0)];
    d := if odd then 1 else 2;
    PackFlags(leaf, odd);
  }

  /** The second form: half bytes of a byte string, counted from `offset`. */
  method EncodeBytes(data: Bytes, leaf: bool, beginNibble: nat, endNibble: int, offset: nat) returns (ret: Bytes)
    requires offset <= 2 * |data|
    requires beginNibble <= EndOf(2 * |data| - offset, endNibble) <= 2 * |data| - offset
    ensures endNibble < 0 ==>
              ret == Encoded(AsNibbles(data)[offset..][beginNibble..2 * |data| - offset + 1 + endNibble], leaf)
    ensures endNibble >= 0 ==> ret == Encoded(AsNibbles(data)[offset..][beginNibble..endNibble], leaf)
  {
    hide Pack, Flags, AsNibbles;
    var begin := beginNibble + offset;
    var end := EndOf(2 * |data| - offset, endNibble) + offset;
    var odd := (end - begin) % 2 == 1;
    var d;
    ret, d := Start(leaf, odd);
    ret, d := PutNibbles(ret, d, data, begin, end, Flags(leaf, odd));
    assert AsNibbles(data)[begin..end] == AsNibbles(data)[offset..][beginNibble..end - offset];
  }

  /** The third form: one view continued by another. */
  method EncodeTwo(d1: Bytes, o1: nat, d2: Bytes, o2: nat, leaf: bool) returns (ret: Bytes)
    requires o1 <= 2 * |d1| && o2 <= 2 * |d2|
    ensures ret == Encoded(AsNibbles(d1)[o1..] + AsNibbles(d2)[o2..], leaf)
  {
    hide Pack, Flags, AsNibbles;
    var odd := (2 * |d1| - o1 + 2 * |d2| - o2) % 2 == 1;
    var d;
    ret, d := Start(leaf, odd);
    ghost var f, p, q := Flags(leaf, odd), AsNibbles(d1)[o1..], AsNibbles(d2)[o2..];
    assert AsNibbles(d1)[o1..2 * |d1|] == p && AsNibbles(d2)[o2..2 * |d2|] == q;
    ret, d := PutNibbles(ret, d, d1, o1, 2 * |d1|, f);
    ret, d := PutNibbles(ret, d, d2, o2, 2 * |d2|, f + p);
    assert f + p + q == f + (p + q);
  }

  // ----- comparing views

  /** The half bytes from `begin` to `end`, none if the bounds cross. */
  function Slice(data: Bytes, begin: nat, end: nat): Path
    requires end <= 2 * |data|
  {
    if begin < end then AsNibbles(data)[begin..end] else []
  }

  /** `sharedNibbles`: the length of the longest common prefix. */
  method SharedNibbles(first: Bytes, b1: nat, e1: nat, second: Bytes, b2: nat, e2: nat) returns (ret: nat)
    requires e1 <= 2 * |first| && e2 <= 2 * |second|
    ensures ret == CommonPrefix(Slice(first, b1, e1), Slice(second, b2, e2))
  {
    ret := 0;
    var i: nat, j: nat := b1, b2;
    while i < e1 && j < e2 && NibbleAt(first, i) == NibbleAt(second, j)
      invariant ret + CommonPrefix(Slice(first, i, e1), Slice(second, j, e2)) ==
                CommonPrefix(Slice(first, b1, e1), Slice(second, b2, e2))
      decreases e1 - i
    {
      SliceStep(first, i, e1);
      SliceStep(second, j, e2);
      i, j, ret := i + 1, j + 1, ret + 1;
    }
    if i < e1 && j < e2 {
      SliceStep(first, i, e1);
      SliceStep(second, j, e2);
    }
  }

  lemma SliceStep(data: Bytes, i: nat, e: nat)
    requires i < e <= 2 * |data|
    ensures Slice(data, i, e) == [NibbleAt(data, i)] + Slice(data, i + 1, e)
  {
    NibbleOfNibbles(data, i);
  }

  /** A byte string seen from half byte `offset` on. */
  datatype View = View(data: Bytes, offset: nat) {
    predicate Valid() { offset <= 2 * |data| }

    function Size(): nat
      requires Valid()
    {
      2 * |data| - offset
    }

    /** The nibbles from index `i` on. */
    function From(i: nat): Path
      requires Valid()
    {
      Slice(data, offset + i, 2 * |data|)
    }
  }

  /** `contains`: prefixes are recognised by how much is shared. */
  method Contains(v: View, k: View) returns (r: bool)
    requires v.Valid() && k.Valid()
    ensures r <==> k.From(0) <= v.From(0)
  {
    var n := SharedNibbles(v.data, v.offset, v.offset + v.Size(), k.data, k.offset, k.offset + k.Size());
    r := n == k.Size();
    PrefixShared(v.From(0), k.From(0));
  }

  lemma {:induction false} PrefixShared(p: Path, q: Path)
    ensures CommonPrefix(p, q) == |q| <==> q <= p
  {
    if p != [] && q != [] && p[0] == q[0] { PrefixShared(p[1..], q[1..]); }
  }

  lemma LessStep(v: View, k: View, i: nat)
    requires v.Valid() && k.Valid() && i < v.Size() && i < k.Size()
    ensures var x, y := NibbleAt(v.data, v.offset + i), NibbleAt(k.data, k.offset + i);
            Less(v.From(i), k.From(i)) <==> x < y || (x == y && Less(v.From(i + 1), k.From(i + 1)))
  {
    hide AsNibbles, NibbleAt, Slice;
    SliceStep(v.data, v.offset + i, 2 * |v.data|);
    SliceStep(k.data, k.offset + i, 2 * |k.data|);
    var p, q := v.From(i), k.From(i);
    assert p[1..] == v.From(i + 1) && q[1..] == k.From(i + 1);
  }

  lemma LessAtEnd(v: View, k: View, i: nat)
    requires v.Valid() && k.Valid() && (i == v.Size() <= k.Size() || i == k.Size() <= v.Size())
    ensures Less(v.From(i), k.From(i)) <==> i < k.Size()
  {
    if i < k.Size() { SliceStep(k.data, k.offset + i, 2 * |k.data|); }
  }

  /** `isEarlierThan` is the lexicographic order. */
  method IsEarlierThan(v: View, k: View) returns (r: bool)
    requires v.Valid() && k.Valid()
    ensures r <==> Less(v.From(0), k.From(0))
  {
    hide NibbleAt, Less, View.From;
    var i := 0;
    while i < k.Size() && i < v.Size()
      invariant i <= k.Size() && i <= v.Size()
      invariant Less(v.From(i), k.From(i)) <==> Less(v.From(0), k.From(0))
    {
      LessStep(v, k, i);
      if NibbleAt(v.data, v.offset + i) < NibbleAt(k.data, k.offset + i) { return true; }
      if NibbleAt(v.data, v.offset + i) > NibbleAt(k.data, k.offset + i) { return false; }
      i := i + 1;
    }
    LessAtEnd(v, k, i);
    if i >= k.Size() { return false; }
    return true;
  }
}
