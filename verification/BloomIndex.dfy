/** The two-level index of block blooms: every upper entry stands for sixteen lower ones. */
module BloomIndex {

  /** A bloom filter as the set of its bits: `|=` is union, `contains` is inclusion. */
  type Bloom = set<nat>

  const INDEX_SIZE := 16
  const INDEX_LEVELS := 2
  const TOP_SIZE := 256
  const WORD := 0x1_0000_0000

  datatype Index = Index(low: map<nat, Bloom>, high: map<nat, Bloom>)

  /** Entries that were never written are zero. */
  function Get(m: map<nat, Bloom>, i: nat): Bloom {
    if i in m then m[i] else {}
  }

  /** Each upper entry is the union of its sixteen lower ones. */
  ghost predicate Coherent(x: Index) {
    forall j: nat, bit: nat :: bit in Get(x.high, j) <==> InChunk(x.low, j, bit)
  }

  ghost predicate InChunk(low: map<nat, Bloom>, j: nat, bit: nat) {
    exists n: nat :: n / INDEX_SIZE == j && bit in Get(low, n)
  }

  function Add(x: Index, n: nat, b: Bloom): Index {
    Index(x.low[n := Get(x.low, n) + b], x.high[n / INDEX_SIZE := Get(x.high, n / INDEX_SIZE) + b])
  }

  /** A block's bits are added to one lower and one upper entry; nothing is taken away. */
  lemma AddForm(x: Index, n: nat, b: Bloom, i: nat)
    ensures Get(Add(x, n, b).low, i) == if i == n then Get(x.low, i) + b else Get(x.low, i)
    ensures Get(Add(x, n, b).high, i) == if 16 * i <= n < 16 * i + 16 then Get(x.high, i) + b else Get(x.high, i)
  {
  }

  /** Coherence in full: entry `j` above is the union of the sixteen entries from `16 * j` on. */
  lemma CoherentForm(x: Index, j: nat, bit: nat)
    requires Coherent(x)
    ensures bit in Get(x.high, j) <==> exists n: nat :: 16 * j <= n < 16 * j + 16 && bit in Get(x.low, n)
  {
    assert bit in Get(x.high, j) <==> InChunk(x.low, j, bit);
    if n: nat :| 16 * j <= n < 16 * j + 16 && bit in Get(x.low, n) { assert n / INDEX_SIZE == j; }
  }

  lemma AddCoherent(x: Index, n: nat, b: Bloom)
    requires Coherent(x)
    ensures Coherent(Add(x, n, b))
  {
    var y := Add(x, n, b);
    forall j: nat, bit: nat ensures bit in Get(y.high, j) <==> InChunk(y.low, j, bit) {
      assert bit in Get(x.high, j) <==> InChunk(x.low, j, bit);
      if InChunk(x.low, j, bit) {
        var k: nat :| k / INDEX_SIZE == j && bit in Get(x.low, k);
        assert bit in Get(y.low, k);
      }
      if j == n / INDEX_SIZE && bit in b { assert bit in Get(y.low, n); }
      if InChunk(y.low, j, bit) {
        var k: nat :| k / INDEX_SIZE == j && bit in Get(y.low, k);
        assert bit in Get(x.low, k) || (k == n && bit in b);
      }
    }
  }

  /** A cleared range of lower entries, with the upper entries above it rebuilt. */
  ghost predicate Cleared(x: Index, y: Index, begin: nat, end: nat) {
    && Coherent(y)
    && forall n: nat :: Get(y.low, n) == if begin <= n < end then {} else Get(x.low, n)
  }

  /** The index of a chain: block `n` at entry `n`, nothing anywhere else. */
  ghost predicate Represents(x: Index, chain: seq<Bloom>) {
    Coherent(x) && forall n: nat :: Get(x.low, n) == if 1 <= n <= |chain| then chain[n - 1] else {}
  }

  ghost predicate Same(x: Index, y: Index) {
    forall i: nat :: Get(x.low, i) == Get(y.low, i) && Get(x.high, i) == Get(y.high, i)
  }

  /** A chain has one index. */
  lemma OneIndex(x: Index, y: Index, chain: seq<Bloom>)
    requires Represents(x, chain) && Represents(y, chain)
    ensures Same(x, y)
  {
    forall j: nat ensures Get(x.high, j) == Get(y.high, j) {
      forall bit: nat ensures bit in Get(x.high, j) <==> bit in Get(y.high, j) {
        assert InChunk(x.low, j, bit) <==> InChunk(y.low, j, bit) by {
          assert forall n: nat :: Get(x.low, n) == Get(y.low, n);
        }
      }
    }
  }

  function AddAll(x: Index, first: nat, bs: seq<Bloom>): Index
    decreases |bs|
  {
    if bs == [] then x else AddAll(Add(x, first, bs[0]), first + 1, bs[1..])
  }

  lemma AddNext(x: Index, chain: seq<Bloom>, b: Bloom)
    requires Represents(x, chain)
    ensures Represents(Add(x, |chain| + 1, b), chain + [b])
  {
    hide Coherent;
    AddCoherent(x, |chain| + 1, b);
    var y, c := Add(x, |chain| + 1, b), chain + [b];
    assert Get(x.low, |chain| + 1) == {} && {} + b == b;
    forall n: nat ensures Get(y.low, n) == if 1 <= n <= |c| then c[n - 1] else {} {
      assert n != |chain| + 1 ==> Get(y.low, n) == Get(x.low, n);
    }
  }

  lemma {:induction false} AddAllRepresents(x: Index, chain: seq<Bloom>, bs: seq<Bloom>)
    requires Represents(x, chain)
    ensures Represents(AddAll(x, |chain| + 1, bs), chain + bs)
    decreases |bs|
  {
    hide Represents;
    if bs == [] {
      assert chain + bs == chain;
    } else {
      AddNext(x, chain, bs[0]);
      AddAllRepresents(Add(x, |chain| + 1, bs[0]), chain + [bs[0]], bs[1..]);
      assert chain + [bs[0]] + bs[1..] == chain + bs;
    }
  }

  lemma ClearedRepresents(x: Index, y: Index, chain: seq<Bloom>, keep: nat, end: nat)
    requires Represents(x, chain) && keep <= |chain| < end && Cleared(x, y, keep + 1, end)
    ensures Represents(y, chain[..keep])
  {
    hide Coherent;
  }

  /** Clearing from the fork point and adding the new branch is the same as indexing the new chain
      from scratch. */
  lemma ForkIsRebuild(x: Index, y: Index, chain: seq<Bloom>, keep: nat, branch: seq<Bloom>)
    requires Represents(x, chain) && keep <= |chain| && Cleared(x, y, keep + 1, |chain| + 1)
    ensures Represents(AddAll(y, keep + 1, branch), chain[..keep] + branch)
    ensures Same(AddAll(y, keep + 1, branch), AddAll(Index(map[], map[]), 1, chain[..keep] + branch))
  {
    hide Represents, Cleared, Same;
    ClearedRepresents(x, y, chain, keep, |chain| + 1);
    AddAllRepresents(y, chain[..keep], branch);
    EmptyRepresents();
    AddAllRepresents(Index(map[], map[]), [], chain[..keep] + branch);
    assert [] + (chain[..keep] + branch) == chain[..keep] + branch;
    OneIndex(AddAll(y, keep + 1, branch), AddAll(Index(map[], map[]), 1, chain[..keep] + branch),
        chain[..keep] + branch);
  }

  lemma EmptyRepresents()
    ensures Represents(Index(map[], map[]), [])
  {
  }

  // ----- queries

  function CeilDiv(n: nat, d: nat): nat
    requires d > 0
  {
    (n + d - 1) % WORD / d
  }

  /** The blocks whose entries a query up to `latest` looks at. */
  predicate Reached(n: nat, latest: nat) {
    n / TOP_SIZE <= CeilDiv(latest, TOP_SIZE) && (n / TOP_SIZE == latest / TOP_SIZE ==> n <= latest)
  }

  /** Without wrap-around a query reaches everything up to `latest` and, unless `latest` is a multiple of 256,
      the whole next chunk of 256 blocks. */
  lemma ReachExact(latest: nat, n: nat)
    requires latest + 255 < 0x1_0000_0000
    ensures Reached(n, latest) <==> n <= latest || (latest % 256 != 0 && n / 256 == latest / 256 + 1)
  {
  }

  /** So close to the top of the number range that rounding up wraps, a query reaches the first 256 blocks and
      nothing else. */
  lemma ReachWraps(latest: nat, n: nat)
    requires latest < 0x1_0000_0000 <= latest + 255
    ensures Reached(n, latest) <==> n < 256
  {
  }

  ghost predicate Ascending(s: seq<nat>) {
    forall i, j :: 0 <= i < j < |s| ==> s[i] < s[j]
  }

  /** `ret` lists the matches with lo <= n < hi that satisfy the bounds. */
  ghost predicate Lists(x: Index, q: Bloom, earliest: nat, latest: nat, lo: nat, hi: nat, ret: seq<nat>) {
    && Ascending(ret)
    && forall n: nat :: n in ret <==> lo <= n < hi && earliest <= n && Reached(n, latest) && q <= Get(x.low, n)
  }

  lemma ListsAppend(x: Index, q: Bloom, e: nat, l: nat, lo: nat, mid: nat, hi: nat, a: seq<nat>, b: seq<nat>)
    requires lo <= mid <= hi && Lists(x, q, e, l, lo, mid, a) && Lists(x, q, e, l, mid, hi, b)
    ensures Lists(x, q, e, l, lo, hi, a + b)
  {
    hide Reached, Get;
    var r := a + b;
    forall i, j | 0 <= i < j < |r| ensures r[i] < r[j] {
      if i < |a| <= j { assert r[i] in a && r[j] in b; }
    }
  }

  lemma ListsNone(x: Index, q: Bloom, e: nat, l: nat, lo: nat, hi: nat)
    requires forall n: nat :: lo <= n < hi ==> !(e <= n && Reached(n, l) && q <= Get(x.low, n))
    ensures Lists(x, q, e, l, lo, hi, [])
  {
  }

  class Blooms {
    var low: map<nat, Bloom>
    var high: map<nat, Bloom>

    ghost function Abs(): Index
      reads this
    {
      Index(low, high)
    }

    constructor ()
      ensures Represents(Abs(), [])
    {
      low, high := map[], map[];
    }

    /** The loop over the levels. A coherent index stays coherent, and the index of a chain becomes that of
        the chain with the block on top. */
    method AddBlock(n: nat, b: Bloom)
      modifies this
      ensures Abs() == Add(old(Abs()), n, b)
      ensures old(Coherent(Abs())) ==> Coherent(Abs())
      ensures forall chain :: old(Represents(Abs(), chain)) && n == |chain| + 1 ==> Represents(Abs(), chain + [b])
    {
      hide Coherent, Represents;
      if Coherent(Abs()) { AddCoherent(Abs(), n, b); }
      forall chain | Represents(Abs(), chain) && n == |chain| + 1 ensures Represents(Add(Abs(), n, b), chain + [b]) {
        AddNext(Abs(), chain, b);
      }
      var index := n;
      for level := 0 to INDEX_LEVELS
        invariant index == if level == 0 then n else if level == 1 then n / INDEX_SIZE else n / INDEX_SIZE / INDEX_SIZE
        invariant low == if level == 0 then old(low) else Add(old(Abs()), n, b).low
        invariant high == if level <= 1 then old(high) else Add(old(Abs()), n, b).high
      {
        if level == 0 {
          low := low[index := Get(low, index) + b];
        } else {
          high := high[index := Get(high, index) + b];
        }
        index := index / INDEX_SIZE;
      }
    }

    method ClearLow(begin: nat, end: nat)
      requires begin <= end
      modifies this`low
      ensures forall n: nat :: Get(low, n) == if begin <= n < end then {} else Get(old(low), n)
    {
      var item := begin;
      while item != end
        invariant begin <= item <= end
        invariant forall n: nat :: Get(low, n) == if begin <= n < item then {} else Get(old(low), n)
        decreases end - item
      {
        ghost var before := low;
        low := low[item := {}];
        forall n: nat ensures Get(low, n) == if n == item then {} else Get(before, n) { }
        item := item + 1;
      }
    }

    /** One upper entry from its sixteen lower ones. */
    method Rebuild(item: nat)
      modifies this`high
      ensures forall bit: nat :: bit in Get(high, item) <==> InChunk(low, item, bit)
      ensures forall j: nat :: j != item ==> Get(high, j) == Get(old(high), j)
    {
      var acc: Bloom := {};
      for o := 0 to INDEX_SIZE
        invariant forall bit: nat :: bit in acc <==>
                    exists n: nat :: item * INDEX_SIZE <= n < item * INDEX_SIZE + o && bit in Get(low, n)
      {
        acc := acc + Get(low, item * INDEX_SIZE + o);
      }
      forall bit: nat ensures bit in acc <==> InChunk(low, item, bit) {
        if InChunk(low, item, bit) {
          var n: nat :| n / INDEX_SIZE == item && bit in Get(low, n);
          assert item * INDEX_SIZE <= n < item * INDEX_SIZE + INDEX_SIZE;
        }
      }
      high := high[item := acc];
    }

    /** `clearBlockBlooms`: zero the range, then rebuild each upper entry above it. */
    method Clear(begin: nat, end: nat)
      requires Coherent(Abs()) && begin <= end && 0 < end
      modifies this
      ensures Cleared(old(Abs()), Abs(), begin, end)
    {
      ClearLow(begin, end);
      var first, last := begin / INDEX_SIZE, (end - 1) / INDEX_SIZE + 1;
      var item := first;
      ghost var cleared := low;
      while item != last
        invariant first <= item <= last && low == cleared
        invariant forall j: nat, bit: nat :: first <= j < item ==> (bit in Get(high, j) <==> InChunk(low, j, bit))
        invariant forall j: nat :: !(first <= j < item) ==> Get(high, j) == Get(old(high), j)
        decreases last - item
      {
        Rebuild(item);
        item := item + 1;
      }
      forall j: nat, bit: nat | !(first <= j < last)
        ensures bit in Get(high, j) <==> InChunk(low, j, bit)
      {
        UntouchedChunk(old(low), low, begin, end, j, bit);
      }
    }

    /** A level-0 chunk of a query. */
    method QueryLow(q: Bloom, earliest: nat, latest: nat, index: nat) returns (ret: seq<nat>)
      requires earliest / INDEX_SIZE <= index && index / INDEX_SIZE <= CeilDiv(latest, TOP_SIZE)
      requires index / INDEX_SIZE == latest / TOP_SIZE ==> index <= latest / INDEX_SIZE
      ensures Lists(Abs(), q, earliest, latest, index * INDEX_SIZE, (index + 1) * INDEX_SIZE, ret)
    {
      hide Lists, CeilDiv, Reached, Get, Ascending;
      ghost var base := index * INDEX_SIZE;
      var obegin := if index == earliest / INDEX_SIZE then earliest % INDEX_SIZE else 0;
      var oend := if index == latest / INDEX_SIZE then latest % INDEX_SIZE + 1 else INDEX_SIZE;
      ret := [];
      TooEarly(Abs(), q, earliest, latest, base, base + obegin);
      var o := obegin;
      while o < oend
        invariant obegin <= o && (o <= oend || (o == obegin && oend < obegin))
        invariant Lists(Abs(), q, earliest, latest, base, base + o, ret)
        decreases oend - o
      {
        var n := o + index * INDEX_SIZE;
        LowEntry(earliest, latest, index, o);
        if q <= Get(low, n) {
          ListsOne(Abs(), q, earliest, latest, n);
          ListsAppend(Abs(), q, earliest, latest, base, n, n + 1, ret, [n]);
          ret := ret + [n];
        } else {
          ListsNone(Abs(), q, earliest, latest, n, n + 1);
          ListsAppend(Abs(), q, earliest, latest, base, n, n + 1, ret, []);
          assert ret + [] == ret;
        }
        o := o + 1;
      }
      LowTail(Abs(), q, earliest, latest, index, o);
      ListsAppend(Abs(), q, earliest, latest, base, base + o, base + INDEX_SIZE, ret, []);
      assert ret + [] == ret;
    }

    /** A level-1 chunk of a query: descends where the upper entry contains the pattern. */
    method QueryHigh(q: Bloom, earliest: nat, latest: nat, index: nat) returns (ret: seq<nat>)
      requires Coherent(Abs()) && earliest / TOP_SIZE <= index <= CeilDiv(latest, TOP_SIZE)
      ensures Lists(Abs(), q, earliest, latest, index * TOP_SIZE, (index + 1) * TOP_SIZE, ret)
    {
      hide Lists, CeilDiv, Coherent, Reached, Get, Ascending;
      ghost var base := index * TOP_SIZE;
      var obegin := if index == earliest / TOP_SIZE then earliest / INDEX_SIZE % INDEX_SIZE else 0;
      var oend := if index == latest / TOP_SIZE then latest / INDEX_SIZE % INDEX_SIZE + 1 else INDEX_SIZE;
      ret := [];
      Digits(earliest);
      TooEarly(Abs(), q, earliest, latest, base, base + obegin * INDEX_SIZE);
      var o := obegin;
      while o < oend
        invariant obegin <= o && (o <= oend || (o == obegin && oend < obegin))
        invariant Lists(Abs(), q, earliest, latest, base, base + o * INDEX_SIZE, ret)
        decreases oend - o
      {
        var item := o + index * INDEX_SIZE;
        ghost var lo, hi := item * INDEX_SIZE, (item + 1) * INDEX_SIZE;
        HighEntry(earliest, latest, index, o);
        if q <= Get(high, item) {
          var found := QueryLow(q, earliest, latest, item);
          ListsAppend(Abs(), q, earliest, latest, base, lo, hi, ret, found);
          ret := ret + found;
        } else {
          NoMatchBelow(Abs(), q, item);
          ListsNone(Abs(), q, earliest, latest, lo, hi);
          ListsAppend(Abs(), q, earliest, latest, base, lo, hi, ret, []);
          assert ret + [] == ret;
        }
        o := o + 1;
      }
      HighTail(Abs(), q, earliest, latest, index, o);
      ListsAppend(Abs(), q, earliest, latest, base, base + o * INDEX_SIZE, base + TOP_SIZE, ret, []);
      assert ret + [] == ret;
    }

    /** `withBlockBloom`: ascending, without repetition, exactly the matching blocks from `earliest` on
        that the query reaches. */
    method WithBlockBloom(q: Bloom, earliest: nat, latest: nat) returns (ret: seq<nat>)
      requires Coherent(Abs())
      ensures Ascending(ret)
      ensures forall n: nat :: n in ret <==> earliest <= n && Reached(n, latest) && q <= Get(low, n)
    {
      var last := CeilDiv(latest, TOP_SIZE);
      var index := earliest / TOP_SIZE;
      ret := [];
      ListsNone(Abs(), q, earliest, latest, 0, index * TOP_SIZE);
      while index <= last
        invariant earliest / TOP_SIZE <= index && (index <= last + 1 || index == earliest / TOP_SIZE)
        invariant Lists(Abs(), q, earliest, latest, 0, index * TOP_SIZE, ret)
        decreases last + 1 - index
      {
        hide Lists, Coherent, CeilDiv;
        var found := QueryHigh(q, earliest, latest, index);
        ListsAppend(Abs(), q, earliest, latest, 0, index * TOP_SIZE, (index + 1) * TOP_SIZE, ret, found);
        ret := ret + found;
        index := index + 1;
      }
      forall n: nat | index * TOP_SIZE <= n ensures !Reached(n, latest) { }
    }
  }

  lemma ListsOne(x: Index, q: Bloom, e: nat, l: nat, n: nat)
    requires e <= n && Reached(n, l) && q <= Get(x.low, n)
    ensures Lists(x, q, e, l, n, n + 1, [n])
  {
  }

  lemma TooEarly(x: Index, q: Bloom, e: nat, l: nat, lo: nat, hi: nat)
    requires hi <= e || hi == lo
    ensures Lists(x, q, e, l, lo, hi, [])
  {
  }

  /** A number in terms of its chunk, its entry and its offset. */
  lemma Digits(n: nat)
    ensures n == n / TOP_SIZE * TOP_SIZE + n / INDEX_SIZE % INDEX_SIZE * INDEX_SIZE + n % INDEX_SIZE
  {
    assert n / INDEX_SIZE / INDEX_SIZE == n / TOP_SIZE;
    assert n / INDEX_SIZE == n / TOP_SIZE * INDEX_SIZE + n / INDEX_SIZE % INDEX_SIZE;
  }

  /** The rest of a chunk lies behind `latest`, or there is no rest. */
  lemma LowTail(x: Index, q: Bloom, e: nat, latest: nat, index: nat, o: nat)
    requires o <= INDEX_SIZE && (index == latest / INDEX_SIZE ==> o > latest % INDEX_SIZE)
    requires index != latest / INDEX_SIZE ==> o == INDEX_SIZE
    ensures Lists(x, q, e, latest, index * INDEX_SIZE + o, (index + 1) * INDEX_SIZE, [])
  {
    forall n: nat | index * INDEX_SIZE + o <= n < (index + 1) * INDEX_SIZE ensures !Reached(n, latest) {
      assert n / INDEX_SIZE == index && n / TOP_SIZE == index / INDEX_SIZE;
      assert latest / TOP_SIZE == latest / INDEX_SIZE / INDEX_SIZE;
    }
  }

  lemma HighTail(x: Index, q: Bloom, e: nat, latest: nat, index: nat, o: nat)
    requires o <= INDEX_SIZE && (index == latest / TOP_SIZE ==> o > latest / INDEX_SIZE % INDEX_SIZE)
    requires index != latest / TOP_SIZE ==> o == INDEX_SIZE
    ensures Lists(x, q, e, latest, index * TOP_SIZE + o * INDEX_SIZE, (index + 1) * TOP_SIZE, [])
  {
    Digits(latest);
    forall n: nat | index * TOP_SIZE + o * INDEX_SIZE <= n < (index + 1) * TOP_SIZE ensures !Reached(n, latest) {
      assert n / TOP_SIZE == index;
    }
  }

  lemma LowEntry(earliest: nat, latest: nat, index: nat, o: nat)
    requires earliest / INDEX_SIZE <= index && index / INDEX_SIZE <= CeilDiv(latest, TOP_SIZE)
    requires index / INDEX_SIZE == latest / TOP_SIZE ==> index <= latest / INDEX_SIZE
    requires o < INDEX_SIZE && (index == earliest / INDEX_SIZE ==> o >= earliest % INDEX_SIZE)
    requires index == latest / INDEX_SIZE ==> o <= latest % INDEX_SIZE
    ensures earliest <= index * INDEX_SIZE + o && Reached(index * INDEX_SIZE + o, latest)
  {
    hide CeilDiv;
    var n := index * INDEX_SIZE + o;
    assert n / TOP_SIZE == index / INDEX_SIZE;
  }

  lemma HighEntry(earliest: nat, latest: nat, index: nat, o: nat)
    requires earliest / TOP_SIZE <= index && o < INDEX_SIZE
    requires index == earliest / TOP_SIZE ==> o >= earliest / INDEX_SIZE % INDEX_SIZE
    requires index == latest / TOP_SIZE ==> o <= latest / INDEX_SIZE % INDEX_SIZE
    ensures var item := o + index * INDEX_SIZE;
            && earliest / INDEX_SIZE <= item && item / INDEX_SIZE == index
            && (item / INDEX_SIZE == latest / TOP_SIZE ==> item <= latest / INDEX_SIZE)
  {
  }

  /** An upper entry that lacks a bit of the pattern has no matching block below it. */
  lemma NoMatchBelow(x: Index, q: Bloom, j: nat)
    requires Coherent(x) && !(q <= Get(x.high, j))
    ensures forall n: nat :: j * INDEX_SIZE <= n < (j + 1) * INDEX_SIZE ==> !(q <= Get(x.low, n))
  {
    var bit :| bit in q && bit !in Get(x.high, j);
    assert !InChunk(x.low, j, bit);
    forall n: nat | j * INDEX_SIZE <= n < (j + 1) * INDEX_SIZE ensures !(q <= Get(x.low, n)) {
      assert n / INDEX_SIZE == j;
      assert bit !in Get(x.low, n);
    }
  }

  lemma UntouchedChunk(low: map<nat, Bloom>, low': map<nat, Bloom>, begin: nat, end: nat, j: nat, bit: nat)
    requires 0 < end && !(begin / INDEX_SIZE <= j < (end - 1) / INDEX_SIZE + 1)
    requires forall n: nat :: Get(low', n) == if begin <= n < end then {} else Get(low, n)
    ensures InChunk(low, j, bit) <==> InChunk(low', j, bit)
  {
    forall n: nat | n / INDEX_SIZE == j ensures Get(low, n) == Get(low', n) {
      assert !(begin <= n < end);
    }
  }
}
