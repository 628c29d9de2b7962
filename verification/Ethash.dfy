/** Ethash, Appendix J of the Ethereum Yellow Paper: dataset items from the cache, the mixing loop
    over a stored or a recomputed dataset, and the quick check of a returned mix. Memory is seen as
    32-bit words in little-endian order; the Keccak functions are parameters. */
module Ethash {
  import opened Words

  type Node = seq<Word>
  type Sha = seq<Word> -> seq<Word>

  const FNV_PRIME: Word := 0x01000193
  const NODE_WORDS := 16
  const MIX_WORDS := 32
  const MIX_NODES := 2
  const DATASET_PARENTS := 256
  const ACCESSES := 64

  /** The hash functions of 64 and of 32 bytes. */
  ghost predicate Shas(sha512: Sha, sha256: Sha) {
    (forall x :: |sha512(x)| == NODE_WORDS) && (forall x :: |sha256(x)| == 8)
  }

  function Times(x: Word, y: Word): Word {
    (x as int) * y % LIMIT
  }

  function Fnv(x: Word, y: Word): Word {
    Xor(Times(x, FNV_PRIME), y)
  }

  /** Word by word. */
  function FnvAll(a: seq<Word>, b: seq<Word>): (r: seq<Word>)
    requires |a| == |b|
    ensures |r| == |a|
  {
    seq(|a|, w requires 0 <= w < |a| => Fnv(a[w], b[w]))
  }

  function Residue(v: nat, n: nat): (i: nat)
    requires n > 0
    ensures i < n
  {
    v % n
  }

  function Index(x: Word, n: nat): (i: nat)
    requires n > 0
    ensures i < n
  {
    Residue(x, n)
  }

  /** The cache of an epoch. */
  ghost predicate Cache(cache: seq<Node>) {
    0 < |cache| < LIMIT && forall i :: 0 <= i < |cache| ==> |cache[i]| == NODE_WORDS
  }

  // ----- dataset items

  /** Mixing in the parents from number `i` on. */
  function Parents(cache: seq<Node>, index: Word, mix: Node, i: nat): (r: Node)
    requires Cache(cache) && |mix| == NODE_WORDS && i <= DATASET_PARENTS
    ensures |r| == NODE_WORDS
    decreases DATASET_PARENTS - i
  {
    if i == DATASET_PARENTS then mix else
    Parents(cache, index, FnvAll(mix, cache[ParentIndex(cache, index, mix, i)]), i + 1)
  }

  function ParentIndex(cache: seq<Node>, index: Word, mix: Node, i: nat): (p: nat)
    requires Cache(cache) && |mix| == NODE_WORDS && i < DATASET_PARENTS
    ensures p < |cache|
  {
    Index(Fnv(Xor(index, i), mix[Residue(i, NODE_WORDS)]), |cache|)
  }

  function DagItem(cache: seq<Node>, index: nat, sha512: Sha): Node
    requires Cache(cache) && index < LIMIT && forall x :: |sha512(x)| == NODE_WORDS
  {
    var init := cache[Residue(index, |cache|)];
    sha512(Parents(cache, index, sha512(init[0 := Xor(init[0], index)]), 0))
  }

  /** The node is computed in the buffer that receives it. */
  method CalculateDagItem(ret: array<Word>, index: nat, cache: seq<Node>, sha512: Sha)
    requires Cache(cache) && index < LIMIT && ret.Length == NODE_WORDS && forall x :: |sha512(x)| == NODE_WORDS
    modifies ret
    ensures ret[..] == DagItem(cache, index, sha512)
  {
    hide Fnv, FnvAll, Index, Parents, Residue, Xor;
    InitItem(ret, cache[Residue(index, |cache|)], index);
    Store(ret, sha512(ret[..]));
    MixParents(ret, index, cache);
    Store(ret, sha512(ret[..]));
  }

  method InitItem(ret: array<Word>, init: Node, index: Word)
    requires ret.Length == |init| == NODE_WORDS
    modifies ret
    ensures ret[..] == init[0 := Xor(init[0], index)]
  {
    hide Xor;
    Store(ret, init);
    ret[0] := Xor(ret[0], index);
    assert forall j :: 0 < j < NODE_WORDS ==> ret[j] == init[j];
  }

  method MixParents(ret: array<Word>, index: Word, cache: seq<Node>)
    requires Cache(cache) && ret.Length == NODE_WORDS
    modifies ret
    ensures ret[..] == Parents(cache, index, old(ret[..]), 0)
  {
    hide Fnv, FnvAll, Index, Residue, ParentIndex;
    for i := 0 to DATASET_PARENTS
      invariant Parents(cache, index, ret[..], i) == Parents(cache, index, old(ret[..]), 0)
    {
      ghost var mix := ret[..];
      var p := ParentIndex(cache, index, ret[..], i);
      FnvInto(ret, 0, cache[p]);
      Folded(mix, cache[p], ret[..]);
    }
  }

  lemma Folded(a: seq<Word>, b: seq<Word>, r: seq<Word>)
    requires |a| == |b| == |r| && forall j :: 0 <= j < |a| ==> r[j] == Fnv(a[j], b[j])
    ensures r == FnvAll(a, b)
  {
  }

  method Store(a: array<Word>, s: seq<Word>)
    requires a.Length == |s|
    modifies a
    ensures a[..] == s
  {
    for w := 0 to a.Length
      invariant a[..w] == s[..w]
    {
      a[w] := s[w];
    }
  }

  /** Fold `s` into the words from `from` on. */
  method FnvInto(a: array<Word>, from: nat, s: seq<Word>)
    requires from + |s| <= a.Length
    modifies a
    ensures forall j :: 0 <= j < a.Length ==>
              a[j] == if from <= j < from + |s| then Fnv(old(a[j]), s[j - from]) else old(a[j])
  {
    hide Fnv;
    for w := 0 to |s|
      invariant forall j :: 0 <= j < a.Length ==>
                  a[j] == if from <= j < from + w then Fnv(old(a[j]), s[j - from]) else old(a[j])
    {
      a[from + w] := Fnv(a[from + w], s[w]);
    }
  }

  // ----- the dataset

  function FullData(cache: seq<Node>, n: nat, sha512: Sha): (r: seq<Node>)
    requires Cache(cache) && n <= LIMIT && forall x :: |sha512(x)| == NODE_WORDS
    ensures |r| == n && forall i :: 0 <= i < n ==> r[i] == DagItem(cache, i, sha512) && |r[i]| == NODE_WORDS
  {
    seq(n, i requires 0 <= i < n => DagItem(cache, i, sha512))
  }

  /** The number of nodes in a dataset of `size` bytes, in 32 bits. */
  function NodeCount(size: nat): nat { size / 64 % LIMIT }

  /** The number of pages, two nodes each, likewise. */
  function PageCount(size: nat): nat { size / (4 * MIX_WORDS) % LIMIT }

  /** Fill `mem`; sizes that are no whole number of pages are refused. */
  method ComputeFullData(mem: array<Node>, fullSize: nat, cache: seq<Node>, sha512: Sha) returns (ok: bool)
    requires Cache(cache) && mem.Length == NodeCount(fullSize) && forall x :: |sha512(x)| == NODE_WORDS
    modifies mem
    ensures ok <==> fullSize % 128 == 0 && fullSize % 64 == 0
    ensures ok ==> mem[..] == FullData(cache, NodeCount(fullSize), sha512)
  {
    hide DagItem;
    if fullSize % (4 * MIX_WORDS) != 0 || fullSize % 64 != 0 { return false; }
    for n := 0 to mem.Length
      invariant forall i :: 0 <= i < n ==> mem[i] == DagItem(cache, i, sha512)
    {
      var item := new Word[NODE_WORDS];
      CalculateDagItem(item, n, cache, sha512);
      mem[n] := item[..];
    }
    return true;
  }

  // ----- the hash

  datatype Source = Full(nodes: seq<Node>) | Light

  /** Every node of `pages` pages can be had. */
  ghost predicate Serves(src: Source, pages: nat) {
    && 0 < MIX_NODES * pages <= LIMIT
    && (src.Full? ==> MIX_NODES * pages <= |src.nodes| && forall i :: 0 <= i < |src.nodes| ==>
        |src.nodes[i]| == NODE_WORDS)
  }

  function NodeAt(src: Source, cache: seq<Node>, i: nat, sha512: Sha): (n: Node)
    requires Cache(cache) && i < LIMIT && (src.Full? ==> i < |src.nodes| && |src.nodes[i]| == NODE_WORDS)
    requires forall x :: |sha512(x)| == NODE_WORDS
    ensures |n| == NODE_WORDS
  {
    if src.Full? then src.nodes[i] else DagItem(cache, i, sha512)
  }

  function PageIndex(s: Node, mix: seq<Word>, i: nat, pages: nat): (p: nat)
    requires |s| == NODE_WORDS && |mix| == MIX_WORDS && i < ACCESSES && pages > 0
    ensures p < pages
  {
    Index(Fnv(Xor(s[0], i), mix[Residue(i, MIX_WORDS)]), pages)
  }

  /** The accesses from number `i` on. */
  function Accesses(src: Source, cache: seq<Node>, sha512: Sha, s: Node, mix: seq<Word>, pages: nat,
      i: nat): (r: seq<Word>)
    requires Cache(cache) && Serves(src, pages) && forall x :: |sha512(x)| == NODE_WORDS
    requires |s| == NODE_WORDS && |mix| == MIX_WORDS && i <= ACCESSES
    ensures |r| == MIX_WORDS
    decreases ACCESSES - i
  {
    if i == ACCESSES then mix else
    var p := PageIndex(s, mix, i, pages);
    var page := NodeAt(src, cache, MIX_NODES * p, sha512) + NodeAt(src, cache, MIX_NODES * p + 1, sha512);
    Accesses(src, cache, sha512, s, FnvAll(mix, page), pages, i + 1)
  }

  function Reduce(m: seq<Word>, w: nat): Word
    requires w + 4 <= |m|
  {
    Fnv(Fnv(Fnv(m[w], m[w + 1]), m[w + 2]), m[w + 3])
  }

  /** Four words become one. */
  function Compressed(m: seq<Word>): (r: seq<Word>)
    requires |m| == MIX_WORDS
    ensures |r| == 8
  {
    seq(8, k requires 0 <= k < 8 => Reduce(m, 4 * k))
  }

  function SeedOf(header: seq<Word>, nonce: seq<Word>, sha512: Sha): seq<Word> {
    sha512(header + nonce)
  }

  function MixOf(src: Source, cache: seq<Node>, pages: nat, header: seq<Word>, nonce: seq<Word>,
      sha512: Sha): (r: seq<Word>)
    requires Cache(cache) && Serves(src, pages) && forall x :: |sha512(x)| == NODE_WORDS
    ensures |r| == 8
  {
    var s := SeedOf(header, nonce, sha512);
    Compressed(Accesses(src, cache, sha512, s, s + s, pages, 0))
  }

  /** Every page lies inside the computed dataset exactly when the node count, taken modulo 2^33, is
      positive and fits 32 bits; so for all datasets below 256 gigabytes. */
  lemma InBoundsExact(cache: seq<Node>, fullSize: nat, sha512: Sha)
    requires Cache(cache) && (forall x :: |sha512(x)| == NODE_WORDS) && fullSize % (4 * MIX_WORDS) == 0
    ensures Serves(Full(FullData(cache, NodeCount(fullSize), sha512)), PageCount(fullSize)) <==>
            0 < fullSize / 64 % (2 * LIMIT) < LIMIT
  {
    hide DagItem;
    var y := fullSize / 128;
    assert fullSize == 128 * y;
    Halves(y);
    assert fullSize / 64 == 2 * y;
  }

  lemma Halves(y: nat)
    ensures 2 * y % (2 * LIMIT) == 2 * (y % LIMIT)
    ensures 2 * (y % LIMIT) < LIMIT ==> 2 * y % LIMIT == 2 * (y % LIMIT)
    ensures 2 * (y % LIMIT) >= LIMIT ==> 2 * y % LIMIT == 2 * (y % LIMIT) - LIMIT
  {
    var q, r := y / LIMIT, y % LIMIT;
    Doubled(2 * y, q, 2 * r);
    if 2 * r < LIMIT { Divided(2 * y, 2 * q, 2 * r); } else { Divided(2 * y, 2 * q + 1, 2 * r - LIMIT); }
  }

  lemma Divided(v: nat, q: nat, r: nat)
    requires v == q * LIMIT + r && r < LIMIT
    ensures v % LIMIT == r
  {
  }

  lemma Doubled(v: nat, q: nat, r: nat)
    requires v == q * (2 * LIMIT) + r && r < 2 * LIMIT
    ensures v % (2 * LIMIT) == r
  {
  }

  /** Reading the stored dataset and recomputing its items give the same mix, for every header and nonce. */
  lemma FullIsLight(cache: seq<Node>, fullSize: nat, header: seq<Word>, nonce: seq<Word>, sha512: Sha)
    requires Cache(cache) && (forall x :: |sha512(x)| == NODE_WORDS)
    requires fullSize % (4 * MIX_WORDS) == 0 && 0 < fullSize / 64 % (2 * LIMIT) < LIMIT
    ensures var full, pages := Full(FullData(cache, NodeCount(fullSize), sha512)), PageCount(fullSize);
            Serves(full, pages) && Serves(Light, pages) &&
            MixOf(full, cache, pages, header, nonce, sha512) == MixOf(Light, cache, pages, header, nonce, sha512)
  {
    hide DagItem, Accesses, Compressed;
    var s := SeedOf(header, nonce, sha512);
    InBoundsExact(cache, fullSize, sha512);
    SameAccesses(cache, NodeCount(fullSize), sha512, s, s + s, PageCount(fullSize), 0);
  }

  lemma {:induction false} SameAccesses(cache: seq<Node>, n: nat, sha512: Sha, s: Node, mix: seq<Word>, pages: nat,
      i: nat)
    requires Cache(cache) && n < LIMIT && 0 < MIX_NODES * pages <= n && (forall x :: |sha512(x)| == NODE_WORDS)
    requires |s| == NODE_WORDS && |mix| == MIX_WORDS && i <= ACCESSES
    ensures Accesses(Full(FullData(cache, n, sha512)), cache, sha512, s, mix, pages, i) ==
            Accesses(Light, cache, sha512, s, mix, pages, i)
    decreases ACCESSES - i
  {
    hide DagItem, PageIndex;
    if i < ACCESSES {
      var p := PageIndex(s, mix, i, pages);
      var page := NodeAt(Light, cache, MIX_NODES * p, sha512) + NodeAt(Light, cache, MIX_NODES * p + 1, sha512);
      SameAccesses(cache, n, sha512, s, FnvAll(mix, page), pages, i + 1);
    }
  }

  // ----- the formulas

  /** The step of Fowler, Noll and Vo on numbers. */
  lemma FnvForm(x: Word, y: Word, z: Word)
    ensures Fnv(x, 0) == (x as int) * 16777619 % 4294967296
    ensures XorBits(Fnv(x, y), Fnv(x, z)) == XorBits(y, z)
  {
    XorZero(Times(x, FNV_PRIME));
    XorCancels(Times(x, FNV_PRIME), y, z);
  }

  /** The 257 states a dataset item goes through: the cache node with the index in it, hashed, and then each
      word multiplied and mixed with that of a parent, 256 times over. */
  ghost predicate ItemStates(cache: seq<Node>, index: Word, sha512: Sha, ms: seq<Node>)
    requires Cache(cache) && forall x :: |sha512(x)| == 16
  {
    && |ms| == 257 && (forall j :: 0 <= j < 257 ==> |ms[j]| == 16)
    && ms[0] == sha512([Xor(cache[index % |cache|][0], index)] + cache[index % |cache|][1..])
    && forall j :: 0 <= j < 256 ==> ItemStep(cache, index, ms[j], ms[j + 1], j)
  }

  ghost predicate ItemStep(cache: seq<Node>, index: Word, m: Node, n: Node, j: Word)
    requires Cache(cache) && |m| == |n| == 16
  {
    var parent := Xor((Xor(index, j) as int) * 16777619 % 4294967296, m[j % 16]) % |cache|;
    forall w :: 0 <= w < 16 ==> n[w] == Xor((m[w] as int) * 16777619 % 4294967296, cache[parent][w])
  }

  lemma {:induction false} StatesLead(cache: seq<Node>, index: Word, sha512: Sha, ms: seq<Node>, i: nat)
    requires Cache(cache) && (forall x :: |sha512(x)| == 16) && ItemStates(cache, index, sha512, ms) && i <= 256
    ensures Parents(cache, index, ms[i], i) == ms[256]
    decreases 256 - i
  {
    hide Xor, Parents;
    if i == 256 {
      ParentsDone(cache, index, ms[256]);
    } else {
      assert ItemStep(cache, index, ms[i], ms[i + 1], i);
      ParentsNext(cache, index, ms[i], ms[i + 1], i);
      StatesLead(cache, index, sha512, ms, i + 1);
    }
  }

  lemma ParentsDone(cache: seq<Node>, index: Word, m: Node)
    requires Cache(cache) && |m| == 16
    ensures Parents(cache, index, m, 256) == m
  {
  }

  lemma ParentsNext(cache: seq<Node>, index: Word, m: Node, n: Node, i: nat)
    requires Cache(cache) && |m| == |n| == 16 && i < 256 && ItemStep(cache, index, m, n, i)
    ensures Parents(cache, index, m, i) == Parents(cache, index, n, i + 1)
  {
    hide Xor;
    Folded(m, cache[ParentIndex(cache, index, m, i)], n);
  }

  /** A dataset item is the hash of the last of its 257 states, whatever shows them. */
  lemma ItemForm(cache: seq<Node>, index: Word, sha512: Sha, ms: seq<Node>)
    requires Cache(cache) && (forall x :: |sha512(x)| == 16) && ItemStates(cache, index, sha512, ms)
    ensures DagItem(cache, index, sha512) == sha512(ms[256])
  {
    hide Xor, Parents;
    StatesLead(cache, index, sha512, ms, 0);
    var init := cache[index % |cache|];
    assert init[0 := Xor(init[0], index)] == [Xor(init[0], index)] + init[1..];
  }

  /** There always are such states. */
  lemma ItemStatesExist(cache: seq<Node>, index: Word, sha512: Sha) returns (ms: seq<Node>)
    requires Cache(cache) && forall x :: |sha512(x)| == 16
    ensures ItemStates(cache, index, sha512, ms)
  {
    hide Xor;
    var init := cache[index % |cache|];
    ms := [sha512([Xor(init[0], index)] + init[1..])];
    while |ms| < 257
      invariant 1 <= |ms| <= 257 && (forall j :: 0 <= j < |ms| ==> |ms[j]| == 16)
      invariant ms[0] == sha512([Xor(init[0], index)] + init[1..])
      invariant forall j :: 0 <= j < |ms| - 1 ==> ItemStep(cache, index, ms[j], ms[j + 1], j)
    {
      var j := |ms| - 1;
      var n := NextState(cache, index, ms[j], j);
      ms := ms + [n];
    }
  }

  lemma NextState(cache: seq<Node>, index: Word, m: Node, j: nat) returns (n: Node)
    requires Cache(cache) && |m| == 16 && j < 256
    ensures |n| == 16 && ItemStep(cache, index, m, n, j)
  {
    hide Xor;
    var parent := Xor((Xor(index, j) as int) * 16777619 % 4294967296, m[j % 16]) % |cache|;
    n := seq(16, w requires 0 <= w < 16 => Xor((m[w] as int) * 16777619 % 4294967296, cache[parent][w]));
  }

  /** The 65 states of the mix: the seed twice over, and then each word multiplied and mixed with that of a page
      of two dataset nodes, 64 times over. */
  ghost predicate MixStates(src: Source, cache: seq<Node>, pages: nat, s: Node, sha512: Sha, ms: seq<seq<Word>>)
    requires Cache(cache) && Serves(src, pages) && (forall x :: |sha512(x)| == 16) && |s| == 16
  {
    && |ms| == 65 && (forall j :: 0 <= j < 65 ==> |ms[j]| == 32) && ms[0] == s + s
    && forall j :: 0 <= j < 64 ==> MixStep(src, cache, pages, s, sha512, ms[j], ms[j + 1], j)
  }

  ghost predicate MixStep(src: Source, cache: seq<Node>, pages: nat, s: Node, sha512: Sha, m: seq<Word>, n: seq<Word>,
      j: Word)
    requires Cache(cache) && Serves(src, pages) && (forall x :: |sha512(x)| == 16) && |s| == 16 && |m| == |n| == 32
  {
    var page := Xor((Xor(s[0], j) as int) * 16777619 % 4294967296, m[j % 32]) % pages;
    forall w :: 0 <= w < 32 ==>
      n[w] == Xor((m[w] as int) * 16777619 % 4294967296, WordAt(src, cache, 2 * page + w / 16, w % 16, sha512))
  }

  /** Word `w` of dataset node `i`. */
  ghost function WordAt(src: Source, cache: seq<Node>, i: nat, w: nat, sha512: Sha): Word
    requires Cache(cache) && i < LIMIT && (src.Full? ==> i < |src.nodes| && |src.nodes[i]| == 16)
    requires (forall x :: |sha512(x)| == 16) && w < 16
  {
    match src
    case Full(nodes) => nodes[i][w]
    case Light => DagItem(cache, i, sha512)[w]
  }

  lemma AccessesNext(src: Source, cache: seq<Node>, pages: nat, s: Node, sha512: Sha, m: seq<Word>, n: seq<Word>, i: nat)
    requires Cache(cache) && Serves(src, pages) && (forall x :: |sha512(x)| == 16) && |s| == 16 && |m| == |n| == 32
    requires i < 64 && MixStep(src, cache, pages, s, sha512, m, n, i)
    ensures Accesses(src, cache, sha512, s, m, pages, i) == Accesses(src, cache, sha512, s, n, pages, i + 1)
  {
    hide Xor, DagItem, Fnv;
    var p := PageIndex(s, m, i, pages);
    PageForm(s, m, i, pages);
    var a, b := NodeAt(src, cache, 2 * p, sha512), NodeAt(src, cache, 2 * p + 1, sha512);
    forall w | 0 <= w < 32 ensures n[w] == Fnv(m[w], (a + b)[w]) {
      FnvIs(m[w], WordAt(src, cache, 2 * p + w / 16, w % 16, sha512));
      assert w / 16 == 0 || w / 16 == 1;
    }
    Folded(m, a + b, n);
  }

  lemma FnvIs(x: Word, y: Word)
    ensures Fnv(x, y) == Xor((x as int) * 16777619 % 4294967296, y)
  {
  }

  lemma PageForm(s: Node, m: seq<Word>, i: nat, pages: nat)
    requires |s| == 16 && |m| == 32 && i < 64 && pages > 0
    ensures PageIndex(s, m, i, pages) == Xor((Xor(s[0], i) as int) * 16777619 % 4294967296, m[i % 32]) % pages
  {
    hide Xor;
  }

  lemma {:induction false} MixLeads(src: Source, cache: seq<Node>, pages: nat, s: Node, sha512: Sha,
      ms: seq<seq<Word>>, i: nat)
    requires Cache(cache) && Serves(src, pages) && (forall x :: |sha512(x)| == 16) && |s| == 16
    requires MixStates(src, cache, pages, s, sha512, ms) && i <= 64
    ensures Accesses(src, cache, sha512, s, ms[i], pages, i) == ms[64]
    decreases 64 - i
  {
    hide Accesses, MixStep;
    if i == 64 {
      AccessesDone(src, cache, pages, s, sha512, ms[64]);
    } else {
      assert MixStep(src, cache, pages, s, sha512, ms[i], ms[i + 1], i);
      AccessesNext(src, cache, pages, s, sha512, ms[i], ms[i + 1], i);
      MixLeads(src, cache, pages, s, sha512, ms, i + 1);
    }
  }

  lemma AccessesDone(src: Source, cache: seq<Node>, pages: nat, s: Node, sha512: Sha, m: seq<Word>)
    requires Cache(cache) && Serves(src, pages) && (forall x :: |sha512(x)| == 16) && |s| == 16 && |m| == 32
    ensures Accesses(src, cache, sha512, s, m, pages, 64) == m
  {
  }

  /** The mix hash folds the last state four words at a time. */
  lemma MixForm(src: Source, cache: seq<Node>, pages: nat, header: seq<Word>, nonce: seq<Word>, sha512: Sha,
      ms: seq<seq<Word>>, k: nat)
    requires Cache(cache) && Serves(src, pages) && (forall x :: |sha512(x)| == 16) && k < 8
    requires MixStates(src, cache, pages, sha512(header + nonce), sha512, ms)
    ensures var m := ms[64];
            var one := Xor((m[4 * k] as int) * 16777619 % 4294967296, m[4 * k + 1]);
            var two := Xor((one as int) * 16777619 % 4294967296, m[4 * k + 2]);
            |MixOf(src, cache, pages, header, nonce, sha512)| == 8 &&
            MixOf(src, cache, pages, header, nonce, sha512)[k] == Xor((two as int) * 16777619 % 4294967296, m[4 * k + 3])
  {
    hide Accesses, Xor, MixStep;
    MixLeads(src, cache, pages, sha512(header + nonce), sha512, ms, 0);
  }

  lemma MixStatesExist(src: Source, cache: seq<Node>, pages: nat, s: Node, sha512: Sha) returns (ms: seq<seq<Word>>)
    requires Cache(cache) && Serves(src, pages) && (forall x :: |sha512(x)| == 16) && |s| == 16
    ensures MixStates(src, cache, pages, s, sha512, ms)
  {
    hide Xor, MixStep;
    ms := [s + s];
    while |ms| < 65
      invariant 1 <= |ms| <= 65 && (forall j :: 0 <= j < |ms| ==> |ms[j]| == 32) && ms[0] == s + s
      invariant forall j :: 0 <= j < |ms| - 1 ==> MixStep(src, cache, pages, s, sha512, ms[j], ms[j + 1], j)
    {
      var j := |ms| - 1;
      var n := NextMix(src, cache, pages, s, sha512, ms[j], j);
      ms := ms + [n];
    }
  }

  lemma NextMix(src: Source, cache: seq<Node>, pages: nat, s: Node, sha512: Sha, m: seq<Word>, j: nat)
    returns (n: seq<Word>)
    requires Cache(cache) && Serves(src, pages) && (forall x :: |sha512(x)| == 16) && |s| == 16 && |m| == 32 && j < 64
    ensures |n| == 32 && MixStep(src, cache, pages, s, sha512, m, n, j)
  {
    hide Xor, DagItem;
    var page := Xor((Xor(s[0], j) as int) * 16777619 % 4294967296, m[j % 32]) % pages;
    assert 2 * page + 1 < 2 * pages;
    n := seq(32, w requires 0 <= w < 32 =>
      Xor((m[w] as int) * 16777619 % 4294967296, WordAt(src, cache, 2 * page + w / 16, w % 16, sha512)));
  }

  /** Nodes of 64 bytes and pages of 128, counted in 32 bits. */
  lemma SizeForm(size: nat)
    ensures NodeCount(size) == size / 64 % 4294967296 && PageCount(size) == size / 128 % 4294967296
  {
  }

  // ----- in place

  /** The compression writes over words it has already read. */
  method Compress(a: array<Word>, from: nat)
    requires from + MIX_WORDS == a.Length
    modifies a
    ensures a[..from] == old(a[..from]) && a[from..from + 8] == Compressed(old(a[from..]))
  {
    hide Fnv, Reduce;
    ghost var m := a[from..];
    var w := 0;
    ghost var done := 0;
    while w != MIX_WORDS
      invariant 0 <= w == 4 * done <= MIX_WORDS
      invariant forall j :: 0 <= j < from ==> a[j] == old(a[j])
      invariant forall k :: 0 <= k < done ==> a[from + k] == Reduce(m, 4 * k)
      invariant forall j :: w <= j < MIX_WORDS ==> a[from + j] == m[j]
    {
      var reduction := ReduceAt(a, from + w, m, w);
      a[from + w / 4] := reduction;
      w, done := w + 4, done + 1;
    }
  }

  method ReduceAt(a: array<Word>, i: nat, ghost m: seq<Word>, ghost w: nat) returns (reduction: Word)
    requires i + 4 <= a.Length && w + 4 <= |m|
    requires a[i] == m[w] && a[i + 1] == m[w + 1] && a[i + 2] == m[w + 2] && a[i + 3] == m[w + 3]
    ensures reduction == Reduce(m, w)
  {
    hide Fnv;
    reduction := a[i];
    reduction := Fnv(reduction, a[i + 1]);
    reduction := Fnv(reduction, a[i + 2]);
    reduction := Fnv(reduction, a[i + 3]);
  }

  /** One access: two nodes are folded into the mix that stands behind the seed. */
  method Access(buf: array<Word>, src: Source, cache: seq<Node>, pages: nat, i: nat, sha512: Sha)
    requires Cache(cache) && Serves(src, pages) && forall x :: |sha512(x)| == NODE_WORDS
    requires buf.Length == NODE_WORDS + MIX_WORDS && i < ACCESSES
    modifies buf
    ensures buf[..NODE_WORDS] == old(buf[..NODE_WORDS])
    ensures var s, mix := old(buf[..NODE_WORDS]), old(buf[NODE_WORDS..]);
            var p := PageIndex(s, mix, i, pages);
            buf[NODE_WORDS..] ==
            FnvAll(mix, NodeAt(src, cache, MIX_NODES * p, sha512) + NodeAt(src, cache, MIX_NODES * p + 1, sha512))
  {
    hide Fnv, FnvAll, DagItem, Index, Residue, NodeAt, Xor;
    ghost var s, mix := buf[..NODE_WORDS], buf[NODE_WORDS..];
    var index := Index(Fnv(Xor(buf[0], i), buf[NODE_WORDS + Residue(i, MIX_WORDS)]), pages);
    assert index == PageIndex(s, mix, i, pages);
    var first := Fetch(src, cache, MIX_NODES * index, sha512);
    FnvInto(buf, NODE_WORDS, first);
    var second := Fetch(src, cache, index * MIX_NODES + 1, sha512);
    FnvInto(buf, NODE_WORDS + NODE_WORDS, second);
    assert buf[..NODE_WORDS] == s;
    Folded(mix, first + second, buf[NODE_WORDS..]);
  }

  method Fetch(src: Source, cache: seq<Node>, i: nat, sha512: Sha) returns (n: Node)
    requires Cache(cache) && i < LIMIT && (src.Full? ==> i < |src.nodes| && |src.nodes[i]| == NODE_WORDS)
    requires forall x :: |sha512(x)| == NODE_WORDS
    ensures n == NodeAt(src, cache, i, sha512)
  {
    if src.Full? { return src.nodes[i]; }
    var tmp := new Word[NODE_WORDS];
    CalculateDagItem(tmp, i, cache, sha512);
    return tmp[..];
  }

  /** `ethash_hash`, over a stored dataset or a recomputed one. */
  method Hash(src: Source, cache: seq<Node>, fullSize: nat, header: seq<Word>, nonce: seq<Word>, sha512: Sha,
      sha256: Sha)
    returns (ok: bool, mixHash: seq<Word>, result: seq<Word>)
    requires Cache(cache) && Shas(sha512, sha256) && |header| == 8 && |nonce| == 2
    requires fullSize % MIX_WORDS == 0 ==> Serves(src, PageCount(fullSize))
    ensures ok <==> fullSize % 32 == 0
    ensures ok ==> mixHash == MixOf(src, cache, PageCount(fullSize), header, nonce, sha512)
    ensures ok ==> result == sha256(sha512(header + nonce) + mixHash)
  {
    hide Accesses, Compressed, NodeAt;
    mixHash, result := [], [];
    if fullSize % MIX_WORDS != 0 { return false, [], []; }
    var buf := new Word[NODE_WORDS + MIX_WORDS];
    var s := sha512(header + nonce);
    Replicate(buf, s);
    var pages := PageCount(fullSize);
    AccessAll(buf, src, cache, pages, sha512);
    Compress(buf, NODE_WORDS);
    mixHash := buf[NODE_WORDS..NODE_WORDS + 8];
    assert buf[..NODE_WORDS + 8] == s + mixHash;
    result := sha256(buf[..NODE_WORDS + 8]);
    return true, mixHash, result;
  }

  method AccessAll(buf: array<Word>, src: Source, cache: seq<Node>, pages: nat, sha512: Sha)
    requires Cache(cache) && Serves(src, pages) && forall x :: |sha512(x)| == NODE_WORDS
    requires buf.Length == NODE_WORDS + MIX_WORDS
    modifies buf
    ensures buf[..NODE_WORDS] == old(buf[..NODE_WORDS])
    ensures buf[NODE_WORDS..] == Accesses(src, cache, sha512, old(buf[..NODE_WORDS]), old(buf[NODE_WORDS..]), pages, 0)
  {
    hide FnvAll, PageIndex, NodeAt;
    ghost var s, mix := buf[..NODE_WORDS], buf[NODE_WORDS..];
    for i := 0 to ACCESSES
      invariant buf[..NODE_WORDS] == s
      invariant Accesses(src, cache, sha512, s, buf[NODE_WORDS..], pages, i) ==
          Accesses(src, cache, sha512, s, mix, pages, 0)
    {
      Access(buf, src, cache, pages, i, sha512);
    }
  }

  /** The seed in front, and twice over in the mix. */
  method Replicate(buf: array<Word>, s: Node)
    requires buf.Length == NODE_WORDS + MIX_WORDS && |s| == NODE_WORDS
    modifies buf
    ensures buf[..NODE_WORDS] == s && buf[NODE_WORDS..] == s + s
  {
    for w := 0 to NODE_WORDS
      invariant buf[..w] == s[..w]
    {
      buf[w] := s[w];
    }
    for w := 0 to MIX_WORDS
      invariant buf[..NODE_WORDS] == s
      invariant forall j :: 0 <= j < w ==> buf[NODE_WORDS + j] == s[j % NODE_WORDS]
    {
      buf[NODE_WORDS + w] := buf[w % NODE_WORDS];
    }
    forall j | 0 <= j < MIX_WORDS ensures (s + s)[j] == s[j % NODE_WORDS] {}
  }

  /** `ethash_quick_hash` on the returned mix reproduces the returned result. */
  method QuickHash(header: seq<Word>, nonce: seq<Word>, mixHash: seq<Word>, sha512: Sha, sha256: Sha)
      returns (result: seq<Word>)
    requires Shas(sha512, sha256) && |header| == 8 && |nonce| == 2 && |mixHash| == 8
    ensures result == sha256(sha512(header + nonce) + mixHash)
  {
    var buf := header + nonce;
    assert buf[..10] == buf;
    buf := sha512(buf[..10]);
    buf := buf + mixHash;
    result := sha256(buf);
  }
}
