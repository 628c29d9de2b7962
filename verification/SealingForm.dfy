/** What the fields of a committed header and of a replayed block are, said without the functions that compute
    them: the chain of executions behind the receipts, gas as a sum of costs, blooms by their bits, roots by what
    is found under each index, and the reward by the balances. */
module SealingForm {
  import opened BigEndian
  import opened Wrappers
  import opened Sealing
  import OrderedTrie
  import Rlp

  // ----- executions

  /** Each transaction runs on the state the one before left, with the gas its receipt reports as used. */
  ghost predicate Chained(e: Engine, env: Env, prev: Header, ws: seq<World>, rs: seq<Receipt>, txs: seq<Tx>) {
    ChainedFrom(e, env, prev, 0, ws, rs, txs)
  }

  /** The same when `gas` is used already. */
  ghost predicate ChainedFrom(e: Engine, env: Env, prev: Header, gas: nat, ws: seq<World>, rs: seq<Receipt>,
                              txs: seq<Tx>)
  {
    && |ws| == |txs| + 1 && |rs| == |txs|
    && forall i :: 0 <= i < |txs| ==>
         e.exec(ws[i], env, prev, if i == 0 then gas else rs[i - 1].gas, txs[i]) == Some((ws[i + 1], rs[i]))
  }

  lemma ChainedPrefix(e: Engine, env: Env, prev: Header, ws: seq<World>, rs: seq<Receipt>, txs: seq<Tx>)
    requires txs != [] && Chained(e, env, prev, ws, rs, txs)
    ensures var n := |txs| - 1; Chained(e, env, prev, ws[..n + 1], rs[..n], txs[..n])
  {
  }

  lemma ChainedMore(e: Engine, env: Env, prev: Header, gas: nat, ws: seq<World>, rs: seq<Receipt>, txs: seq<Tx>,
                    w: World, r: Receipt, t: Tx)
    requires ChainedFrom(e, env, prev, gas, ws, rs, txs)
    requires e.exec(ws[|txs|], env, prev, if txs == [] then gas else rs[|txs| - 1].gas, t) == Some((w, r))
    ensures ChainedFrom(e, env, prev, gas, ws + [w], rs + [r], txs + [t])
  {
  }

  /** The fold is the end of the one chain of executions that starts at `w0`. */
  lemma {:induction false} FoldEnds(e: Engine, env: Env, prev: Header, ws: seq<World>, rs: seq<Receipt>, txs: seq<Tx>)
    requires Chained(e, env, prev, ws, rs, txs)
    ensures Fold(e, env, prev, ws[0], txs) == Some((ws[|txs|], rs))
    decreases |txs|
  {
    if txs != [] {
      var n := |txs| - 1;
      ChainedPrefix(e, env, prev, ws, rs, txs);
      FoldEnds(e, env, prev, ws[..n + 1], rs[..n], txs[..n]);
      assert rs == rs[..n] + [rs[n]];
    }
  }

  /** A fold that is some comes from such a chain. */
  lemma {:induction false} FoldChains(e: Engine, env: Env, prev: Header, w0: World, txs: seq<Tx>)
    returns (ws: seq<World>)
    requires Fold(e, env, prev, w0, txs).Some?
    ensures var f := Fold(e, env, prev, w0, txs).value;
            Chained(e, env, prev, ws, f.1, txs) && ws[0] == w0 && ws[|txs|] == f.0
    decreases |txs|
  {
    if txs == [] {
      ws := [w0];
    } else {
      var n := |txs| - 1;
      var f, g := Fold(e, env, prev, w0, txs[..n]).value, Fold(e, env, prev, w0, txs).value;
      var vs := FoldChains(e, env, prev, w0, txs[..n]);
      ws := vs + [g.0];
      assert txs == txs[..n] + [txs[n]];
      ChainedMore(e, env, prev, 0, vs, f.1, txs[..n], g.0, g.1[n], txs[n]);
    }
  }

  /** The transactions run one after the other from `w0` to `w`, with these receipts. */
  ghost predicate RunsTo(e: Engine, env: Env, prev: Header, w0: World, txs: seq<Tx>, w: World, rs: seq<Receipt>) {
    exists ws :: Chained(e, env, prev, ws, rs, txs) && ws[0] == w0 && ws[|txs|] == w
  }

  /** The fold tells exactly where the transactions lead, if they run. */
  lemma FoldExact(e: Engine, env: Env, prev: Header, w0: World, txs: seq<Tx>, w: World, rs: seq<Receipt>)
    ensures RunsTo(e, env, prev, w0, txs, w, rs) <==> Fold(e, env, prev, w0, txs) == Some((w, rs))
    ensures RunsTo(e, env, prev, w0, txs, w, rs) ==> |rs| == |txs|
  {
    hide Fold;
    if RunsTo(e, env, prev, w0, txs, w, rs) {
      var ws :| Chained(e, env, prev, ws, rs, txs) && ws[0] == w0 && ws[|txs|] == w;
      FoldEnds(e, env, prev, ws, rs, txs);
    }
    if Fold(e, env, prev, w0, txs) == Some((w, rs)) { var ws := FoldChains(e, env, prev, w0, txs); }
  }

  // ----- the fields

  /** The reward goes to the author, modulo 2^256, and changes nothing else. */
  ghost predicate Pays(e: Engine, env: Env, w: World, v: World) {
    && v.rest == w.rest
    && (forall a :: Balance(v, a) == if a != env.author then Balance(w, a) else
          (Balance(w, a) + e.reward(env.number)) %
          0x10000000000000000000000000000000000000000000000000000000000000000)
    && (forall a :: a in v.balances <==> a in w.balances || a == env.author)
  }

  lemma RewardForm(e: Engine, env: Env, w: World)
    ensures Pays(e, env, w, Rewarded(e, env, w))
  {
  }

  lemma PaysOnce(e: Engine, env: Env, w: World, u: World, v: World)
    requires Pays(e, env, w, u) && Pays(e, env, w, v)
    ensures u == v
  {
    forall a | a in u.balances ensures a in v.balances && u.balances[a] == v.balances[a] {
      assert Balance(u, a) == Balance(v, a);
    }
    forall a | a in v.balances ensures a in u.balances {}
    assert u.balances == v.balances;
  }

  lemma {:induction false} BloomBits(rs: seq<Receipt>, bit: nat)
    ensures bit in Bloom(rs) <==> exists i :: 0 <= i < |rs| && bit in rs[i].bloom
    decreases |rs|
  {
    if rs != [] {
      BloomBits(rs[..|rs| - 1], bit);
      if bit in Bloom(rs[..|rs| - 1]) {
        var i :| 0 <= i < |rs| - 1 && bit in rs[..|rs| - 1][i].bloom;
        assert bit in rs[i].bloom;
      }
      if i :| 0 <= i < |rs| - 1 && bit in rs[i].bloom { assert bit in rs[..|rs| - 1][i].bloom; }
    }
  }

  lemma {:induction false} HashMembers(txs: seq<Tx>, x: int)
    ensures x in HashSet(txs) <==> exists i :: 0 <= i < |txs| && txs[i].hash == x
    decreases |txs|
  {
    if txs != [] {
      HashMembers(txs[..|txs| - 1], x);
      if x in HashSet(txs[..|txs| - 1]) {
        var i :| 0 <= i < |txs| - 1 && txs[..|txs| - 1][i].hash == x;
        assert txs[i].hash == x;
      }
      if i :| 0 <= i < |txs| - 1 && txs[i].hash == x { assert txs[..|txs| - 1][i].hash == x; }
    }
  }

  /** The root of a map that holds the strings under their encoded indices and nothing else. */
  ghost predicate RootOfList(e: Engine, root: int, codes: seq<Bytes>) {
    exists m: map<Bytes, Bytes> ::
      && root == e.mapRoot(m)
      && (forall i :: 0 <= i < |codes| ==> Rlp.EncodeInt(i) in m && m[Rlp.EncodeInt(i)] == codes[i])
      && (forall k :: k in m ==> exists i :: 0 <= i < |codes| && k == Rlp.EncodeInt(i))
  }

  lemma OrderedRoot(e: Engine, codes: seq<Bytes>)
    requires |codes| <= 0xffff_ffff
    ensures RootOfList(e, e.mapRoot(OrderedTrie.OrderedMap(codes)), codes)
  {
    hide OrderedTrie.OrderedMap, Rlp.EncodeInt;
    var m := OrderedTrie.OrderedMap(codes);
    forall i | 0 <= i < |codes| ensures Rlp.EncodeInt(i) in m && m[Rlp.EncodeInt(i)] == codes[i] {
      OrderedTrie.OrderedMapAt(codes, i);
    }
    forall k | k in m ensures exists i :: 0 <= i < |codes| && k == Rlp.EncodeInt(i) {
      var i := OrderedTrie.OrderedMapKeys(codes, k);
    }
  }

  /** The list that a root stands for is unique, as far as the root function separates maps. */
  lemma RootOfOneList(e: Engine, root: int, codes: seq<Bytes>)
    requires |codes| <= 0xffff_ffff && RootOfList(e, root, codes)
    ensures root == e.mapRoot(OrderedTrie.OrderedMap(codes))
  {
    hide OrderedTrie.OrderedMap, Rlp.EncodeInt;
    var m: map<Bytes, Bytes> :|
      && root == e.mapRoot(m)
      && (forall i :: 0 <= i < |codes| ==> Rlp.EncodeInt(i) in m && m[Rlp.EncodeInt(i)] == codes[i])
      && (forall k :: k in m ==> exists i :: 0 <= i < |codes| && k == Rlp.EncodeInt(i));
    var n := OrderedTrie.OrderedMap(codes);
    forall k | k in m ensures k in n && m[k] == n[k] {
      var i :| 0 <= i < |codes| && k == Rlp.EncodeInt(i);
      OrderedTrie.OrderedMapAt(codes, i);
    }
    forall k | k in n ensures k in m {
      var i := OrderedTrie.OrderedMapKeys(codes, k);
    }
    assert m == n;
  }

  /** The gas of the last receipt. */
  ghost predicate LastGas(gas: nat, rs: seq<Receipt>) {
    if |rs| == 0 then gas == 0 else gas == rs[|rs| - 1].gas
  }

  /** Receipts, bloom and gas agree. */
  ghost predicate Summarises(e: Engine, h: Header, rs: seq<Receipt>) {
    && LastGas(h.gasUsed, rs)
    && (forall bit :: bit in h.bloom <==> exists i :: 0 <= i < |rs| && bit in rs[i].bloom)
    && (|rs| <= 0xffff_ffff ==> RootOfList(e, h.receiptsRoot, ReceiptCodes(rs)))
  }

  lemma FilledSummarises(e: Engine, h: Header, rs: seq<Receipt>)
    requires h.gasUsed == GasUsed(rs) && h.bloom == Bloom(rs)
    requires h.receiptsRoot == e.mapRoot(OrderedTrie.OrderedMap(ReceiptCodes(rs)))
    ensures Summarises(e, h, rs)
  {
    hide Bloom, OrderedTrie.OrderedMap, RootOfList;
    forall bit ensures bit in h.bloom <==> exists i :: 0 <= i < |rs| && bit in rs[i].bloom { BloomBits(rs, bit); }
    if |rs| <= 0xffff_ffff { OrderedRoot(e, ReceiptCodes(rs)); }
  }

  lemma SummaryIsFilled(e: Engine, h: Header, rs: seq<Receipt>)
    requires Summarises(e, h, rs) && |rs| <= 0xffff_ffff
    ensures h.gasUsed == GasUsed(rs) && h.bloom == Bloom(rs)
    ensures h.receiptsRoot == e.mapRoot(OrderedTrie.OrderedMap(ReceiptCodes(rs)))
  {
    hide Bloom, OrderedTrie.OrderedMap, RootOfList;
    forall bit ensures bit in h.bloom <==> bit in Bloom(rs) { BloomBits(rs, bit); }
    RootOfOneList(e, h.receiptsRoot, ReceiptCodes(rs));
  }

  /** The codes that go under the roots are those of the transactions and receipts, in order. */
  lemma CodesForm(txs: seq<Tx>, rs: seq<Receipt>)
    ensures |TxCodes(txs)| == |txs| && forall i :: 0 <= i < |txs| ==> TxCodes(txs)[i] == txs[i].code
    ensures |ReceiptCodes(rs)| == |rs| && forall i :: 0 <= i < |rs| ==> ReceiptCodes(rs)[i] == rs[i].code
  {
  }

  /** After every run, what a committed header says: the transactions ran one after the other on the parent's
      state, the header sums up their receipts, its state root is that of the last state with the reward paid,
      and its transaction root that of their codes. */
  lemma CommittedHeader(e: Engine, w0: World, header: Header, prev: Header, evs: seq<Event>) returns (ws: seq<World>)
    requires Steps(e, Fresh(w0, header, prev), evs).committed
    ensures var b := Steps(e, Fresh(w0, header, prev), evs);
            && Chained(e, header.env, prev, ws, b.receipts, b.txs) && ws[0] == w0
            && Summarises(e, b.header, b.receipts)
            && (|b.txs| <= 0xffff_ffff ==> RootOfList(e, b.header.txRoot, TxCodes(b.txs)))
            && (exists v :: Pays(e, header.env, ws[|b.txs|], v) && b.header.stateRoot == e.stateRoot(v) &&
                            b.state == if b.sealed then ws[|b.txs|] else v)
            && b.precommit == ws[|b.txs|]
            && b.header.env == header.env && b.header.parent == e.hash(prev) && |b.header.extra| <= 32
  {
    hide Steps, Fold, Bloom, OrderedTrie.OrderedMap, GasUsed, AddBalance, RootOfList, Summarises, Pays, HashSet;
    var b := Steps(e, Fresh(w0, header, prev), evs);
    FreshInv(e, w0, header, prev);
    StepsInv(e, Fresh(w0, header, prev), w0, evs);
    ws := FoldChains(e, b.header.env, prev, w0, b.txs);
    FilledSummarises(e, b.header, b.receipts);
    if |b.txs| <= 0xffff_ffff { OrderedRoot(e, TxCodes(b.txs)); }
    RewardForm(e, header.env, ws[|b.txs|]);
  }

  /** What one commitment does, and when it is refused. */
  lemma CommitForm(e: Engine, b: Block, extra: Bytes)
    ensures CommitToSeal(e, b, extra).Ok? <==> !b.sealed
    ensures !b.sealed ==>
              var c := CommitToSeal(e, b, extra).value;
              && c.committed && c.txs == b.txs && c.receipts == b.receipts && c.hashes == b.hashes && c.prev == b.prev
              && c.precommit == (if b.committed then b.precommit else b.state)
              && Pays(e, b.header.env, c.precommit, c.state) && c.header.stateRoot == e.stateRoot(c.state)
              && c.header.env == b.header.env && c.header.seal == b.header.seal && c.header.parent == e.hash(b.prev)
              && c.header.extra <= extra && |c.header.extra| == Min(|extra|, 32)
  {
    hide Bloom, OrderedTrie.OrderedMap, GasUsed, AddBalance, Pays, TxCodes, ReceiptCodes;
    if !b.sealed { RewardForm(e, b.header.env, if b.committed then b.precommit else b.state); }
  }

  /** What executing a transaction does, and when it is refused. */
  lemma ExecuteForm(e: Engine, b: Block, prev: Header, t: Tx)
    ensures var w := if b.committed then b.precommit else b.state;
            var gas := if |b.receipts| == 0 then 0 else b.receipts[|b.receipts| - 1].gas;
            var x, r := e.exec(w, b.header.env, prev, gas, t), Execute(e, b, prev, t);
            && (r == Err(SealedBlock) <==> b.sealed)
            && (r == Err(BadTransaction) <==> !b.sealed && x == None)
            && (r.Ok? <==> !b.sealed && x.Some?)
            && (r.Ok? ==>
                  && r.value.state == x.value.0 && r.value.txs == b.txs + [t]
                  && r.value.receipts == b.receipts + [x.value.1]
                  && r.value.hashes == b.hashes + {t.hash} && !r.value.committed && !r.value.sealed
                  && r.value.header == b.header && r.value.prev == b.prev)
  {
  }

  /** A copy has everything but the commitment, and takes the present state for the one before it. */
  lemma CopyForm(b: Block)
    ensures var c := Copy(b);
            && c.txs == b.txs && c.receipts == b.receipts && c.hashes == b.hashes && c.header == b.header
            && c.prev == b.prev && c.sealed == b.sealed && c.state == c.precommit == b.state && !c.committed
  {
  }

  // ----- gas is a sum of costs

  ghost function Sum(cost: Tx -> nat, txs: seq<Tx>): nat {
    if txs == [] then 0 else cost(txs[0]) + Sum(cost, txs[1..])
  }

  lemma {:induction false} SumAppend(cost: Tx -> nat, txs: seq<Tx>, t: Tx)
    ensures Sum(cost, txs + [t]) == Sum(cost, txs) + cost(t)
    decreases |txs|
  {
    if txs == [] {
      assert txs + [t] == [t];
    } else {
      SumAppend(cost, txs[1..], t);
      assert (txs + [t])[0] == txs[0] && (txs + [t])[1..] == txs[1..] + [t];
    }
  }

  /** Every accepted transaction adds its cost to the gas used before it. */
  ghost predicate Charges(e: Engine, cost: Tx -> nat) {
    forall w, env, prev, g: nat, t ::
      e.exec(w, env, prev, g, t).Some? ==> e.exec(w, env, prev, g, t).value.1.gas == g + cost(t)
  }

  lemma {:induction false} ChainedGas(e: Engine, env: Env, prev: Header, ws: seq<World>, rs: seq<Receipt>, txs: seq<Tx>,
      cost: Tx -> nat)
    requires Charges(e, cost) && Chained(e, env, prev, ws, rs, txs)
    ensures LastGas(Sum(cost, txs), rs)
    decreases |txs|
  {
    if txs != [] {
      var n := |txs| - 1;
      ChainedPrefix(e, env, prev, ws, rs, txs);
      ChainedGas(e, env, prev, ws[..n + 1], rs[..n], txs[..n], cost);
      SumAppend(cost, txs[..n], txs[n]);
      assert txs == txs[..n] + [txs[n]];
      assert e.exec(ws[n], env, prev, if n == 0 then 0 else rs[n - 1].gas, txs[n]) == Some((ws[n + 1], rs[n]));
    }
  }

  /** A committed header reports the sum of the costs of its transactions. */
  lemma GasIsSum(e: Engine, w0: World, header: Header, prev: Header, evs: seq<Event>, cost: Tx -> nat)
    requires Charges(e, cost) && Steps(e, Fresh(w0, header, prev), evs).committed
    ensures var b := Steps(e, Fresh(w0, header, prev), evs); b.header.gasUsed == Sum(cost, b.txs)
  {
    hide Steps, Charges, Chained, Pays, RootOfList;
    var ws := CommittedHeader(e, w0, header, prev, evs);
    var b := Steps(e, Fresh(w0, header, prev), evs);
    ChainedGas(e, header.env, prev, ws, b.receipts, b.txs, cost);
  }

  // ----- replay

  ghost predicate Acceptable(e: Engine, prev: Header, header: Header, w: World, rs: seq<Receipt>) {
    Summarises(e, header, rs) && (header.stateRoot == prev.stateRoot || PaidRoot(e, header, w))
  }

  lemma AcceptableExact(e: Engine, prev: Header, header: Header, w: World, rs: seq<Receipt>)
    requires |rs| <= 0xffff_ffff
    ensures Acceptable(e, prev, header, w, rs) <==>
            && header.receiptsRoot == e.mapRoot(OrderedTrie.OrderedMap(ReceiptCodes(rs)))
            && header.bloom == Bloom(rs) && header.gasUsed == GasUsed(rs)
            && (header.stateRoot == prev.stateRoot || header.stateRoot == e.stateRoot(Rewarded(e, header.env, w)))
  {
    hide Summarises, Bloom, OrderedTrie.OrderedMap, GasUsed, Rewarded, PaidRoot;
    if Summarises(e, header, rs) { SummaryIsFilled(e, header, rs); }
    if && header.receiptsRoot == e.mapRoot(OrderedTrie.OrderedMap(ReceiptCodes(rs)))
       && header.bloom == Bloom(rs) && header.gasUsed == GasUsed(rs)
    {
      FilledSummarises(e, header, rs);
    }
    PaidRootExact(e, header, w);
  }

  /** A block is accepted on a parent exactly if its transactions run there one after the other, the header sums up
      their receipts, and its state root is the parent's or that of the last state with the reward paid. */
  lemma EnactForm(e: Engine, w0: World, blank: Header, prev: Header, header: Header, txs: seq<Tx>)
    requires blank.parent == e.hash(prev) && |txs| <= 0xffff_ffff
    ensures Enact(e, Fresh(w0, blank, prev), header, txs).Ok? <==>
            exists w, rs :: RunsTo(e, header.env, prev, w0, txs, w, rs) && Acceptable(e, prev, header, w, rs)
  {
    hide Enact, Fold, Bloom, OrderedTrie.OrderedMap, GasUsed, Rewarded, RunsTo, Acceptable;
    EnactExact(e, w0, blank, prev, header, txs);
    var f := Fold(e, header.env, prev, w0, txs);
    if f.Some? {
      FoldExact(e, header.env, prev, w0, txs, f.value.0, f.value.1);
      AcceptableExact(e, prev, header, f.value.0, f.value.1);
    }
    forall w, rs | RunsTo(e, header.env, prev, w0, txs, w, rs) ensures f == Some((w, rs)) {
      FoldExact(e, header.env, prev, w0, txs, w, rs);
    }
  }

  /** And then its gas is the sum of the costs. */
  lemma EnactGas(e: Engine, w0: World, blank: Header, prev: Header, header: Header, txs: seq<Tx>, cost: Tx -> nat)
    requires blank.parent == e.hash(prev) && Charges(e, cost)
    requires Enact(e, Fresh(w0, blank, prev), header, txs).Ok?
    ensures header.gasUsed == Sum(cost, txs)
  {
    hide Enact, Fold, Bloom, OrderedTrie.OrderedMap, Charges, Chained, Rewarded;
    EnactExact(e, w0, blank, prev, header, txs);
    var ws := FoldChains(e, header.env, prev, w0, txs);
    ChainedGas(e, header.env, prev, ws, Fold(e, header.env, prev, w0, txs).value.1, txs, cost);
  }

  /** Which error a refused block is given: parent before transactions. */
  lemma EnactErrors(e: Engine, w0: World, blank: Header, prev: Header, header: Header, txs: seq<Tx>)
    ensures var r := Enact(e, Fresh(w0, blank, prev), header, txs);
            var run := exists w, rs :: RunsTo(e, header.env, prev, w0, txs, w, rs);
            && (r == Err(BadParent) <==> blank.parent != e.hash(prev))
            && (r == Err(BadTransaction) <==> blank.parent == e.hash(prev) && !run)
            && r != Err(SealedBlock)
  {
    hide OrderedTrie.OrderedMap, ReceiptCodes, Bloom, GasUsed, AddBalance, Fold, HashSet, ExecuteAll, RunsTo;
    ExecuteAllFolds(e, w0, header, prev, txs);
    ExecuteAllGrows(e, Fresh(w0, header, prev), txs);
    assert Fresh(w0, blank, prev).(header := header) == Fresh(w0, header, prev);
    var f := Fold(e, header.env, prev, w0, txs);
    if f.Some? { FoldExact(e, header.env, prev, w0, txs, f.value.0, f.value.1); }
    forall w, rs | RunsTo(e, header.env, prev, w0, txs, w, rs) ensures f == Some((w, rs)) {
      FoldExact(e, header.env, prev, w0, txs, w, rs);
    }
  }

  /** Then receipts root before bloom before state root before gas. */
  lemma LaterErrors(e: Engine, w0: World, blank: Header, prev: Header, header: Header, txs: seq<Tx>, w: World,
      rs: seq<Receipt>)
    requires blank.parent == e.hash(prev) && |txs| <= 0xffff_ffff && RunsTo(e, header.env, prev, w0, txs, w, rs)
    ensures var r := Enact(e, Fresh(w0, blank, prev), header, txs);
            var receipts := RootOfList(e, header.receiptsRoot, ReceiptCodes(rs));
            var bloom := forall bit :: bit in header.bloom <==> exists i :: 0 <= i < |rs| && bit in rs[i].bloom;
            var root := header.stateRoot == prev.stateRoot || PaidRoot(e, header, w);
            && (r == Err(BadReceiptsRoot) <==> !receipts)
            && (r == Err(BadBloom) <==> receipts && !bloom)
            && (r == Err(BadStateRoot) <==> receipts && bloom && !root)
            && (r == Err(BadGasUsed) <==> receipts && bloom && root && !LastGas(header.gasUsed, rs))
  {
    hide OrderedTrie.OrderedMap, ReceiptCodes, Bloom, Rewarded, Fold, HashSet, ExecuteAll, RunsTo, RootOfList, PaidRoot;
    FoldExact(e, header.env, prev, w0, txs, w, rs);
    ExecuteAllFolds(e, w0, header, prev, txs);
    ExecuteAllGrows(e, Fresh(w0, header, prev), txs);
    assert Fresh(w0, blank, prev).(header := header) == Fresh(w0, header, prev) && rs[0..] == rs;
    RootExact(e, header.receiptsRoot, ReceiptCodes(rs));
    BloomExact(header.bloom, rs);
    PaidRootExact(e, header, w);
  }

  ghost predicate PaidRoot(e: Engine, header: Header, w: World) {
    exists v :: Pays(e, header.env, w, v) && header.stateRoot == e.stateRoot(v)
  }

  lemma PaidRootExact(e: Engine, header: Header, w: World)
    ensures PaidRoot(e, header, w) <==> header.stateRoot == e.stateRoot(Rewarded(e, header.env, w))
  {
    hide Rewarded, Pays;
    RewardForm(e, header.env, w);
    forall v | Pays(e, header.env, w, v) ensures v == Rewarded(e, header.env, w) {
      PaysOnce(e, header.env, w, v, Rewarded(e, header.env, w));
    }
  }

  // ----- replay on a block that is not fresh

  lemma {:induction false} ExecuteAllChains(e: Engine, b: Block, txs: seq<Tx>) returns (ws: seq<World>)
    requires !b.sealed && !b.committed && ExecuteAll(e, b, txs).Ok?
    ensures var c := ExecuteAll(e, b, txs).value;
            && b.receipts <= c.receipts && !c.sealed && !c.committed
            && ChainedFrom(e, b.header.env, b.prev, GasUsed(b.receipts), ws, c.receipts[|b.receipts|..], txs)
            && ws[0] == b.state && c.state == ws[|txs|] && c.header == b.header && c.prev == b.prev
    decreases |txs|
  {
    hide Execute, GasUsed;
    if txs == [] {
      ws := [b.state];
      assert b.receipts[|b.receipts|..] == [];
    } else {
      var n := |txs| - 1;
      var c, d := ExecuteAll(e, b, txs[..n]).value, ExecuteAll(e, b, txs).value;
      var vs := ExecuteAllChains(e, b, txs[..n]);
      ws := vs + [d.state];
      var rs := c.receipts[|b.receipts|..];
      ExecuteNext(e, b, txs, c, rs);
      var r := d.receipts[|c.receipts|];
      ChainedMore(e, b.header.env, b.prev, GasUsed(b.receipts), vs, rs, txs[..n], d.state, r, txs[n]);
      assert txs == txs[..n] + [txs[n]] && d.receipts[|b.receipts|..] == rs + [r];
    }
  }

  lemma ExecuteNext(e: Engine, b: Block, txs: seq<Tx>, c: Block, rs: seq<Receipt>)
    requires txs != [] && ExecuteAll(e, b, txs).Ok? && ExecuteAll(e, b, txs[..|txs| - 1]) == Ok(c)
    requires c.receipts == b.receipts + rs && |rs| == |txs| - 1 && !c.sealed && !c.committed
    ensures var d, n := ExecuteAll(e, b, txs).value, |txs| - 1;
            && |d.receipts| == |c.receipts| + 1 && c.receipts <= d.receipts && !d.sealed && !d.committed
            && d.header == c.header && d.prev == c.prev
            && e.exec(c.state, c.header.env, b.prev, if n == 0 then GasUsed(b.receipts) else rs[n - 1].gas, txs[n]) ==
               Some((d.state, d.receipts[|c.receipts|]))
  {
    assert rs == [] ==> c.receipts == b.receipts;
  }

  lemma {:induction false} ChainsExecute(e: Engine, b: Block, txs: seq<Tx>, ws: seq<World>, rs: seq<Receipt>)
    requires !b.sealed && !b.committed && ws != [] && ws[0] == b.state
    requires ChainedFrom(e, b.header.env, b.prev, GasUsed(b.receipts), ws, rs, txs)
    ensures ExecuteAll(e, b, txs).Ok?
    ensures var c := ExecuteAll(e, b, txs).value;
            c.receipts == b.receipts + rs && c.state == ws[|txs|] && !c.sealed && !c.committed && c.header == b.header &&
            c.prev == b.prev
    decreases |txs|
  {
    if txs == [] {
      assert b.receipts + rs == b.receipts;
    } else {
      var n := |txs| - 1;
      ChainsExecute(e, b, txs[..n], ws[..n + 1], rs[..n]);
      assert rs == rs[..n] + [rs[n]];
      var c := ExecuteAll(e, b, txs[..n]).value;
      assert GasUsed(c.receipts) == if n == 0 then GasUsed(b.receipts) else rs[n - 1].gas;
      assert e.exec(ws[n], b.header.env, b.prev, GasUsed(c.receipts), txs[n]) == Some((ws[n + 1], rs[n]));
      assert b.receipts + rs[..n] + [rs[n]] == b.receipts + rs;
    }
  }

  /** On any block that is neither committed nor sealed: the receipts root is that of the new receipts alone, while
      bloom and gas are those of all the block's receipts. */
  lemma EnactAny(e: Engine, b: Block, header: Header, txs: seq<Tx>)
    requires !b.sealed && !b.committed && b.header.parent == e.hash(b.prev) && |txs| <= 0xffff_ffff
    ensures Enact(e, b, header, txs).Ok? <==>
            exists ws, rs :: EnactsBy(e, b, header, txs, ws, rs)
  {
    hide OrderedTrie.OrderedMap, ReceiptCodes, Bloom, Rewarded, ExecuteAll, RootOfList, PaidRoot, GasUsed;
    var start := b.(header := header);
    ExecuteAllGrows(e, start, txs);
    var r := ExecuteAll(e, start, txs);
    if r.Ok? {
      var ws := ExecuteAllChains(e, start, txs);
      var rs := r.value.receipts[|b.receipts|..];
      assert r.value.receipts == b.receipts + rs;
      EnactsExact(e, b, header, txs, ws, rs);
    }
    forall ws, rs | EnactsBy(e, b, header, txs, ws, rs) ensures Enact(e, b, header, txs).Ok? {
      ChainsExecute(e, start, txs, ws, rs);
      assert (b.receipts + rs)[|b.receipts|..] == rs;
      EnactsExact(e, b, header, txs, ws, rs);
    }
  }

  ghost predicate EnactsBy(e: Engine, b: Block, header: Header, txs: seq<Tx>, ws: seq<World>, rs: seq<Receipt>) {
    && ChainedFrom(e, header.env, b.prev, GasUsed(b.receipts), ws, rs, txs) && ws[0] == b.state
    && RootOfList(e, header.receiptsRoot, ReceiptCodes(rs))
    && (forall bit ::
          bit in header.bloom <==> exists i :: 0 <= i < |b.receipts + rs| && bit in (b.receipts + rs)[i].bloom)
    && (header.stateRoot == b.prev.stateRoot || PaidRoot(e, header, ws[|txs|]))
    && LastGas(header.gasUsed, b.receipts + rs)
  }

  lemma EnactsExact(e: Engine, b: Block, header: Header, txs: seq<Tx>, ws: seq<World>, rs: seq<Receipt>)
    requires |txs| <= 0xffff_ffff
    requires ChainedFrom(e, header.env, b.prev, GasUsed(b.receipts), ws, rs, txs) && ws[0] == b.state
    ensures EnactsBy(e, b, header, txs, ws, rs) <==>
            && header.receiptsRoot == e.mapRoot(OrderedTrie.OrderedMap(ReceiptCodes(rs)))
            && header.bloom == Bloom(b.receipts + rs) && header.gasUsed == GasUsed(b.receipts + rs)
            && (|| header.stateRoot == b.prev.stateRoot
                || header.stateRoot == e.stateRoot(Rewarded(e, header.env, ws[|txs|])))
  {
    hide OrderedTrie.OrderedMap, Bloom, Rewarded, RootOfList, PaidRoot;
    RootExact(e, header.receiptsRoot, ReceiptCodes(rs));
    BloomExact(header.bloom, b.receipts + rs);
    PaidRootExact(e, header, ws[|txs|]);
  }

  lemma RootExact(e: Engine, root: int, codes: seq<Bytes>)
    requires |codes| <= 0xffff_ffff
    ensures RootOfList(e, root, codes) <==> root == e.mapRoot(OrderedTrie.OrderedMap(codes))
  {
    hide RootOfList, OrderedTrie.OrderedMap;
    OrderedRoot(e, codes);
    if RootOfList(e, root, codes) { RootOfOneList(e, root, codes); }
  }

  lemma BloomExact(bloom: set<nat>, rs: seq<Receipt>)
    ensures bloom == Bloom(rs) <==> forall bit :: bit in bloom <==> exists i :: 0 <= i < |rs| && bit in rs[i].bloom
  {
    hide Bloom;
    forall bit ensures bit in Bloom(rs) <==> exists i :: 0 <= i < |rs| && bit in rs[i].bloom { BloomBits(rs, bit); }
    if forall bit :: bit in bloom <==> exists i :: 0 <= i < |rs| && bit in rs[i].bloom {
      forall bit ensures bit in bloom <==> bit in Bloom(rs) {}
    }
  }
}
