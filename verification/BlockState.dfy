/** Class `Block`: the fields that are updated in place. Each method does to the fields what the
    function of the same name in module `Sealing` does to the value. */
module BlockState {
  import opened BigEndian
  import opened Wrappers
  import opened Sealing
  import S = Sealing
  import OrderedTrie
  import TrieHash
  import Rlp

  class Pending {
    var state: World
    var precommit: World
    var committed: bool
    var sealed: bool
    var txs: seq<Tx>
    var receipts: seq<Receipt>
    var hashes: set<int>
    var header: Header
    var prev: Header

    function Abs(): Block
      reads this
    {
      Block(state, precommit, committed, sealed, txs, receipts, hashes, header, prev)
    }

    constructor (w0: World, h: Header, p: Header)
      ensures Abs() == Fresh(w0, h, p)
    {
      state, precommit, committed, sealed := w0, w0, false, false;
      txs, receipts, hashes, header, prev := [], [], {}, h, p;
    }

    method LogBloom() returns (bloom: set<nat>)
      ensures bloom == Bloom(receipts)
    {
      bloom := {};
      for i := 0 to |receipts|
        invariant bloom == Bloom(receipts[..i])
      {
        bloom := bloom + receipts[i].bloom;
        assert receipts[..i + 1][..i] == receipts[..i];
      }
      assert receipts[..|receipts|] == receipts;
    }

    method UncommitToSeal()
      modifies this
      ensures Abs() == Uncommit(old(Abs()))
    {
      if committed {
        state := precommit;
        committed := false;
      }
    }

    /** On a refusal the block is left uncommitted. */
    method Execute(e: Engine, p: Header, t: Tx) returns (r: Result<(), Error>)
      modifies this
      ensures match S.Execute(e, old(Abs()), p, t)
              case Ok(b) => r == Ok(()) && Abs() == b
              case Err(error) => r == Err(error) && Abs() == if old(sealed) then old(Abs()) else Uncommit(old(Abs()))
    {
      if sealed { return Err(SealedBlock); }
      UncommitToSeal();
      var x := e.exec(state, header.env, p, GasUsed(receipts), t);
      if x.None? { return Err(BadTransaction); }
      state := x.value.0;
      txs := txs + [t];
      receipts := receipts + [x.value.1];
      hashes := hashes + {t.hash};
      return Ok(());
    }

    method ApplyRewards(reward: nat)
      modifies this`state
      ensures state == AddBalance(old(state), header.env.author, reward)
    {
      state := AddBalance(state, header.env.author, reward);
    }

    /** The maps under the roots are filled by insertion, keyed by encoded index. */
    method FillMaps() returns (txMap: map<Bytes, Bytes>, receiptMap: map<Bytes, Bytes>)
      requires |txs| == |receipts| <= TrieHash.UINT_MAX
      ensures txMap == OrderedTrie.OrderedMap(TxCodes(txs))
      ensures receiptMap == OrderedTrie.OrderedMap(ReceiptCodes(receipts))
    {
      hide Rlp.EncodeInt;
      txMap, receiptMap := map[], map[];
      for i := 0 to |txs|
        invariant txMap == OrderedTrie.OrderedMap(TxCodes(txs)[..i])
        invariant receiptMap == OrderedTrie.OrderedMap(ReceiptCodes(receipts)[..i])
      {
        var k := Rlp.EncodeInt(i);
        InsertsNew(ReceiptCodes(receipts), i);
        if k !in receiptMap { receiptMap := receiptMap[k := receipts[i].code]; }
        InsertsNew(TxCodes(txs), i);
        if k !in txMap { txMap := txMap[k := txs[i].code]; }
      }
      assert TxCodes(txs)[..|txs|] == TxCodes(txs) && ReceiptCodes(receipts)[..|txs|] == ReceiptCodes(receipts);
    }

    method CommitToSeal(e: Engine, extra: Bytes) returns (r: Result<(), Error>)
      requires |txs| == |receipts| <= TrieHash.UINT_MAX
      modifies this
      ensures match S.CommitToSeal(e, old(Abs()), extra)
              case Ok(b) => r == Ok(()) && Abs() == b
              case Err(error) => r == Err(error) && Abs() == old(Abs())
    {
      hide Bloom, AddBalance, OrderedTrie.OrderedMap;
      if sealed { return Err(SealedBlock); }
      if committed { UncommitToSeal(); } else { precommit := state; }
      var txMap, receiptMap := FillMaps();
      ApplyRewards(e.reward(header.env.number));
      var bloom := LogBloom();
      header := header.(bloom := bloom);
      header := header.(gasUsed := GasUsed(receipts));
      header := header.(txRoot := e.mapRoot(txMap), receiptsRoot := e.mapRoot(receiptMap),
          stateRoot := e.stateRoot(state));
      header := header.(parent := e.hash(prev));
      header := header.(extra := extra);
      if |header.extra| > 32 { header := header.(extra := header.extra[..32]); }
      committed := true;
      return Ok(());
    }

    method SealBlock(h: Header) returns (ok: bool)
      modifies this
      ensures match S.SealBlock(old(Abs()), h)
              case Some(b) => ok && Abs() == b
              case None => !ok && Abs() == old(Abs())
    {
      if !committed { return false; }
      if h.(seal := []) != header.(seal := []) { return false; }
      sealed := true;
      header := h;
      state := precommit;
      return true;
    }

    /** Execute a block's transactions, collecting the encodings of their receipts. */
    method ExecuteEach(e: Engine, blockTxs: seq<Tx>) returns (r: Result<(), Error>, codes: seq<Bytes>)
      modifies this
      ensures match ExecuteAll(e, old(Abs()), blockTxs)
              case Ok(b) => r == Ok(()) && Abs() == b && |old(receipts)| <= |receipts| &&
                  codes == ReceiptCodes(receipts[|old(receipts)|..])
              case Err(error) => r == Err(error)
    {
      hide GasUsed;
      ghost var before := |receipts|;
      codes := [];
      assert blockTxs[..0] == [];
      for i := 0 to |blockTxs|
        invariant ExecuteAll(e, old(Abs()), blockTxs[..i]) == Ok(Abs()) && prev == old(prev)
        invariant before <= |receipts| && codes == ReceiptCodes(receipts[before..])
      {
        assert blockTxs[..i + 1][..i] == blockTxs[..i];
        ghost var rs := receipts;
        var x := Execute(e, prev, blockTxs[i]);
        if x.Err? {
          ExecuteAllFails(e, old(Abs()), blockTxs, i + 1);
          return Err(x.error), [];
        }
        codes := codes + [receipts[|receipts| - 1].code];
        CodesAppend(rs, receipts, before);
      }
      assert blockTxs[..|blockTxs|] == blockTxs;
      return Ok(()), codes;
    }

    /** After an error only the report is promised. */
    method Enact(e: Engine, h: Header, blockTxs: seq<Tx>) returns (r: Result<(), Error>)
      modifies this
      ensures match S.Enact(e, old(Abs()), h, blockTxs)
              case Ok(b) => r == Ok(()) && Abs() == b
              case Err(error) => r == Err(error)
    {
      hide Bloom, AddBalance, OrderedTrie.OrderedMap, ReceiptCodes, GasUsed, ExecuteAll;
      if header.parent != e.hash(prev) { return Err(BadParent); }
      header := h;
      var codes;
      r, codes := ExecuteEach(e, blockTxs);
      if r.Err? { return; }
      if e.mapRoot(OrderedTrie.OrderedMap(codes)) != header.receiptsRoot { return Err(BadReceiptsRoot); }
      var bloom := LogBloom();
      if header.bloom != bloom { return Err(BadBloom); }
      ApplyRewards(e.reward(header.env.number));
      if header.stateRoot != prev.stateRoot && header.stateRoot != e.stateRoot(state) { return Err(BadStateRoot); }
      if header.gasUsed != GasUsed(receipts) { return Err(BadGasUsed); }
      return Ok(());
    }
  }

  lemma CodesAppend(rs: seq<Receipt>, more: seq<Receipt>, from: nat)
    requires from <= |rs| && |more| == |rs| + 1 && more[..|rs|] == rs
    ensures ReceiptCodes(more[from..]) == ReceiptCodes(rs[from..]) + [more[|rs|].code]
  {
    assert more[from..] == rs[from..] + [more[|rs|]];
  }

  /** The next index is not yet a key, and adding it gives the next map. */
  lemma InsertsNew(data: seq<Bytes>, i: nat)
    requires i < |data| <= TrieHash.UINT_MAX
    ensures Rlp.EncodeInt(i) !in OrderedTrie.OrderedMap(data[..i])
    ensures OrderedTrie.OrderedMap(data[..i + 1]) == OrderedTrie.OrderedMap(data[..i])[Rlp.EncodeInt(i) := data[i]]
  {
    hide Rlp.EncodeInt;
    assert data[..i + 1][..i] == data[..i];
    if Rlp.EncodeInt(i) in OrderedTrie.OrderedMap(data[..i]) {
      var j := OrderedTrie.OrderedMapKeys(data[..i], Rlp.EncodeInt(i));
      OrderedTrie.IndexIsUnique(i, j);
    }
  }

  /** A refused transaction is the verdict on the whole list. */
  lemma {:induction false} ExecuteAllFails(e: Engine, b: Block, txs: seq<Tx>, i: nat)
    requires 0 < i <= |txs| && ExecuteAll(e, b, txs[..i]).Err?
    ensures ExecuteAll(e, b, txs) == ExecuteAll(e, b, txs[..i])
    decreases |txs|
  {
    if i < |txs| {
      assert txs[..|txs| - 1][..i] == txs[..i];
      ExecuteAllFails(e, b, txs[..|txs| - 1], i);
    } else {
      assert txs[..i] == txs;
    }
  }
}
