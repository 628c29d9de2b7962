/** The life of a block under construction: transactions are executed, the block is committed for
    sealing with the reward applied, taken back when more transactions arrive, sealed, and replayed
    by whoever imports it. Transaction execution and the hash functions are parameters. */
module Sealing {
  import opened BigEndian
  import opened Wrappers
  import OrderedTrie

  const U256 := 0x1_0000_0000_0000_0000_0000_0000_0000_0000_0000_0000_0000_0000_0000_0000_0000_0000

  /** Account balances and everything else a state holds. */
  datatype World = World(balances: map<int, nat>, rest: int)

  datatype Tx = Tx(hash: int, code: Bytes)

  /** Gas is cumulative over the block; a bloom is its set of bits. */
  datatype Receipt = Receipt(gas: nat, bloom: set<nat>, code: Bytes)

  /** The header fields a running transaction can see. */
  datatype Env = Env(number: nat, author: int, timestamp: nat, difficulty: nat, gasLimit: nat)

  datatype Header = Header(env: Env, parent: int, gasUsed: nat, bloom: set<nat>, txRoot: int, receiptsRoot: int,
                           stateRoot: int, extra: Bytes, seal: Bytes)

  /** Execution of a transaction: none if it is refused. */
  type Exec = (World, Env, Header, nat, Tx) -> Option<(World, Receipt)>

  datatype Engine = Engine(exec: Exec, reward: nat -> nat, mapRoot: map<Bytes, Bytes> -> int,
      stateRoot: World -> int, hash: Header -> int)

  datatype Block = Block(state: World, precommit: World, committed: bool, sealed: bool, txs: seq<Tx>,
                         receipts: seq<Receipt>, hashes: set<int>, header: Header, prev: Header)

  datatype Error = SealedBlock | BadParent | BadTransaction | BadReceiptsRoot | BadBloom | BadStateRoot | BadGasUsed

  // ----- the operations

  function Balance(w: World, a: int): nat {
    if a in w.balances then w.balances[a] else 0
  }

  function AddBalance(w: World, a: int, r: nat): World {
    w.(balances := w.balances[a := (Balance(w, a) + r) % U256])
  }

  function Rewarded(e: Engine, env: Env, w: World): World {
    AddBalance(w, env.author, e.reward(env.number))
  }

  function GasUsed(rs: seq<Receipt>): nat {
    if rs == [] then 0 else rs[|rs| - 1].gas
  }

  function Bloom(rs: seq<Receipt>): set<nat> {
    if rs == [] then {} else Bloom(rs[..|rs| - 1]) + rs[|rs| - 1].bloom
  }

  function TxCodes(txs: seq<Tx>): (r: seq<Bytes>)
    ensures |r| == |txs|
  {
    seq(|txs|, i requires 0 <= i < |txs| => txs[i].code)
  }

  function ReceiptCodes(rs: seq<Receipt>): (r: seq<Bytes>)
    ensures |r| == |rs|
  {
    seq(|rs|, i requires 0 <= i < |rs| => rs[i].code)
  }

  function Uncommit(b: Block): Block {
    if b.committed then b.(state := b.precommit, committed := false) else b
  }

  function Execute(e: Engine, b: Block, prev: Header, t: Tx): Result<Block, Error> {
    if b.sealed then Err(SealedBlock) else
    var u := Uncommit(b);
    match e.exec(u.state, u.header.env, prev, GasUsed(u.receipts), t)
    case None => Err(BadTransaction)
    case Some(wr) => Ok(u.(state := wr.0, txs := u.txs + [t], receipts := u.receipts + [wr.1],
        hashes := u.hashes + {t.hash}))
  }

  function Trimmed(extra: Bytes): Bytes {
    if |extra| > 32 then extra[..32] else extra
  }

  /** The header the present contents call for. */
  function Filled(e: Engine, b: Block, w: World, extra: Bytes): Header {
    b.header.(bloom := Bloom(b.receipts), gasUsed := GasUsed(b.receipts),
              txRoot := e.mapRoot(OrderedTrie.OrderedMap(TxCodes(b.txs))),
              receiptsRoot := e.mapRoot(OrderedTrie.OrderedMap(ReceiptCodes(b.receipts))),
              stateRoot := e.stateRoot(w), parent := e.hash(b.prev), extra := Trimmed(extra))
  }

  function CommitToSeal(e: Engine, b: Block, extra: Bytes): Result<Block, Error> {
    if b.sealed then Err(SealedBlock) else
    var u := if b.committed then Uncommit(b) else b.(precommit := b.state);
    var w := Rewarded(e, u.header.env, u.state);
    Ok(u.(state := w, header := Filled(e, u, w, extra), committed := true))
  }

  /** The header may differ from the committed one in the seal only. */
  function SealBlock(b: Block, header: Header): Option<Block> {
    if !b.committed || header.(seal := []) != b.header.(seal := []) then None
    else Some(b.(sealed := true, header := header, state := b.precommit))
  }

  /** Copying forgets the commitment but not its effect on the state. */
  function Copy(b: Block): Block {
    b.(precommit := b.state, committed := false)
  }

  function Fresh(w0: World, header: Header, prev: Header): Block {
    Block(w0, w0, false, false, [], [], {}, header, prev)
  }

  // ----- what a block means

  /** The transactions folded over the parent's state. */
  function Fold(e: Engine, env: Env, prev: Header, w0: World, txs: seq<Tx>): Option<(World, seq<Receipt>)> {
    if txs == [] then Some((w0, [])) else
    match Fold(e, env, prev, w0, txs[..|txs| - 1])
    case None => None
    case Some(wr) =>
      match e.exec(wr.0, env, prev, GasUsed(wr.1), txs[|txs| - 1]) {
        case None => None
        case Some(x) => Some((x.0, wr.1 + [x.1]))
      }
  }

  function HashSet(txs: seq<Tx>): set<int> {
    if txs == [] then {} else HashSet(txs[..|txs| - 1]) + {txs[|txs| - 1].hash}
  }

  /** Contents, receipts and hash set are in step, and the state is the fold, with the reward applied
      exactly once while committed. */
  ghost predicate Inv(e: Engine, b: Block, w0: World) {
    var f := Fold(e, b.header.env, b.prev, w0, b.txs);
    && f.Some? && b.receipts == f.value.1 && b.hashes == HashSet(b.txs)
    && b.state == (if b.committed && !b.sealed then Rewarded(e, b.header.env, f.value.0) else f.value.0)
    && (b.committed ==> b.precommit == f.value.0)
    && (b.sealed ==> b.committed)
    && (b.committed ==>
          && |b.header.extra| <= 32
          && b.header == Filled(e, b, Rewarded(e, b.header.env, f.value.0), b.header.extra).(seal := b.header.seal))
  }

  lemma {:induction false} FoldAppend(e: Engine, env: Env, prev: Header, w0: World, txs: seq<Tx>, t: Tx)
    requires Fold(e, env, prev, w0, txs).Some?
    ensures var f := Fold(e, env, prev, w0, txs).value;
            Fold(e, env, prev, w0, txs + [t]) ==
            match e.exec(f.0, env, prev, GasUsed(f.1), t) { case None => None case Some(x) => Some((x.0, f.1 + [x.1])) }
  {
    var all := txs + [t];
    assert all[..|all| - 1] == txs && all[|all| - 1] == t;
  }

  lemma HashSetAppend(txs: seq<Tx>, t: Tx)
    ensures HashSet(txs + [t]) == HashSet(txs) + {t.hash}
  {
    var all := txs + [t];
    assert all[..|all| - 1] == txs && all[|all| - 1] == t;
  }

  lemma ExecuteInv(e: Engine, b: Block, w0: World, t: Tx)
    requires Inv(e, b, w0) && Execute(e, b, b.prev, t).Ok?
    ensures Inv(e, Execute(e, b, b.prev, t).value, w0)
  {
    FoldAppend(e, b.header.env, b.prev, w0, b.txs, t);
    HashSetAppend(b.txs, t);
  }

  lemma CommitInv(e: Engine, b: Block, w0: World, extra: Bytes)
    requires Inv(e, b, w0) && CommitToSeal(e, b, extra).Ok?
    ensures Inv(e, CommitToSeal(e, b, extra).value, w0) && CommitToSeal(e, b, extra).value.committed
  {
    hide OrderedTrie.OrderedMap, TxCodes, ReceiptCodes, Bloom, GasUsed, AddBalance;
  }

  lemma SealInv(e: Engine, b: Block, w0: World, header: Header)
    requires Inv(e, b, w0) && SealBlock(b, header).Some?
    ensures Inv(e, SealBlock(b, header).value, w0)
  {
    hide OrderedTrie.OrderedMap, TxCodes, ReceiptCodes, Bloom, GasUsed, AddBalance;
  }

  lemma UncommitInv(e: Engine, b: Block, w0: World)
    requires Inv(e, b, w0) && !b.sealed
    ensures Inv(e, Uncommit(b), w0)
  {
  }

  // ----- runs

  datatype Event = Run(t: Tx) | Commit(extra: Bytes) | Seal(header: Header)

  /** A refused transaction leaves the block uncommitted; other refusals leave it alone. */
  function Step(e: Engine, b: Block, ev: Event): Block {
    match ev
    case Run(t) =>
      var r := Execute(e, b, b.prev, t);
      if r.Ok? then r.value else if b.sealed then b else Uncommit(b)
    case Commit(extra) =>
      var r := CommitToSeal(e, b, extra);
      if r.Ok? then r.value else b
    case Seal(header) =>
      var r := SealBlock(b, header);
      if r.Some? then r.value else b
  }

  function Steps(e: Engine, b: Block, evs: seq<Event>): Block
    decreases |evs|
  {
    if evs == [] then b else Steps(e, Step(e, b, evs[0]), evs[1..])
  }

  lemma {:induction false} StepsInv(e: Engine, b: Block, w0: World, evs: seq<Event>)
    requires Inv(e, b, w0)
    ensures Inv(e, Steps(e, b, evs), w0) && Steps(e, b, evs).prev == b.prev &&
        Steps(e, b, evs).header.env == b.header.env
    decreases |evs|
  {
    if evs != [] {
      StepInv(e, b, w0, evs[0]);
      StepsInv(e, Step(e, b, evs[0]), w0, evs[1..]);
    }
  }

  lemma StepInv(e: Engine, b: Block, w0: World, ev: Event)
    requires Inv(e, b, w0)
    ensures Inv(e, Step(e, b, ev), w0) && Step(e, b, ev).prev == b.prev && Step(e, b, ev).header.env == b.header.env
  {
    hide Inv;
    match ev
    case Run(t) => if Execute(e, b, b.prev, t).Ok? { ExecuteInv(e, b, w0, t); }
        else if !b.sealed { UncommitInv(e, b, w0); }
    case Commit(extra) => if CommitToSeal(e, b, extra).Ok? { CommitInv(e, b, w0, extra); }
    case Seal(header) => if SealBlock(b, header).Some? { SealInv(e, b, w0, header); }
  }

  /** After every run the state is the executed transactions folded over the parent's state, with the
      reward applied once if the block is committed, however often that was repeated. */
  lemma RewardedOnce(e: Engine, w0: World, header: Header, prev: Header, evs: seq<Event>)
    ensures var b := Steps(e, Fresh(w0, header, prev), evs);
            var f := Fold(e, b.header.env, prev, w0, b.txs);
            && b.header.env == header.env
            && f.Some? && |b.txs| == |b.receipts| && b.receipts == f.value.1 && b.hashes == HashSet(b.txs)
            && b.state == if b.committed && !b.sealed then Rewarded(e, b.header.env, f.value.0) else f.value.0
  {
    var b := Steps(e, Fresh(w0, header, prev), evs);
    StepsInv(e, Fresh(w0, header, prev), w0, evs);
    FoldLength(e, b.header.env, prev, w0, b.txs);
  }

  lemma {:induction false} FoldLength(e: Engine, env: Env, prev: Header, w0: World, txs: seq<Tx>)
    requires Fold(e, env, prev, w0, txs).Some?
    ensures |Fold(e, env, prev, w0, txs).value.1| == |txs|
  {
    if txs != [] { FoldLength(e, env, prev, w0, txs[..|txs| - 1]); }
  }

  /** Committing again changes nothing but the extra data. */
  lemma CommitTwice(e: Engine, b: Block, extra: Bytes, extra': Bytes)
    requires !b.sealed
    ensures var once := CommitToSeal(e, b, extra).value;
            CommitToSeal(e, once, extra').value == once.(header := once.header.(extra := Trimmed(extra')))
  {
    hide OrderedTrie.OrderedMap, TxCodes, ReceiptCodes, Bloom, GasUsed, AddBalance;
  }

  /** A copy of a committed block is rewarded a second time, unless the reward is nothing. */
  lemma CopyRewardsAgain(e: Engine, b: Block, w0: World, extra: Bytes)
    requires Inv(e, b, w0) && b.committed && !b.sealed
    requires b.header.env.author in b.precommit.balances ==> b.precommit.balances[b.header.env.author] < U256
    ensures CommitToSeal(e, Copy(b), extra).value.state == b.state <==> e.reward(b.header.env.number) % U256 == 0
  {
    hide OrderedTrie.OrderedMap, TxCodes, ReceiptCodes, Bloom, GasUsed, Fold, HashSet;
    var a, r := b.header.env.author, e.reward(b.header.env.number);
    var w := CommitToSeal(e, Copy(b), extra).value.state;
    var x := Balance(b.state, a);
    assert w.balances == b.state.balances[a := (x + r) % U256];
    assert w == b.state <==> (x + r) % U256 == x;
    AddsNothing(x, r);
  }

  lemma AddsNothing(x: nat, r: nat)
    requires x < U256
    ensures (x + r) % U256 == x <==> r % U256 == 0
  {
    var q, m := r / U256, r % U256;
    assert r == q * U256 + m;
    if x + m < U256 {
      Residue(x + r, q, x + m);
    } else {
      Residue(x + r, q + 1, x + m - U256);
    }
  }

  lemma Residue(v: nat, q: nat, m: nat)
    requires v == q * U256 + m && m < U256
    ensures v % U256 == m
  {
  }

  // ----- replay

  function ExecuteAll(e: Engine, b: Block, txs: seq<Tx>): Result<Block, Error> {
    if txs == [] then Ok(b) else
    match ExecuteAll(e, b, txs[..|txs| - 1])
    case Err(error) => Err(error)
    case Ok(c) => Execute(e, c, b.prev, txs[|txs| - 1])
  }

  /** The checks after the transactions; a state root equal to the parent's is not compared. */
  function Checked(e: Engine, d: Block, before: nat): Result<Block, Error>
    requires before <= |d.receipts|
  {
    var h := d.header;
    if e.mapRoot(OrderedTrie.OrderedMap(ReceiptCodes(d.receipts[before..]))) != h.receiptsRoot then Err(BadReceiptsRoot)
    else if h.bloom != Bloom(d.receipts) then Err(BadBloom)
    else
      var w := Rewarded(e, h.env, d.state);
      if h.stateRoot != d.prev.stateRoot && h.stateRoot != e.stateRoot(w) then Err(BadStateRoot)
      else if h.gasUsed != GasUsed(d.receipts) then Err(BadGasUsed)
      else Ok(d.(state := w))
  }

  lemma {:induction false} ExecuteAllGrows(e: Engine, b: Block, txs: seq<Tx>)
    ensures ExecuteAll(e, b, txs).Ok? ==> |ExecuteAll(e, b, txs).value.receipts| == |b.receipts| + |txs|
  {
    if txs != [] { ExecuteAllGrows(e, b, txs[..|txs| - 1]); }
  }

  function Enact(e: Engine, b: Block, header: Header, txs: seq<Tx>): Result<Block, Error> {
    if b.header.parent != e.hash(b.prev) then Err(BadParent) else
    var r := ExecuteAll(e, b.(header := header), txs);
    ExecuteAllGrows(e, b.(header := header), txs);
    if r.Err? then r else Checked(e, r.value, |b.receipts|)
  }

  /** A fresh block executes a list of transactions exactly as they fold. */
  lemma {:induction false} ExecuteAllFolds(e: Engine, w0: World, header: Header, prev: Header, txs: seq<Tx>)
    ensures var f := Fold(e, header.env, prev, w0, txs);
            ExecuteAll(e, Fresh(w0, header, prev), txs) ==
            if f.None? then Err(BadTransaction)
            else Ok(Block(f.value.0, w0, false, false, txs, f.value.1, HashSet(txs), header, prev))
  {
    if txs != [] {
      ExecuteAllFolds(e, w0, header, prev, txs[..|txs| - 1]);
      assert txs == txs[..|txs| - 1] + [txs[|txs| - 1]];
    }
  }

  /** Exactly which blocks are accepted, and the state they leave. */
  lemma EnactExact(e: Engine, w0: World, blank: Header, prev: Header, header: Header, txs: seq<Tx>)
    requires blank.parent == e.hash(prev)
    ensures var f := Fold(e, header.env, prev, w0, txs);
            var r := Enact(e, Fresh(w0, blank, prev), header, txs);
            && (r.Ok? <==>
                && f.Some?
                && header.receiptsRoot == e.mapRoot(OrderedTrie.OrderedMap(ReceiptCodes(f.value.1)))
                && header.bloom == Bloom(f.value.1) && header.gasUsed == GasUsed(f.value.1)
                && (header.stateRoot == prev.stateRoot || header.stateRoot ==
                    e.stateRoot(Rewarded(e, header.env, f.value.0))))
            && (r.Ok? ==> r.value.state == Rewarded(e, header.env, f.value.0) && r.value.txs == txs &&
                          r.value.receipts == f.value.1 && r.value.hashes == HashSet(txs))
  {
    hide OrderedTrie.OrderedMap, ReceiptCodes, Bloom, GasUsed, AddBalance, Fold, HashSet, ExecuteAll;
    var start := Fresh(w0, blank, prev);
    assert start.(header := header) == Fresh(w0, header, prev);
    ExecuteAllFolds(e, w0, header, prev, txs);
    ExecuteAllGrows(e, Fresh(w0, header, prev), txs);
    var f := Fold(e, header.env, prev, w0, txs);
    if f.Some? { assert f.value.1[0..] == f.value.1; }
  }

  /** Whoever replays a committed block on the same parent accepts it, whatever its seal. */
  lemma CommittedReplays(e: Engine, b: Block, w0: World, blank: Header, seal: Bytes)
    requires Inv(e, b, w0) && b.committed && blank.parent == e.hash(b.prev)
    ensures var r := Enact(e, Fresh(w0, blank, b.prev), b.header.(seal := seal), b.txs);
            && r.Ok? && r.value.txs == b.txs && r.value.receipts == b.receipts && r.value.hashes == b.hashes
            && r.value.state == Rewarded(e, b.header.env, b.precommit)
            && (!b.sealed ==> r.value.state == b.state)
  {
    hide OrderedTrie.OrderedMap, TxCodes, ReceiptCodes, Bloom, GasUsed, AddBalance, Fold, HashSet, Enact;
    EnactExact(e, w0, blank, b.prev, b.header.(seal := seal), b.txs);
  }

  /** After every run a committed block is accepted by whoever replays it on the same parent, whatever its
      seal, and the replay arrives at the committed state. */
  lemma ReplayAccepts(e: Engine, w0: World, header: Header, prev: Header, evs: seq<Event>, blank: Header, seal: Bytes)
    requires blank.parent == e.hash(prev) && Steps(e, Fresh(w0, header, prev), evs).committed
    ensures var b := Steps(e, Fresh(w0, header, prev), evs);
            var r := Enact(e, Fresh(w0, blank, prev), b.header.(seal := seal), b.txs);
            && r.Ok? && r.value.txs == b.txs && r.value.receipts == b.receipts && r.value.hashes == b.hashes
            && r.value.state == Rewarded(e, b.header.env, b.precommit)
            && (!b.sealed ==> r.value.state == b.state)
  {
    hide Inv, Enact, Steps;
    FreshInv(e, w0, header, prev);
    StepsInv(e, Fresh(w0, header, prev), w0, evs);
    CommittedReplays(e, Steps(e, Fresh(w0, header, prev), evs), w0, blank, seal);
  }

  /** Sealing takes exactly the headers that differ from the committed one in the seal; the sealed block
      is final and is accepted by whoever replays it. */
  lemma SealedReplays(e: Engine, b: Block, w0: World, h: Header, blank: Header)
    requires Inv(e, b, w0) && blank.parent == e.hash(b.prev)
    ensures SealBlock(b, h).Some? <==> b.committed && exists seal :: h == b.header.(seal := seal)
    ensures SealBlock(b, h).Some? ==>
              var c := SealBlock(b, h).value;
              && Inv(e, c, w0) && c.txs == b.txs && Enact(e, Fresh(w0, blank, b.prev), c.header, c.txs).Ok?
              && (forall t :: Execute(e, c, c.prev, t) == Err(SealedBlock))
              && (forall extra :: CommitToSeal(e, c, extra) == Err(SealedBlock))
  {
    hide Inv, Enact;
    if b.committed && h.(seal := []) == b.header.(seal := []) { assert h == b.header.(seal := h.seal); }
    if SealBlock(b, h).Some? {
      SealInv(e, b, w0, h);
      CommittedReplays(e, SealBlock(b, h).value, w0, blank, h.seal);
      assert SealBlock(b, h).value.header == h.(seal := h.seal);
    }
  }

  /** Taking a commitment back gives the block as it was, up to the header, and committing again repeats it. */
  lemma CommitUncommit(e: Engine, b: Block, extra: Bytes)
    requires !b.sealed && !b.committed
    ensures var once := CommitToSeal(e, b, extra).value;
            && Uncommit(once) == b.(precommit := b.state, header := once.header)
            && CommitToSeal(e, Uncommit(once), extra).value == once
  {
    hide OrderedTrie.OrderedMap, TxCodes, ReceiptCodes, Bloom, GasUsed, AddBalance;
  }

  lemma FreshInv(e: Engine, w0: World, header: Header, prev: Header)
    ensures Inv(e, Fresh(w0, header, prev), w0)
  {
  }

  /** An accepted header's state root is the computed one exactly when it differs from the parent's, or
      folding the transactions and the reward over the parent's state leaves the root unchanged. */
  lemma StateRootExact(e: Engine, w0: World, blank: Header, prev: Header, header: Header, txs: seq<Tx>)
    requires blank.parent == e.hash(prev) && Enact(e, Fresh(w0, blank, prev), header, txs).Ok?
    ensures var f := Fold(e, header.env, prev, w0, txs);
            && f.Some?
            && (header.stateRoot == e.stateRoot(Enact(e, Fresh(w0, blank, prev), header, txs).value.state) <==>
                header.stateRoot != prev.stateRoot || e.stateRoot(Rewarded(e, header.env, f.value.0)) == prev.stateRoot)
  {
    hide Enact, Fold;
    EnactExact(e, w0, blank, prev, header, txs);
  }

  /** An empty block paying a reward, whose header repeats the parent's root. */
  lemma WrongRootAccepted()
    ensures exists e: Engine, w0, prev, header ::
              var r := Enact(e, Fresh(w0, header, prev), header, []);
              r.Ok? && header.stateRoot != e.stateRoot(r.value.state)
  {
    var e := Engine((w, env, p, g, t) => None, n => 1, m => 0, (w: World) => Balance(w, 0), p => 7);
    var env := Env(1, 0, 0, 0, 0);
    var prev := Header(env, 0, 0, {}, 0, 0, 0, [], []);
    var header := Header(env, 7, 0, {}, 0, 0, 0, [], []);
    var w0 := World(map[], 0);
    EnactExact(e, w0, header, prev, header, []);
    var r := Enact(e, Fresh(w0, header, prev), header, []);
    assert r.Ok? && e.stateRoot(r.value.state) == 1;
  }

  // ----- lives with copies

  /** A life of a block: operations, and copies of it that live on in its place. */
  datatype Life = Do(ev: Event) | Duplicate

  function Live(e: Engine, b: Block, l: Life): Block {
    match l
    case Do(ev) => Step(e, b, ev)
    case Duplicate => Copy(b)
  }

  function Lives(e: Engine, b: Block, ls: seq<Life>): Block
    decreases |ls|
  {
    if ls == [] then b else Lives(e, Live(e, b, ls[0]), ls[1..])
  }

  /** What went into a state: transactions, and rewards that were copied along with it. */
  datatype Item = Ran(t: Tx) | Paid

  function Recorded(e: Engine, b: Block, hist: seq<Item>, l: Life): seq<Item> {
    match l
    case Do(Run(t)) => if Execute(e, b, b.prev, t).Ok? then hist + [Ran(t)] else hist
    case Do(_) => hist
    case Duplicate => if b.committed && !b.sealed then hist + [Paid] else hist
  }

  function History(e: Engine, b: Block, hist: seq<Item>, ls: seq<Life>): seq<Item>
    decreases |ls|
  {
    if ls == [] then hist else History(e, Live(e, b, ls[0]), Recorded(e, b, hist, ls[0]), ls[1..])
  }

  /** The items applied to the parent's state, in order. */
  function FoldItems(e: Engine, env: Env, prev: Header, w0: World, hist: seq<Item>): Option<(World, seq<Receipt>)> {
    if hist == [] then Some((w0, [])) else
    match FoldItems(e, env, prev, w0, hist[..|hist| - 1])
    case None => None
    case Some(wr) =>
      match hist[|hist| - 1] {
        case Paid => Some((Rewarded(e, env, wr.0), wr.1))
        case Ran(t) =>
          match e.exec(wr.0, env, prev, GasUsed(wr.1), t) {
            case None => None
            case Some(x) => Some((x.0, wr.1 + [x.1]))
          }
      }
  }

  function TxsOf(hist: seq<Item>): seq<Tx> {
    if hist == [] then [] else TxsOf(hist[..|hist| - 1]) + match hist[|hist| - 1] { case Ran(t) => [t] case Paid => [] }
  }

  function Rewards(hist: seq<Item>): nat {
    if hist == [] then 0 else Rewards(hist[..|hist| - 1]) + if hist[|hist| - 1].Paid? then 1 else 0
  }

  /** Copies taken of the block while it was committed. */
  function CommittedCopies(e: Engine, b: Block, ls: seq<Life>): nat
    decreases |ls|
  {
    if ls == [] then 0
    else
      (if ls[0] == Duplicate && b.committed && !b.sealed then 1 else 0) +
      CommittedCopies(e, Live(e, b, ls[0]), ls[1..])
  }

  ghost predicate Recounted(e: Engine, b: Block, w0: World, hist: seq<Item>) {
    var f := FoldItems(e, b.header.env, b.prev, w0, hist);
    && f.Some? && b.receipts == f.value.1 && b.txs == TxsOf(hist)
    && b.state == (if b.committed && !b.sealed then Rewarded(e, b.header.env, f.value.0) else f.value.0)
    && (b.committed ==> b.precommit == f.value.0)
  }

  lemma ItemAppend(e: Engine, env: Env, prev: Header, w0: World, hist: seq<Item>, x: Item)
    requires FoldItems(e, env, prev, w0, hist).Some?
    ensures TxsOf(hist + [x]) == TxsOf(hist) + (if x.Ran? then [x.t] else [])
    ensures Rewards(hist + [x]) == Rewards(hist) + if x.Paid? then 1 else 0
    ensures var f := FoldItems(e, env, prev, w0, hist).value;
            FoldItems(e, env, prev, w0, hist + [x]) ==
            match x {
              case Paid => Some((Rewarded(e, env, f.0), f.1))
              case Ran(t) => match e.exec(f.0, env, prev, GasUsed(f.1), t) {
                case None => None
                case Some(y) => Some((y.0, f.1 + [y.1]))
              }
            }
  {
    var all := hist + [x];
    assert all[..|all| - 1] == hist && all[|all| - 1] == x;
  }

  lemma LiveRecounted(e: Engine, b: Block, w0: World, hist: seq<Item>, l: Life)
    requires Recounted(e, b, w0, hist)
    ensures Recounted(e, Live(e, b, l), w0, Recorded(e, b, hist, l))
    ensures Live(e, b, l).header.env == b.header.env && Live(e, b, l).prev == b.prev
    ensures Rewards(Recorded(e, b, hist, l)) ==
            Rewards(hist) + if l == Duplicate && b.committed && !b.sealed then 1 else 0
  {
    hide OrderedTrie.OrderedMap, TxCodes, ReceiptCodes, Bloom, GasUsed, AddBalance, FoldItems, TxsOf, Rewards;
    match l
    case Do(Run(t)) => ItemAppend(e, b.header.env, b.prev, w0, hist, Ran(t));
    case Do(Commit(_)) =>
    case Do(Seal(_)) =>
    case Duplicate => ItemAppend(e, b.header.env, b.prev, w0, hist, Paid);
  }

  lemma {:induction false} LivesRecounted(e: Engine, b: Block, w0: World, hist: seq<Item>, ls: seq<Life>)
    requires Recounted(e, b, w0, hist)
    ensures Recounted(e, Lives(e, b, ls), w0, History(e, b, hist, ls))
    ensures Rewards(History(e, b, hist, ls)) == Rewards(hist) + CommittedCopies(e, b, ls)
    decreases |ls|
  {
    hide Recounted, Live, Recorded, Rewards;
    if ls != [] {
      LiveRecounted(e, b, w0, hist, ls[0]);
      LivesRecounted(e, Live(e, b, ls[0]), w0, Recorded(e, b, hist, ls[0]), ls[1..]);
    }
  }

  /** Over every life, copies included: the state is the transactions and rewards of its history folded
      over the parent's state, with one reward for each copy taken while committed, and one more while it
      is committed itself. */
  lemma RewardsCounted(e: Engine, w0: World, header: Header, prev: Header, ls: seq<Life>)
    ensures var first := Fresh(w0, header, prev);
            var b, hist := Lives(e, first, ls), History(e, first, [], ls);
            var all := if b.committed && !b.sealed then hist + [Paid] else hist;
            var f := FoldItems(e, b.header.env, b.prev, w0, all);
            && f.Some? && b.state == f.value.0 && b.receipts == f.value.1 && b.txs == TxsOf(all)
            && Rewards(all) == CommittedCopies(e, first, ls) + if b.committed && !b.sealed then 1 else 0
  {
    hide FoldItems, TxsOf, Rewards, Lives, History, CommittedCopies;
    var first := Fresh(w0, header, prev);
    EmptyRecounted(e, first, w0);
    LivesRecounted(e, first, w0, [], ls);
    var b := Lives(e, first, ls);
    ItemAppend(e, b.header.env, b.prev, w0, History(e, first, [], ls), Paid);
  }

  lemma EmptyRecounted(e: Engine, b: Block, w0: World)
    requires b == Fresh(w0, b.header, b.prev)
    ensures Recounted(e, b, w0, []) && Rewards([]) == 0
  {
  }
}
