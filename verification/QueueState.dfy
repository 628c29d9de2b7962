/** The value-level model of the block queue: its containers, its state, and one function per
    critical section. */
module QueueState {
  import opened Wrappers

  /** A 256-bit hash. Header hashes and uncle-list hashes come from different preimages, so they
      are kept apart: that is the only assumption made about the hash function. */
  datatype Hash = HeaderHash(id: nat) | UnclesHash(id: nat)

  /** A block as the queue sees it. `parent` is whatever the header claims. */
  datatype Block = Block(id: nat, parent: Hash, unclesId: nat) {
    function Hash(): Hash { HeaderHash(id) }
    function Uncles(): Hash { UnclesHash(unclesId) }
  }

  /** A queue entry: `Done` carries a verification result (its block data is non-empty),
      `Pending` does not. A pending entry of the verifying queue hides the block hash in the
      uncle-hash field of an otherwise blank header. */
  datatype Entry = Pending(b: Block) | Done(b: Block) {
    function Tag(): Hash { if Done? then b.Uncles() else b.Hash() }
  }

  /** The slot of a compacted deque: its value and whether the value was moved out of it. */
  datatype Cell = Cell(e: Entry, moved: bool)

  datatype Lane = Verified | Unverified | Verifying

  /** How `removeIf` picks the elements it hands back: `Shifting` is the code (everything behind
      the compacted prefix), `Partitioning` is what its callers expect (the removed ones). */
  datatype Removal = Shifting | Partitioning

  datatype State = State(
    ready: set<Hash>, draining: set<Hash>, unknownSet: set<Hash>, knownBad: set<Hash>,
    unknown: seq<Block>,
    verified: seq<Entry>, verifying: seq<Entry>, unverified: seq<Entry>,
    jobs: set<Block>,        // blocks held by running verifier threads
    chain: set<Hash>,        // hashes the chain is known to hold
    enqueued: seq<Block>,    // history: every block in the order it became ready
    drained: seq<Block>)     // history: every block in the order it was drained

  const EmptyQueue := State({}, {}, {}, {}, [], [], [], [], {}, {}, [], [])

  // ----- containers

  function Blocks(q: seq<Entry>): (r: seq<Block>)
    ensures |r| == |q|
    ensures forall i :: 0 <= i < |q| ==> r[i] == q[i].b
  {
    seq(|q|, i requires 0 <= i < |q| => q[i].b)
  }

  function Hashes(q: seq<Block>): set<Hash> {
    set b | b in q :: b.Hash()
  }

  ghost predicate UniqueHashes(q: seq<Block>) {
    forall i, j :: 0 <= i < j < |q| ==> q[i].Hash() != q[j].Hash()
  }

  /** The test that `updateBad` applies in each of the three queues. */
  predicate Doomed(lane: Lane, bad: set<Hash>, e: Entry) {
    e.b.parent in bad || (if lane == Verifying then e.Tag() else e.b.Hash()) in bad
  }

  function Keep(q: seq<Entry>, lane: Lane, bad: set<Hash>): seq<Entry> {
    if q == [] then [] else
    Keep(q[..|q|-1], lane, bad) + if Doomed(lane, bad, q[|q|-1]) then [] else [q[|q|-1]]
  }

  function Drop(q: seq<Entry>, lane: Lane, bad: set<Hash>): seq<Entry> {
    if q == [] then [] else
    Drop(q[..|q|-1], lane, bad) + if Doomed(lane, bad, q[|q|-1]) then [q[|q|-1]] else []
  }

  lemma KeepDropLength(q: seq<Entry>, lane: Lane, bad: set<Hash>)
    ensures |Keep(q, lane, bad)| + |Drop(q, lane, bad)| == |q|
  {
  }

  /** What `removeIf` returns. Shifting: the slots after the compacted prefix, each still holding
      the element it held at the start, moved-from when that element was kept. */
  function Handed(m: Removal, q: seq<Entry>, lane: Lane, bad: set<Hash>): seq<Cell> {
    KeepDropLength(q, lane, bad);
    var k := |Keep(q, lane, bad)|;
    match m
    case Shifting =>
      seq(|q| - k, j requires 0 <= j < |q| - k => Cell(q[k + j], !Doomed(lane, bad, q[k + j])))
    case Partitioning =>
      var d := Drop(q, lane, bad);
      seq(|d|, j requires 0 <= j < |d| => Cell(d[j], false))
  }

  /** The hash `updateBad` reads off an element handed back to it. */
  function CellHash(lane: Lane, c: Cell): Hash {
    if lane != Verifying then c.e.b.Hash()
    else if c.e.Done? && !c.moved then c.e.b.Hash() else c.e.Tag()
  }

  function CellHashes(lane: Lane, cs: seq<Cell>): (r: seq<Hash>)
    ensures |r| == |cs|
    ensures forall i :: 0 <= i < |cs| ==> r[i] == CellHash(lane, cs[i])
  {
    seq(|cs|, i requires 0 <= i < |cs| => CellHash(lane, cs[i]))
  }

  /** No kept element stands behind a removed one. */
  predicate AtEnd(q: seq<Entry>, lane: Lane, bad: set<Hash>) {
    forall i, j :: 0 <= i < j < |q| && Doomed(lane, bad, q[i]) ==> Doomed(lane, bad, q[j])
  }

  function Kids(u: seq<Block>, h: Hash): seq<Block> {
    if u == [] then [] else
    Kids(u[..|u|-1], h) + if u[|u|-1].parent == h then [u[|u|-1]] else []
  }

  function Others(u: seq<Block>, h: Hash): (r: seq<Block>)
    ensures |r| + |Kids(u, h)| == |u|
  {
    if u == [] then [] else
    Others(u[..|u|-1], h) + if u[|u|-1].parent == h then [] else [u[|u|-1]]
  }

  function HashSeq(q: seq<Block>): (r: seq<Hash>)
    ensures |r| == |q|
    ensures forall i :: 0 <= i < |q| ==> r[i] == q[i].Hash()
  {
    seq(|q|, i requires 0 <= i < |q| => q[i].Hash())
  }

  /** The breadth-first harvest shared by `collectUnknownBad` and `noteReady`: repeatedly take the
      first hash of the worklist and pull its children out of the multimap. Returns what is left
      and what was pulled out, in order. */
  function Harvest(u: seq<Block>, work: seq<Hash>): (seq<Block>, seq<Block>)
    decreases |u|, |work|
  {
    if work == [] then (u, []) else
    var kids := Kids(u, work[0]);
    var (left, moved) := Harvest(Others(u, work[0]), work[1..] + HashSeq(kids));
    (left, kids + moved)
  }

  // ----- steps

  function Pipeline(s: State): seq<Block> {
    Blocks(s.verified + s.verifying + s.unverified)
  }

  /** Waiting blocks turn bad. */
  function Condemn(s: State, moved: seq<Block>): State {
    s.(unknownSet := s.unknownSet - Hashes(moved), knownBad := s.knownBad + Hashes(moved))
  }

  /** Waiting blocks join the end of the unverified queue. */
  function Admit(s: State, moved: seq<Block>): State {
    s.(unknownSet := s.unknownSet - Hashes(moved), ready := s.ready + Hashes(moved),
       unverified := s.unverified + Pendings(moved), enqueued := s.enqueued + moved)
  }

  function Pendings(q: seq<Block>): (r: seq<Entry>)
    ensures |r| == |q|
    ensures forall i :: 0 <= i < |q| ==> r[i] == Pending(q[i])
  {
    seq(|q|, i requires 0 <= i < |q| => Pending(q[i]))
  }

  function CollectUnknownBad(s: State, h: Hash): State {
    var (left, moved) := Harvest(s.unknown, [h]);
    Condemn(s.(unknown := left), moved)
  }

  function NoteReady(s: State, h: Hash): State {
    var (left, moved) := Harvest(s.unknown, [h]);
    Admit(s.(unknown := left), moved)
  }

  function MarkOne(s: State, h: Hash): State {
    CollectUnknownBad(s.(knownBad := s.knownBad + {h}, ready := s.ready - {h}), h)
  }

  function MarkAll(s: State, hs: seq<Hash>): State
    decreases |hs|
  {
    if hs == [] then s else MarkAll(MarkOne(s, hs[0]), hs[1..])
  }

  function LaneOf(s: State, lane: Lane): seq<Entry> {
    match lane
    case Verified => s.verified
    case Unverified => s.unverified
    case Verifying => s.verifying
  }

  function WithLane(s: State, lane: Lane, q: seq<Entry>): State {
    match lane
    case Verified => s.(verified := q)
    case Unverified => s.(unverified := q)
    case Verifying => s.(verifying := q)
  }

  /** One `removeIf` of `updateBad` followed by its marking loop. */
  function Purge(m: Removal, s: State, lane: Lane): State {
    var q := LaneOf(s, lane);
    MarkAll(WithLane(s, lane, Keep(q, lane, s.knownBad)),
            CellHashes(lane, Handed(m, q, lane, s.knownBad)))
  }

  function PurgeRound(m: Removal, s: State): State {
    Purge(m, Purge(m, Purge(m, s, Verified), Unverified), Verifying)
  }

  lemma MarkAllKeepsLanes(s: State, hs: seq<Hash>)
    ensures var t := MarkAll(s, hs);
            && t.verified == s.verified && t.verifying == s.verifying && t.unverified == s.unverified
            && t.draining == s.draining && t.jobs == s.jobs && t.chain == s.chain
            && t.enqueued == s.enqueued && t.drained == s.drained
            && s.knownBad <= t.knownBad && t.ready <= s.ready
    decreases |hs|
  {
  }

  lemma PurgeShrinks(m: Removal, s: State, lane: Lane)
    ensures |Pipeline(Purge(m, s, lane))| ==
            |Pipeline(s)| - |Drop(LaneOf(s, lane), lane, s.knownBad)|
  {
    var q := LaneOf(s, lane);
    KeepDropLength(q, lane, s.knownBad);
    MarkAllKeepsLanes(WithLane(s, lane, Keep(q, lane, s.knownBad)),
                      CellHashes(lane, Handed(m, q, lane, s.knownBad)));
  }

  lemma RoundShrinks(m: Removal, s: State)
    ensures |Pipeline(PurgeRound(m, s))| <= |Pipeline(s)|
  {
    PurgeShrinks(m, s, Verified);
    PurgeShrinks(m, Purge(m, s, Verified), Unverified);
    PurgeShrinks(m, Purge(m, Purge(m, s, Verified), Unverified), Verifying);
  }

  /** The `while (moreBad)` loop: a round that removes anything is followed by another. */
  function PurgeLoop(m: Removal, s: State): State
    decreases |Pipeline(s)|
  {
    RoundShrinks(m, s);
    var t := PurgeRound(m, s);
    if |Pipeline(t)| < |Pipeline(s)| then PurgeLoop(m, t) else t
  }

  function UpdateBad(m: Removal, s: State, h: Hash): State {
    PurgeLoop(m, CollectUnknownBad(s, h))
  }

  function DrainVerified(s: State): State
    decreases |s.verifying|
  {
    if s.verifying != [] && s.verifying[0].Done? then
      var e := s.verifying[0];
      var t := s.(verifying := s.verifying[1..]);
      DrainVerified(
        if e.b.parent in s.knownBad
        then t.(ready := t.ready - {e.b.Hash()}, knownBad := t.knownBad + {e.b.Hash()})
        else t.(verified := t.verified + [e]))
    else s
  }

  /** A verifier thread takes the next unverified block and leaves a pending slot behind. */
  function Take(s: State): State
    requires s.unverified != []
  {
    var e := s.unverified[0];
    s.(unverified := s.unverified[1..], verifying := s.verifying + [Pending(e.b)],
       jobs := s.jobs + {e.b})
  }

  function Untagged(q: seq<Entry>, h: Hash): seq<Entry> {
    if q == [] then [] else
    Untagged(q[..|q|-1], h) + if q[|q|-1].Tag() == h then [] else [q[|q|-1]]
  }

  /** Verification threw. */
  function Fail(s: State, w: Block): State {
    DrainVerified(
      s.(ready := s.ready - {w.Hash()}, knownBad := s.knownBad + {w.Hash()},
         verifying := Untagged(s.verifying, w.Hash()), jobs := s.jobs - {w}))
  }

  function Replaced(q: seq<Entry>, h: Hash, e: Entry): seq<Entry> {
    if q == [] then []
    else if q[0].Tag() == h then [e] + q[1..]
    else [q[0]] + Replaced(q[1..], h, e)
  }

  /** Verification succeeded. */
  function Finish(s: State, w: Block): State {
    var t := s.(jobs := s.jobs - {w});
    if s.verifying != [] && s.verifying[0].Tag() == w.Hash() then
      var u := t.(verifying := s.verifying[1..]);
      DrainVerified(
        if w.parent in s.knownBad
        then u.(ready := u.ready - {w.Hash()}, knownBad := u.knownBad + {w.Hash()})
        else u.(verified := u.verified + [Done(w)]))
    else t.(verifying := Replaced(s.verifying, w.Hash(), Done(w)))
  }

  /** What the chain and the clock answer while a block is imported. */
  datatype Answers = Answers(malformed: bool, inChain: bool, irreversible: bool,
                             inFuture: bool, parentInChain: bool)

  datatype ImportResult = Success | UnknownParent | AlreadyInChain | AlreadyKnown | Malformed
                        | BadChain | Irreversible | FutureTimeKnown | FutureTimeUnknown

  predicate ParentReady(s: State, b: Block, a: Answers) {
    b.parent in s.ready || b.parent in s.draining || a.parentInChain
  }

  function Import(m: Removal, s: State, b: Block, a: Answers): (State, ImportResult) {
    var h := b.Hash();
    if h in s.ready || h in s.draining || h in s.unknownSet || h in s.knownBad then (s, AlreadyKnown)
    else if a.malformed then (s, Malformed)
    else if a.inChain then (s, AlreadyInChain)
    else if a.irreversible then (s, Irreversible)
    else if a.inFuture then
      (s, if ParentReady(s, b, a) then FutureTimeKnown else FutureTimeUnknown)
    else if b.parent in s.knownBad then
      (UpdateBad(m, s.(knownBad := s.knownBad + {h}), h), BadChain)
    else if !ParentReady(s, b, a) then
      (s.(unknown := s.unknown + [b], unknownSet := s.unknownSet + {h}), UnknownParent)
    else
      var t := s.(unverified := s.unverified + [Pending(b)], ready := s.ready + {h},
                  enqueued := s.enqueued + [b],
                  chain := if b.parent in s.ready || b.parent in s.draining then s.chain
                           else s.chain + {b.parent});
      (NoteReady(t, h), Success)
  }

  /** The batch handed to the importer. */
  function DrainBatch(s: State, max: nat): seq<Block> {
    if s.draining != {} then [] else Blocks(s.verified[..Min(max, |s.verified|)])
  }

  function Drain(s: State, max: nat): State {
    var batch := DrainBatch(s, max);
    var gone := Hashes(batch);
    s.(verified := s.verified[|batch|..], draining := s.draining + gone, ready := s.ready - gone,
       drained := s.drained + batch)
  }

  function UpdateAll(m: Removal, s: State, bad: seq<Hash>): State
    decreases |bad|
  {
    if bad == [] then s else UpdateAll(m, UpdateBad(m, s, bad[0]), bad[1..])
  }

  /** The importer is done: what it did not report as bad is in the chain. */
  function DoneDrain(m: Removal, s: State, bad: seq<Hash>): State {
    var b := set h | h in bad;
    UpdateAll(m, s.(draining := {}, knownBad := s.knownBad + b, chain := s.chain + (s.draining - b)), bad)
  }

  // ----- runs

  datatype Event = EImport(b: Block, a: Answers) | ETake | EFail(w: Block) | EFinish(w: Block)
                 | EDrain(max: nat) | EDoneDrain(bad: seq<Hash>)

  /** Which events can happen. The chain only ever holds what the queue drained into it: it
      reports every block it holds and never one that still waits for its parent. */
  predicate Enabled(s: State, e: Event) {
    match e
    case EImport(b, a) =>
      && (b.Hash() in s.chain ==> a.inChain)
      && (a.parentInChain ==> b.parent !in s.unknownSet)
      && (a.parentInChain && b.parent == b.Hash() ==> a.inChain)
    case ETake => s.unverified != []
    case EFail(w) => w in s.jobs
    case EFinish(w) => w in s.jobs
    case EDrain(_) => true
    case EDoneDrain(bad) => forall h :: h in bad ==> h in s.draining
  }

  function Step(m: Removal, s: State, e: Event): State
    requires Enabled(s, e)
  {
    match e
    case EImport(b, a) => Import(m, s, b, a).0
    case ETake => Take(s)
    case EFail(w) => Fail(s, w)
    case EFinish(w) => Finish(s, w)
    case EDrain(max) => Drain(s, max)
    case EDoneDrain(bad) => DoneDrain(m, s, bad)
  }
}
