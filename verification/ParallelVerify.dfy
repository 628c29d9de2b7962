/** The transaction check of `verifyBlock`: threads claim indices one by one, verify outside the
    lock, and the first to catch an exception reports it. Every schedule is a sequence of thread
    numbers; each step of a thread is atomic. */
module ParallelVerify {

  /** What parsing and checking a transaction gives. */
  datatype Check = Good(tx: int) | Bad

  datatype Slot = Blank | Parsed(tx: int)

  datatype Thread =
    | Looping               // about to look at the flag
    | Claiming              // about to take the lock of the shared index
    | Working(pos: nat)     // verifying its transaction
    | Caught(pos: nat)      // about to exchange the flag
    | Reporting(pos: nat)   // has set the flag, about to report
    | Finished

  datatype State = State(next: nat, slots: seq<Slot>, flag: bool, reported: seq<nat>, threads: seq<Thread>)

  function Blanks(n: nat): (s: seq<Slot>)
    ensures |s| == n && forall i :: 0 <= i < n ==> s[i] == Blank
  {
    seq(n, _ => Blank)
  }

  function Start(total: nat, threads: nat): State {
    State(0, Blanks(total), false, [], seq(threads, _ => Looping))
  }

  function Step(s: State, checks: seq<Check>, k: nat): State
    requires k < |s.threads| && |s.slots| == |checks|
  {
    match s.threads[k]
    case Looping => s.(threads := s.threads[k := if s.flag then Finished else Claiming])
    case Claiming =>
      if s.next == |checks| then s.(threads := s.threads[k := Finished])
      else s.(next := s.next + 1, threads := s.threads[k := Working(s.next)])
    case Working(pos) =>
      if pos < |checks| && checks[pos].Good?
      then s.(slots := s.slots[pos := Parsed(checks[pos].tx)], threads := s.threads[k := Looping])
      else s.(threads := s.threads[k := Caught(pos)])
    case Caught(pos) =>
      if s.flag then s.(threads := s.threads[k := Looping])
      else s.(flag := true, threads := s.threads[k := Reporting(pos)])
    case Reporting(pos) => s.(reported := s.reported + [pos], threads := s.threads[k := Looping])
    case Finished => s
  }

  /** Every entry names a thread that has not finished. */
  ghost predicate Schedule(s: State, checks: seq<Check>, ks: seq<nat>)
    decreases |ks|
  {
    ks == [] ||
    (ks[0] < |s.threads| && |s.slots| == |checks| && s.threads[ks[0]] != Finished &&
     Schedule(Step(s, checks, ks[0]), checks, ks[1..]))
  }

  ghost function Run(s: State, checks: seq<Check>, ks: seq<nat>): State
    requires Schedule(s, checks, ks)
    decreases |ks|
  {
    if ks == [] then s else Run(Step(s, checks, ks[0]), checks, ks[1..])
  }

  ghost predicate Done(s: State) {
    forall k :: 0 <= k < |s.threads| ==> s.threads[k] == Finished
  }

  // ----- what every step keeps

  predicate Holds(t: Thread, pos: nat) {
    (t.Working? || t.Caught? || t.Reporting?) && t.pos == pos
  }

  ghost predicate Held(s: State, pos: nat) {
    exists k :: 0 <= k < |s.threads| && Holds(s.threads[k], pos)
  }

  /** No index is in two hands, and only handed-out indices are. */
  ghost predicate Exclusive(s: State) {
    && (forall k, pos: nat :: 0 <= k < |s.threads| && Holds(s.threads[k], pos) ==> pos < s.next)
    && (forall j, k, pos: nat ::
          0 <= j < |s.threads| && 0 <= k < |s.threads| && Holds(s.threads[j], pos) && Holds(s.threads[k], pos) ==>
              j == k)
  }

  /** An index handed out is in a thread's hands, or its slot is filled, or it was found bad. */
  ghost predicate Handled(s: State, checks: seq<Check>) {
    && s.next <= |checks| && |s.slots| == |checks|
    && (forall p :: 0 <= p < |checks| ==>
        s.slots[p] == Blank || (checks[p].Good? && s.slots[p] == Parsed(checks[p].tx)))
    && (forall p :: s.next <= p < |checks| ==> s.slots[p] == Blank)
    && (forall p :: 0 <= p < s.next && checks[p].Good? ==> s.slots[p] != Blank || Held(s, p))
    && (forall p :: 0 <= p < s.next && checks[p].Bad? ==> s.flag || Held(s, p))
  }

  /** A thread past the verification holds a bad index. */
  ghost predicate CaughtBad(s: State, checks: seq<Check>) {
    forall k :: 0 <= k < |s.threads| && (s.threads[k].Caught? || s.threads[k].Reporting?) ==>
      s.threads[k].pos < |checks| && checks[s.threads[k].pos].Bad?
  }

  /** The flag is set by one thread, which reports once. */
  ghost predicate ReportedOnce(s: State, checks: seq<Check>) {
    && |s.reported| <= 1
    && (forall i :: 0 <= i < |s.reported| ==> s.reported[i] < |checks| && checks[s.reported[i]].Bad?)
    && (s.reported != [] ==> s.flag)
    && (forall k :: 0 <= k < |s.threads| && s.threads[k].Reporting? ==> s.flag && s.reported == [])
    && (forall j, k ::
          0 <= j < |s.threads| && 0 <= k < |s.threads| && s.threads[j].Reporting? && s.threads[k].Reporting? ==> j == k)
    && (s.flag && s.reported == [] ==> exists k :: 0 <= k < |s.threads| && s.threads[k].Reporting?)
  }

  /** A thread stops only when it has seen the flag or the end. */
  ghost predicate StoppedWell(s: State, checks: seq<Check>) {
    forall k :: 0 <= k < |s.threads| && s.threads[k] == Finished ==> s.flag || s.next == |checks|
  }

  ghost predicate Inv(s: State, checks: seq<Check>) {
    Exclusive(s) && Handled(s, checks) && CaughtBad(s, checks) && ReportedOnce(s, checks) && StoppedWell(s, checks)
  }

  /** A thread holds after a step what it held before, or the index just handed out. */
  lemma HoldsAfter(s: State, checks: seq<Check>, k: nat, j: nat, pos: nat)
    requires k < |s.threads| && j < |s.threads| && |s.slots| == |checks| && Holds(Step(s, checks, k).threads[j], pos)
    ensures Holds(s.threads[j], pos) || (j == k && pos == s.next && Step(s, checks, k).next == s.next + 1)
    ensures s.next <= Step(s, checks, k).next
  {
  }

  lemma StepExclusive(s: State, checks: seq<Check>, k: nat)
    requires Exclusive(s) && k < |s.threads| && |s.slots| == |checks|
    ensures Exclusive(Step(s, checks, k))
  {
    hide Step;
    var t := Step(s, checks, k);
    SameThreads(s, checks, k);
    forall j, pos: nat | 0 <= j < |t.threads| && Holds(t.threads[j], pos) ensures pos < t.next {
      HoldsAfter(s, checks, k, j, pos);
    }
    forall i, j, pos: nat |
      0 <= i < |t.threads| && 0 <= j < |t.threads| && Holds(t.threads[i], pos) && Holds(t.threads[j], pos)
      ensures i == j
    {
      HoldsAfter(s, checks, k, i, pos);
      HoldsAfter(s, checks, k, j, pos);
    }
  }

  lemma SameThreads(s: State, checks: seq<Check>, k: nat)
    requires k < |s.threads| && |s.slots| == |checks|
    ensures |Step(s, checks, k).threads| == |s.threads|
  {
  }

  /** A good index stays in hand until its slot is filled. */
  lemma GoodHeld(s: State, checks: seq<Check>, k: nat, p: nat)
    requires Handled(s, checks) && CaughtBad(s, checks)
    requires k < |s.threads| && p < |checks| && checks[p].Good? && Held(s, p)
    ensures var t := Step(s, checks, k); Held(t, p) || t.slots[p] != Blank
  {
    var t := Step(s, checks, k);
    var j :| 0 <= j < |s.threads| && Holds(s.threads[j], p);
    if j != k { assert Holds(t.threads[j], p); }
  }

  /** A bad index stays in hand until the flag is set. */
  lemma BadHeld(s: State, checks: seq<Check>, k: nat, p: nat)
    requires Handled(s, checks) && ReportedOnce(s, checks)
    requires k < |s.threads| && p < |checks| && checks[p].Bad? && Held(s, p)
    ensures var t := Step(s, checks, k); Held(t, p) || t.flag
  {
    var t := Step(s, checks, k);
    var j :| 0 <= j < |s.threads| && Holds(s.threads[j], p);
    if j != k || t.threads[k].Caught? { assert Holds(t.threads[j], p); }
  }

  lemma SlotsAfter(s: State, checks: seq<Check>, k: nat, p: nat)
    requires Exclusive(s) && |s.slots| == |checks| && k < |s.threads| && p < |checks|
    ensures var t := Step(s, checks, k);
            && |t.slots| == |checks| && s.next <= t.next && (s.flag ==> t.flag)
            && (t.slots[p] == s.slots[p] || (p < s.next && checks[p].Good? && t.slots[p] == Parsed(checks[p].tx)))
    ensures var t := Step(s, checks, k); s.next == p < t.next ==> Held(t, p)
  {
    var t := Step(s, checks, k);
    if s.threads[k].Working? { assert Holds(s.threads[k], s.threads[k].pos); }
    if s.next == p < t.next { assert Holds(t.threads[k], p); }
  }

  lemma StepHandled(s: State, checks: seq<Check>, k: nat)
    requires Inv(s, checks) && k < |s.threads|
    ensures Handled(Step(s, checks, k), checks)
  {
    hide Step, Held, StoppedWell, ReportedOnce, CaughtBad, Exclusive;
    var t := Step(s, checks, k);
    NextAfter(s, checks, k);
    forall p | 0 <= p < |checks|
      ensures t.slots[p] == Blank || (checks[p].Good? && t.slots[p] == Parsed(checks[p].tx))
      ensures t.next <= p ==> t.slots[p] == Blank
      ensures p < t.next && checks[p].Good? ==> t.slots[p] != Blank || Held(t, p)
      ensures p < t.next && checks[p].Bad? ==> t.flag || Held(t, p)
    {
      SlotsAfter(s, checks, k, p);
      if Held(s, p) {
        if checks[p].Good? { GoodHeld(s, checks, k, p); } else { BadHeld(s, checks, k, p); }
      }
    }
  }

  lemma NextAfter(s: State, checks: seq<Check>, k: nat)
    requires |s.slots| == |checks| && k < |s.threads| && s.next <= |checks|
    ensures var t := Step(s, checks, k); t.next <= |checks| && t.next <= s.next + 1 && |t.slots| == |checks|
  {
  }

  lemma StepCaughtBad(s: State, checks: seq<Check>, k: nat)
    requires Exclusive(s) && Handled(s, checks) && CaughtBad(s, checks) && k < |s.threads|
    ensures CaughtBad(Step(s, checks, k), checks)
  {
    if s.threads[k].Working? { assert Holds(s.threads[k], s.threads[k].pos); }
  }

  lemma StepReportedOnce(s: State, checks: seq<Check>, k: nat)
    requires Handled(s, checks) && CaughtBad(s, checks) && ReportedOnce(s, checks) && k < |s.threads|
    ensures ReportedOnce(Step(s, checks, k), checks)
  {
    hide Held;
    var t := Step(s, checks, k);
    if t.flag && t.reported == [] {
      if s.threads[k].Caught? && !s.flag {
        assert t.threads[k].Reporting?;
      } else {
        var j :| 0 <= j < |s.threads| && s.threads[j].Reporting?;
        assert t.threads[j].Reporting?;
      }
    }
  }

  lemma StepStoppedWell(s: State, checks: seq<Check>, k: nat)
    requires Handled(s, checks) && StoppedWell(s, checks) && k < |s.threads|
    ensures StoppedWell(Step(s, checks, k), checks)
  {
    hide Held;
  }

  lemma StepInv(s: State, checks: seq<Check>, k: nat)
    requires Inv(s, checks) && k < |s.threads|
    ensures Inv(Step(s, checks, k), checks)
  {
    hide Step, Exclusive, CaughtBad, ReportedOnce, StoppedWell;
    StepExclusive(s, checks, k);
    StepHandled(s, checks, k);
    StepCaughtBad(s, checks, k);
    StepReportedOnce(s, checks, k);
    StepStoppedWell(s, checks, k);
  }

  lemma {:induction false} RunInv(s: State, checks: seq<Check>, ks: seq<nat>)
    requires Inv(s, checks) && Schedule(s, checks, ks)
    ensures Inv(Run(s, checks, ks), checks)
    decreases |ks|
  {
    hide Inv, Step;
    if ks != [] {
      StepInv(s, checks, ks[0]);
      RunInv(Step(s, checks, ks[0]), checks, ks[1..]);
    }
  }

  lemma StartInv(checks: seq<Check>, threads: nat)
    ensures Inv(Start(|checks|, threads), checks)
  {
  }

  // ----- the history of a schedule

  /** The indices handed out, in the order of the steps. */
  ghost function Claims(s: State, checks: seq<Check>, ks: seq<nat>): seq<nat>
    requires Schedule(s, checks, ks)
    decreases |ks|
  {
    if ks == [] then [] else
    (if s.threads[ks[0]] == Claiming && s.next != |checks| then [s.next] else []) +
    Claims(Step(s, checks, ks[0]), checks, ks[1..])
  }

  /** The indices verified, in the order of the steps. */
  ghost function Verified(s: State, checks: seq<Check>, ks: seq<nat>): seq<nat>
    requires Schedule(s, checks, ks)
    decreases |ks|
  {
    if ks == [] then [] else
    (if s.threads[ks[0]].Working? then [s.threads[ks[0]].pos] else []) +
    Verified(Step(s, checks, ks[0]), checks, ks[1..])
  }

  ghost predicate NoRepeat(l: seq<nat>) {
    forall i, j :: 0 <= i < j < |l| ==> l[i] != l[j]
  }

  /** `l` counts from `a` to before `b`. */
  ghost predicate Counts(l: seq<nat>, a: nat, b: nat) {
    a + |l| == b && forall i :: 0 <= i < |l| ==> l[i] == a + i
  }

  ghost predicate InWork(s: State, pos: nat) {
    exists k :: 0 <= k < |s.threads| && s.threads[k] == Working(pos)
  }

  lemma {:induction false} ClaimsCount(s: State, checks: seq<Check>, ks: seq<nat>)
    requires Schedule(s, checks, ks)
    ensures Counts(Claims(s, checks, ks), s.next, Run(s, checks, ks).next)
    decreases |ks|
  {
    if ks != [] {
      ClaimsCount(Step(s, checks, ks[0]), checks, ks[1..]);
    }
  }

  /** A step puts an index into work only as the next one in line, and takes only its own out. */
  lemma WorkAfter(s: State, checks: seq<Check>, k: nat, pos: nat)
    requires k < |s.threads| && |s.slots| == |checks|
    ensures var t := Step(s, checks, k);
            && (InWork(t, pos) ==> InWork(s, pos) || (pos == s.next && t.next == s.next + 1))
            && (InWork(s, pos) ==> InWork(t, pos) || s.threads[k] == Working(pos))
            && (s.next <= pos < t.next ==> InWork(t, pos))
            && s.next <= t.next
  {
    var t := Step(s, checks, k);
    forall j | 0 <= j < |s.threads| && j != k ensures t.threads[j] == s.threads[j] {}
    if s.next <= pos < t.next { assert t.threads[k] == Working(pos); }
    if j :| 0 <= j < |s.threads| && s.threads[j] == Working(pos) && j != k { assert t.threads[j] == Working(pos); }
  }

  /** What is verified later is in work now or not handed out yet. */
  lemma {:induction false} VerifiedLater(s: State, checks: seq<Check>, ks: seq<nat>, pos: nat)
    requires Schedule(s, checks, ks) && pos in Verified(s, checks, ks)
    ensures InWork(s, pos) || s.next <= pos
    decreases |ks|
  {
    hide Step;
    if s.threads[ks[0]] != Working(pos) {
      VerifiedLater(Step(s, checks, ks[0]), checks, ks[1..], pos);
      WorkAfter(s, checks, ks[0], pos);
    }
  }

  /** An index out of work is in no hands that would verify it. */
  lemma OutOfWork(s: State, checks: seq<Check>, k: nat, pos: nat)
    requires Exclusive(s) && k < |s.threads| && |s.slots| == |checks| && s.threads[k] == Working(pos)
    ensures !InWork(Step(s, checks, k), pos) && pos < Step(s, checks, k).next
  {
    assert Holds(s.threads[k], pos);
    var t := Step(s, checks, k);
    forall j | 0 <= j < |t.threads| ensures t.threads[j] != Working(pos) {
      if j != k { assert t.threads[j] == s.threads[j]; assert Holds(s.threads[j], pos) ==> j == k; }
    }
  }

  lemma {:induction false} VerifiedOnce(s: State, checks: seq<Check>, ks: seq<nat>)
    requires Schedule(s, checks, ks) && Exclusive(s)
    ensures NoRepeat(Verified(s, checks, ks))
    decreases |ks|
  {
    hide Step;
    if ks != [] {
      var t := Step(s, checks, ks[0]);
      StepExclusive(s, checks, ks[0]);
      VerifiedOnce(t, checks, ks[1..]);
      if s.threads[ks[0]].Working? {
        var pos, rest := s.threads[ks[0]].pos, Verified(t, checks, ks[1..]);
        OutOfWork(s, checks, ks[0], pos);
        if pos in rest { VerifiedLater(t, checks, ks[1..], pos); }
      }
    }
  }

  /** What is or gets into work is verified, unless it still is in work at the end. */
  lemma {:induction false} WorkIsDone(s: State, checks: seq<Check>, ks: seq<nat>, pos: nat)
    requires Schedule(s, checks, ks) && (InWork(s, pos) || s.next <= pos < Run(s, checks, ks).next)
    ensures pos in Verified(s, checks, ks) || InWork(Run(s, checks, ks), pos)
    decreases |ks|
  {
    hide Step;
    if ks != [] && s.threads[ks[0]] != Working(pos) {
      WorkAfter(s, checks, ks[0], pos);
      WorkIsDone(Step(s, checks, ks[0]), checks, ks[1..], pos);
    }
  }

  // ----- the flag stops the others

  /** Threads past their look at the flag and about to claim an index. */
  function Claimers(ts: seq<Thread>): nat {
    if ts == [] then 0 else Claimers(ts[..|ts| - 1]) + if ts[|ts| - 1] == Claiming then 1 else 0
  }

  lemma {:induction false} ClaimersChange(ts: seq<Thread>, k: nat, t: Thread)
    requires k < |ts|
    ensures Claimers(ts[k := t]) + (if ts[k] == Claiming then 1 else 0) ==
            Claimers(ts) + (if t == Claiming then 1 else 0)
    decreases |ts|
  {
    var n := |ts| - 1;
    if k < n {
      ClaimersChange(ts[..n], k, t);
      assert ts[k := t][..n] == ts[..n][k := t];
    } else {
      assert ts[k := t][..n] == ts[..n];
    }
  }

  lemma {:induction false} ClaimersBound(ts: seq<Thread>)
    ensures Claimers(ts) <= |ts|
  {
    if ts != [] { ClaimersBound(ts[..|ts| - 1]); }
  }

  /** Once the flag is set, only threads that looked at it before claim another index, each at most one. */
  lemma {:induction false} FlagStops(s: State, checks: seq<Check>, ks: seq<nat>)
    requires Schedule(s, checks, ks) && s.flag
    ensures |Claims(s, checks, ks)| <= Claimers(s.threads) <= |s.threads|
    decreases |ks|
  {
    ClaimersBound(s.threads);
    if ks != [] {
      var k := ks[0];
      var t := Step(s, checks, k);
      FlagStops(t, checks, ks[1..]);
      ClaimersChange(s.threads, k, t.threads[k]);
      assert t.threads == s.threads[k := t.threads[k]];
    }
  }

  /** In every schedule the indices are handed out one after the other, none is ever in two hands or
      verified twice, and at most one report is made. */
  lemma EveryScheduleIsSafe(checks: seq<Check>, threads: nat, ks: seq<nat>)
    requires Schedule(Start(|checks|, threads), checks, ks)
    ensures var s := Run(Start(|checks|, threads), checks, ks);
            && Exclusive(s) && |s.reported| <= 1
            && Counts(Claims(Start(|checks|, threads), checks, ks), 0, s.next)
            && NoRepeat(Verified(Start(|checks|, threads), checks, ks))
  {
    hide Step;
    StartInv(checks, threads);
    RunInv(Start(|checks|, threads), checks, ks);
    ClaimsCount(Start(|checks|, threads), checks, ks);
    VerifiedOnce(Start(|checks|, threads), checks, ks);
  }

  /** When all threads have stopped, exactly the indices handed out were verified, each once. */
  lemma VerifiedExact(checks: seq<Check>, threads: nat, ks: seq<nat>, pos: nat)
    requires Schedule(Start(|checks|, threads), checks, ks)
    requires Done(Run(Start(|checks|, threads), checks, ks))
    ensures var done := Verified(Start(|checks|, threads), checks, ks);
            NoRepeat(done) && (pos in done <==> pos < Run(Start(|checks|, threads), checks, ks).next)
  {
    hide Step;
    var s := Start(|checks|, threads);
    StartInv(checks, threads);
    VerifiedOnce(s, checks, ks);
    if pos < Run(s, checks, ks).next { WorkIsDone(s, checks, ks, pos); }
    if pos in Verified(s, checks, ks) { VerifiedBefore(s, checks, ks, pos); }
  }

  lemma {:induction false} VerifiedBefore(s: State, checks: seq<Check>, ks: seq<nat>, pos: nat)
    requires Schedule(s, checks, ks) && Inv(s, checks) && pos in Verified(s, checks, ks)
    ensures pos < Run(s, checks, ks).next
    decreases |ks|
  {
    hide Step, Handled, CaughtBad, ReportedOnce, StoppedWell;
    var t := Step(s, checks, ks[0]);
    StepInv(s, checks, ks[0]);
    if s.threads[ks[0]] == Working(pos) {
      assert Holds(s.threads[ks[0]], pos);
      NextGrows(s, checks, ks);
    } else {
      VerifiedBefore(t, checks, ks[1..], pos);
    }
  }

  lemma {:induction false} NextGrows(s: State, checks: seq<Check>, ks: seq<nat>)
    requires Schedule(s, checks, ks)
    ensures s.next <= Run(s, checks, ks).next
    decreases |ks|
  {
    if ks != [] { NextGrows(Step(s, checks, ks[0]), checks, ks[1..]); }
  }

  // ----- the result

  ghost predicate AllGood(checks: seq<Check>) {
    forall p :: 0 <= p < |checks| ==> checks[p].Good?
  }

  function Parse(checks: seq<Check>): (s: seq<Slot>)
    ensures |s| == |checks|
  {
    seq(|checks|, p requires 0 <= p < |checks| => if checks[p].Good? then Parsed(checks[p].tx) else Blank)
  }

  /** When all threads have stopped and none was bad, every transaction stands in its slot; otherwise
      the flag is set and exactly one bad transaction was reported. */
  lemma EveryScheduleIsRight(checks: seq<Check>, threads: nat, ks: seq<nat>)
    requires threads > 0 && Schedule(Start(|checks|, threads), checks, ks)
    requires Done(Run(Start(|checks|, threads), checks, ks))
    ensures var s := Run(Start(|checks|, threads), checks, ks);
            && (AllGood(checks) ==> !s.flag && s.reported == [] && s.slots == Parse(checks))
            && (!AllGood(checks) ==>
                  s.flag && |s.reported| == 1 && s.reported[0] < |checks| && checks[s.reported[0]].Bad?)
  {
    StartInv(checks, threads);
    RunInv(Start(|checks|, threads), checks, ks);
    RunThreads(Start(|checks|, threads), checks, ks);
    DoneIsRight(Run(Start(|checks|, threads), checks, ks), checks);
  }

  lemma {:induction false} RunThreads(s: State, checks: seq<Check>, ks: seq<nat>)
    requires Schedule(s, checks, ks)
    ensures |Run(s, checks, ks).threads| == |s.threads|
    decreases |ks|
  {
    hide Step;
    if ks != [] {
      SameThreads(s, checks, ks[0]);
      RunThreads(Step(s, checks, ks[0]), checks, ks[1..]);
    }
  }

  lemma DoneIsRight(s: State, checks: seq<Check>)
    requires Inv(s, checks) && Done(s) && |s.threads| > 0
    ensures AllGood(checks) ==> !s.flag && s.reported == [] && s.slots == Parse(checks)
    ensures !AllGood(checks) ==> s.flag && |s.reported| == 1 && s.reported[0] < |checks| && checks[s.reported[0]].Bad?
  {
    assert s.threads[0] == Finished;
    assert forall p: nat :: !Held(s, p);
    assert s.reported != [] ==> checks[s.reported[0]].Bad?;
    if AllGood(checks) {
      assert !s.flag;
      assert s.slots == Parse(checks);
    } else {
      var p :| 0 <= p < |checks| && !checks[p].Good?;
      assert s.flag;
    }
  }

  // ----- every schedule ends

  function Left(t: Thread): nat {
    match t
    case Finished => 0
    case Claiming => 1
    case Looping => 2
    case Reporting(_) => 3
    case Caught(_) => 4
    case Working(_) => 5
  }

  function LeftAll(ts: seq<Thread>): nat {
    if ts == [] then 0 else Left(ts[0]) + LeftAll(ts[1..])
  }

  lemma {:induction false} LeftUpdate(ts: seq<Thread>, k: nat, t: Thread)
    requires k < |ts|
    ensures LeftAll(ts[k := t]) == LeftAll(ts) - Left(ts[k]) + Left(t)
  {
    if k == 0 {
      assert ts[k := t][1..] == ts[1..];
    } else {
      LeftUpdate(ts[1..], k - 1, t);
      assert ts[k := t][1..] == ts[1..][k - 1 := t];
    }
  }

  function Budget(s: State, total: nat): int {
    5 * (total - s.next) + LeftAll(s.threads)
  }

  lemma StepSpends(s: State, checks: seq<Check>, k: nat)
    requires k < |s.threads| && |s.slots| == |checks| && s.threads[k] != Finished
    ensures Budget(Step(s, checks, k), |checks|) < Budget(s, |checks|)
  {
    var t := Step(s, checks, k);
    LeftUpdate(s.threads, k, t.threads[k]);
    assert t.threads == s.threads[k := t.threads[k]];
  }

  lemma {:induction false} RunSpends(s: State, checks: seq<Check>, ks: seq<nat>)
    requires Inv(s, checks) && Schedule(s, checks, ks)
    ensures |ks| <= Budget(s, |checks|)
    decreases |ks|
  {
    hide Step, Exclusive, CaughtBad, ReportedOnce, StoppedWell;
    if ks != [] {
      StepInv(s, checks, ks[0]);
      StepSpends(s, checks, ks[0]);
      RunSpends(Step(s, checks, ks[0]), checks, ks[1..]);
    }
  }

  lemma {:induction false} LeftLooping(ts: seq<Thread>)
    requires forall k :: 0 <= k < |ts| ==> ts[k] == Looping
    ensures LeftAll(ts) == 2 * |ts|
  {
    if ts != [] { LeftLooping(ts[1..]); }
  }

  /** No schedule is longer than five steps a transaction and two a thread. */
  lemma EveryScheduleEnds(checks: seq<Check>, threads: nat, ks: seq<nat>)
    requires Schedule(Start(|checks|, threads), checks, ks)
    ensures |ks| <= 5 * |checks| + 2 * threads
  {
    StartInv(checks, threads);
    RunSpends(Start(|checks|, threads), checks, ks);
    LeftLooping(Start(|checks|, threads).threads);
  }

  // ----- against the sequential loop

  datatype Verdict =
    | Accepted(txs: seq<Slot>)
    | Rejected(index: nat)    // the exception travels on
    | Aborted                 // rethrown where none is being handled

  /** The first bad index from `from` on, the length if there is none. */
  function BadFrom(checks: seq<Check>, from: nat): (i: nat)
    requires from <= |checks|
    ensures from <= i <= |checks| && (i < |checks| ==> checks[i].Bad?) && forall p :: from <= p < i ==> checks[p].Good?
    decreases |checks| - from
  {
    if from == |checks| || checks[from].Bad? then from else BadFrom(checks, from + 1)
  }

  function FirstBad(checks: seq<Check>): nat {
    BadFrom(checks, 0)
  }

  method Sequential(checks: seq<Check>) returns (v: Verdict, reported: seq<nat>)
    ensures AllGood(checks) ==> v == Accepted(Parse(checks)) && reported == []
    ensures !AllGood(checks) ==> v == Rejected(FirstBad(checks)) && reported == [FirstBad(checks)]
  {
    var txs: seq<Slot> := [];
    for i := 0 to |checks|
      invariant |txs| == i
      invariant forall p :: 0 <= p < i ==> checks[p].Good? && txs[p] == Parsed(checks[p].tx)
    {
      if checks[i].Bad? { return Rejected(i), [i]; }
      txs := txs + [Parsed(checks[i].tx)];
    }
    assert txs == Parse(checks);
    return Accepted(txs), [];
  }

  function SequentialVerdict(checks: seq<Check>): Verdict {
    if FirstBad(checks) == |checks| then Accepted(Parse(checks)) else Rejected(FirstBad(checks))
  }

  /** After the threads are joined: a bare rethrow outside any handler. */
  function ParallelVerdict(s: State): Verdict {
    if s.flag then Aborted else Accepted(s.slots)
  }

  /** The two variants of the code end alike exactly when no transaction is bad. */
  lemma VerdictsAgree(checks: seq<Check>, threads: nat, ks: seq<nat>)
    requires threads > 0 && Schedule(Start(|checks|, threads), checks, ks)
    requires Done(Run(Start(|checks|, threads), checks, ks))
    ensures ParallelVerdict(Run(Start(|checks|, threads), checks, ks)) == SequentialVerdict(checks) <==> AllGood(checks)
  {
    EveryScheduleIsRight(checks, threads, ks);
    var i := FirstBad(checks);
    assert AllGood(checks) <==> i == |checks|;
  }

  // ----- which transaction is reported

  lemma {:induction false} RunAppend(s: State, checks: seq<Check>, a: seq<nat>, b: seq<nat>)
    requires Schedule(s, checks, a) && Schedule(Run(s, checks, a), checks, b)
    ensures Schedule(s, checks, a + b) && Run(s, checks, a + b) == Run(Run(s, checks, a), checks, b)
    decreases |a|
  {
    hide Step;
    if a == [] {
      assert a + b == b;
    } else {
      RunAppend(Step(s, checks, a[0]), checks, a[1..], b);
      assert (a + b)[0] == a[0] && (a + b)[1..] == a[1..] + b;
    }
  }

  lemma OneStep(s: State, checks: seq<Check>, k: nat)
    requires k < |s.threads| && |s.slots| == |checks| && s.threads[k] != Finished
    ensures Schedule(s, checks, [k]) && Run(s, checks, [k]) == Step(s, checks, k)
  {
    hide Step;
    var ks := [k];
    assert ks[1..] == [];
  }

  /** A thread left alone fills the slots up to the next bad transaction. */
  lemma {:induction false} GoodRounds(s: State, checks: seq<Check>, k: nat, end: nat) returns (ks: seq<nat>)
    requires k < |s.threads| && |s.slots| == |checks| && s.threads[k] == Looping && !s.flag
    requires s.next <= end <= |checks| && forall p :: s.next <= p < end ==> checks[p].Good?
    ensures Schedule(s, checks, ks)
    ensures var t := Run(s, checks, ks);
            t.next == end && t.threads == s.threads && !t.flag && t.reported == s.reported && |t.slots| == |checks|
    decreases end - s.next
  {
    ks := [];
    if s.next < end {
      var t := GoodRound(s, checks, k);
      var rest := GoodRounds(t, checks, k, end);
      RunAppend(s, checks, [k, k, k], rest);
      ks := [k, k, k] + rest;
    }
  }

  lemma GoodRound(s: State, checks: seq<Check>, k: nat) returns (t: State)
    requires k < |s.threads| && |s.slots| == |checks| && s.threads[k] == Looping && !s.flag
    requires s.next < |checks| && checks[s.next].Good?
    ensures Schedule(s, checks, [k, k, k]) && Run(s, checks, [k, k, k]) == t
    ensures t.next == s.next + 1 && t.threads == s.threads && !t.flag
    ensures t.reported == s.reported && |t.slots| == |checks|
  {
    TwoSteps(s, checks, k);
    var u := Step(Step(s, checks, k), checks, k);
    t := Step(u, checks, k);
    OneStep(u, checks, k);
    RunAppend(s, checks, [k, k], [k]);
    assert [k, k] + [k] == [k, k, k];
    assert t.threads == s.threads;
  }

  /** Past the flag and on to the next index. */
  lemma TwoSteps(s: State, checks: seq<Check>, k: nat)
    requires k < |s.threads| && |s.slots| == |checks| && s.threads[k] == Looping && !s.flag && s.next < |checks|
    ensures Schedule(s, checks, [k, k]) && Run(s, checks, [k, k]) == Step(Step(s, checks, k), checks, k)
    ensures Run(s, checks, [k, k]) == s.(next := s.next + 1, threads := s.threads[k := Working(s.next)])
  {
    var t := Step(s, checks, k);
    OneStep(s, checks, k);
    OneStep(t, checks, k);
    RunAppend(s, checks, [k], [k]);
    assert [k] + [k] == [k, k];
  }

  /** Fail, win the exchange and report. */
  lemma ThreeSteps(s: State, checks: seq<Check>, k: nat)
    requires k < |s.threads| && |s.slots| == |checks| && s.threads[k].Working? && !s.flag
    requires s.threads[k].pos < |checks| && checks[s.threads[k].pos].Bad?
    ensures Schedule(s, checks, [k, k, k]) && Run(s, checks, [k, k, k]).reported == s.reported + [s.threads[k].pos]
  {
    var t := Step(s, checks, k);
    var u := Step(t, checks, k);
    OneStep(s, checks, k);
    OneStep(t, checks, k);
    OneStep(u, checks, k);
    RunAppend(s, checks, [k], [k]);
    assert [k] + [k] == [k, k];
    RunAppend(s, checks, [k, k], [k]);
    assert [k, k] + [k] == [k, k, k];
  }

  /** One thread is held up at the first bad transaction while another reaches and reports the second. */
  lemma SecondReported(checks: seq<Check>, threads: nat, f: nat, g: nat) returns (ks: seq<nat>)
    requires threads >= 2 && f < g < |checks| && checks[f].Bad? && checks[g].Bad?
    requires forall p :: 0 <= p < g && p != f ==> checks[p].Good?
    ensures Schedule(Start(|checks|, threads), checks, ks)
    ensures Run(Start(|checks|, threads), checks, ks).reported == [g]
  {
    hide Run, Schedule, Step;
    var s := Start(|checks|, threads);
    var a := GoodRounds(s, checks, 0, f);
    var t := Run(s, checks, a);
    TwoSteps(t, checks, 0);
    RunAppend(s, checks, a, [0, 0]);
    t := Run(t, checks, [0, 0]);
    var b := GoodRounds(t, checks, 1, g);
    RunAppend(s, checks, a + [0, 0], b);
    t := Run(t, checks, b);
    TwoSteps(t, checks, 1);
    RunAppend(s, checks, a + [0, 0] + b, [1, 1]);
    t := Run(t, checks, [1, 1]);
    ThreeSteps(t, checks, 1);
    RunAppend(s, checks, a + [0, 0] + b + [1, 1], [1, 1, 1]);
    ks := a + [0, 0] + b + [1, 1] + [1, 1, 1];
  }

  /** Every schedule can be completed. */
  lemma {:induction false} Complete(s: State, checks: seq<Check>) returns (ks: seq<nat>)
    requires Inv(s, checks)
    ensures Schedule(s, checks, ks) && Done(Run(s, checks, ks))
    decreases Budget(s, |checks|)
  {
    hide Step, Exclusive, CaughtBad, ReportedOnce, StoppedWell, LeftAll;
    ks := [];
    if !Done(s) {
      var k :| 0 <= k < |s.threads| && s.threads[k] != Finished;
      StepInv(s, checks, k);
      StepSpends(s, checks, k);
      OneStep(s, checks, k);
      var rest := Complete(Step(s, checks, k), checks);
      RunAppend(s, checks, [k], rest);
      ks := [k] + rest;
    }
  }

  lemma {:induction false} ReportStays(s: State, checks: seq<Check>, ks: seq<nat>)
    requires Schedule(s, checks, ks)
    ensures s.reported <= Run(s, checks, ks).reported
    decreases |ks|
  {
    if ks != [] { ReportStays(Step(s, checks, ks[0]), checks, ks[1..]); }
  }

  ghost predicate OneBad(checks: seq<Check>) {
    forall p, q :: 0 <= p < |checks| && 0 <= q < |checks| && checks[p].Bad? && checks[q].Bad? ==> p == q
  }

  /** With two bad transactions a complete schedule can report another than the first. */
  lemma SomeScheduleDiffers(checks: seq<Check>, threads: nat) returns (ks: seq<nat>)
    requires threads >= 2 && !AllGood(checks) && !OneBad(checks)
    ensures var s := Start(|checks|, threads);
            Schedule(s, checks, ks) && Done(Run(s, checks, ks)) && Run(s, checks, ks).reported != [FirstBad(checks)]
  {
    hide Run, Schedule, Inv;
    var f := FirstBad(checks);
    SecondBad(checks);
    var g := BadFrom(checks, f + 1);
    var s := Start(|checks|, threads);
    var a := SecondReported(checks, threads, f, g);
    StartInv(checks, threads);
    RunInv(s, checks, a);
    var b := Complete(Run(s, checks, a), checks);
    RunAppend(s, checks, a, b);
    ReportStays(Run(s, checks, a), checks, b);
    ks := a + b;
    assert Run(s, checks, ks).reported[0] == [g][0];
  }

  lemma SecondBad(checks: seq<Check>)
    requires !OneBad(checks)
    ensures FirstBad(checks) < |checks| && BadFrom(checks, FirstBad(checks) + 1) < |checks|
  {
    hide BadFrom;
    var p, q :| 0 <= p < |checks| && 0 <= q < |checks| && checks[p].Bad? && checks[q].Bad? && p != q;
    var f := FirstBad(checks);
    assert p >= f && q >= f;
    assert BadFrom(checks, f + 1) <= if p == f then q else p;
  }

  /** Whatever the schedule, the report names the transaction the sequential loop names, exactly
      when only one is bad. */
  lemma ReportExact(checks: seq<Check>, threads: nat)
    requires threads >= 2 && !AllGood(checks)
    ensures (forall ks ::
               Schedule(Start(|checks|, threads), checks, ks) && Done(Run(Start(|checks|, threads), checks, ks)) ==>
               Run(Start(|checks|, threads), checks, ks).reported == [FirstBad(checks)]) <==> OneBad(checks)
  {
    var s := Start(|checks|, threads);
    if OneBad(checks) {
      forall ks | Schedule(s, checks, ks) && Done(Run(s, checks, ks))
        ensures Run(s, checks, ks).reported == [FirstBad(checks)]
      {
        EveryScheduleIsRight(checks, threads, ks);
        var r := Run(s, checks, ks).reported;
        assert r == [r[0]] && r[0] == FirstBad(checks);
      }
    } else {
      var ks := SomeScheduleDiffers(checks, threads);
    }
  }
}
