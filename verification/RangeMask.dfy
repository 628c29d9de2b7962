/** A set of 32-bit integers inside a ground range, kept as an ordered map of disjoint intervals. */
module RangeMask {
  import opened Wrappers

  const LIMIT := 0x1_0000_0000

  /** The interval from `lo` to before `hi`. */
  datatype Range = Range(lo: nat, hi: nat) {
    predicate Holds(x: int) { lo <= x < hi }
  }

  ghost predicate Has(rs: seq<Range>, x: int) {
    exists j :: 0 <= j < |rs| && rs[j].Holds(x)
  }

  /** Non-empty intervals in ascending order, neither overlapping nor touching. */
  ghost predicate Apart(rs: seq<Range>) {
    && (forall j :: 0 <= j < |rs| ==> rs[j].lo < rs[j].hi)
    && (forall i, j :: 0 <= i < j < |rs| ==> rs[i].hi < rs[j].lo)
  }

  ghost predicate Inside(rs: seq<Range>, all: Range) {
    && all.lo <= all.hi < LIMIT
    && forall j :: 0 <= j < |rs| ==> all.lo <= rs[j].lo && rs[j].hi <= all.hi
  }

  ghost predicate Canonical(rs: seq<Range>, all: Range) {
    Apart(rs) && Inside(rs, all)
  }

  /** `upper_bound`: the first interval that starts after `i`. */
  function UpperBound(rs: seq<Range>, i: int): (k: nat)
    requires Apart(rs)
    ensures k <= |rs|
    ensures forall j :: 0 <= j < k ==> rs[j].lo <= i
    ensures forall j :: k <= j < |rs| ==> rs[j].lo > i
  {
    if rs == [] || rs[0].lo > i then 0 else
    assert forall j :: 1 <= j < |rs| ==> rs[j] == rs[1..][j - 1];
    1 + UpperBound(rs[1..], i)
  }

  /** Only the interval before the bound can hold `i`. */
  lemma BoundDecides(rs: seq<Range>, i: int)
    requires Apart(rs)
    ensures var k := UpperBound(rs, i); Has(rs, i) <==> k > 0 && rs[k - 1].hi > i
  {
    var k := UpperBound(rs, i);
    forall j | 0 <= j && j + 1 < k ensures rs[j].hi < rs[k - 1].lo {}
    if k > 0 && rs[k - 1].hi > i { assert rs[k - 1].Holds(i); }
  }

  // ----- one representation per set

  /** The least element of a canonical list is the start of its first interval. */
  lemma FirstIsLeast(rs: seq<Range>, x: int)
    requires Apart(rs) && Has(rs, x)
    ensures rs[0].lo <= x && Has(rs, rs[0].lo)
  {
    assert rs[0].Holds(rs[0].lo);
  }

  /** Right behind the first interval nothing is held. */
  lemma FirstIsWhole(rs: seq<Range>)
    requires Apart(rs) && rs != []
    ensures !Has(rs, rs[0].hi) && forall x :: rs[0].lo <= x < rs[0].hi ==> Has(rs, x)
  {
    forall x | rs[0].lo <= x < rs[0].hi ensures Has(rs, x) { assert rs[0].Holds(x); }
  }

  lemma TailHas(rs: seq<Range>, x: int)
    requires Apart(rs) && rs != []
    ensures Has(rs[1..], x) <==> Has(rs, x) && !rs[0].Holds(x)
  {
    if j :| 0 <= j < |rs[1..]| && rs[1..][j].Holds(x) { assert rs[j + 1].Holds(x); }
    if j :| 0 <= j < |rs| && rs[j].Holds(x) {
      if j > 0 { assert rs[1..][j - 1].Holds(x); }
    }
  }

  ghost predicate SameSet(a: seq<Range>, b: seq<Range>) {
    forall x :: Has(a, x) <==> Has(b, x)
  }

  lemma SameHead(a: seq<Range>, b: seq<Range>)
    requires Apart(a) && Apart(b) && SameSet(a, b) && a != [] && b != []
    ensures a[0] == b[0]
  {
    FirstIsWhole(a);
    FirstIsWhole(b);
    assert Has(a, a[0].lo) && Has(b, b[0].lo);
    FirstIsLeast(b, a[0].lo);
    FirstIsLeast(a, b[0].lo);
  }

  lemma NotEmpty(a: seq<Range>)
    requires Apart(a) && a != []
    ensures !SameSet([], a) && !SameSet(a, [])
  {
    FirstIsWhole(a);
    assert !Has([], a[0].lo) && Has(a, a[0].lo);
  }

  /** Canonical lists holding the same elements are the same list. */
  lemma {:induction false} CanonicalIsUnique(a: seq<Range>, b: seq<Range>)
    requires Apart(a) && Apart(b) && SameSet(a, b)
    ensures a == b
  {
    if a == [] {
      if b != [] { NotEmpty(b); }
    } else if b == [] {
      NotEmpty(a);
    } else {
      SameHead(a, b);
      forall x ensures Has(a[1..], x) <==> Has(b[1..], x) {
        TailHas(a, x);
        TailHas(b, x);
      }
      CanonicalIsUnique(a[1..], b[1..]);
      assert a == [a[0]] + a[1..] && b == [b[0]] + b[1..];
    }
  }

  // ----- merging

  /** Intervals `a` up to `b` give way to one. */
  function Splice(rs: seq<Range>, a: nat, b: nat, r: Range): seq<Range>
    requires a <= b <= |rs|
  {
    rs[..a] + [r] + rs[b..]
  }

  lemma SpliceAt(rs: seq<Range>, a: nat, b: nat, r: Range, j: nat)
    requires a <= b <= |rs| && j < |rs| - b + a + 1
    ensures |Splice(rs, a, b, r)| == |rs| - b + a + 1
    ensures Splice(rs, a, b, r)[j] == if j < a then rs[j] else if j == a then r else rs[j - a - 1 + b]
  {
  }

  lemma SpliceClear(rs: seq<Range>, a: nat, b: nat, r: Range)
    requires Apart(rs) && a <= b <= |rs|
    requires (a > 0 ==> rs[a - 1].hi < r.lo) && (b < |rs| ==> r.hi < rs[b].lo)
    ensures forall j :: 0 <= j < a ==> rs[j].hi < r.lo
    ensures forall j :: b <= j < |rs| ==> r.hi < rs[j].lo
  {
    forall j | 0 <= j < a ensures rs[j].hi < r.lo {
      if j < a - 1 { assert rs[j].hi < rs[a - 1].lo; }
    }
    forall j | b <= j < |rs| ensures r.hi < rs[j].lo {
      if b < j { assert rs[b].hi < rs[j].lo; }
    }
  }

  lemma SpliceCanonical(rs: seq<Range>, a: nat, b: nat, r: Range, all: Range)
    requires Canonical(rs, all) && a <= b <= |rs| && all.lo <= r.lo < r.hi <= all.hi
    requires (a > 0 ==> rs[a - 1].hi < r.lo) && (b < |rs| ==> r.hi < rs[b].lo)
    ensures Canonical(Splice(rs, a, b, r), all)
  {
    hide Splice;
    var s := Splice(rs, a, b, r);
    SpliceAt(rs, a, b, r, 0);
    SpliceClear(rs, a, b, r);
    forall j | 0 <= j < |s| ensures s[j].lo < s[j].hi && all.lo <= s[j].lo && s[j].hi <= all.hi {
      SpliceAt(rs, a, b, r, j);
    }
    forall i, j | 0 <= i < j < |s| ensures s[i].hi < s[j].lo {
      SpliceAt(rs, a, b, r, i);
      SpliceAt(rs, a, b, r, j);
      if i < a && j > a { assert rs[i].hi < rs[j - a - 1 + b].lo; }
    }
  }

  lemma SpliceHas(rs: seq<Range>, a: nat, b: nat, r: Range, x: int)
    requires a <= b <= |rs| && forall j :: a <= j < b ==> r.lo <= rs[j].lo && rs[j].hi <= r.hi
    ensures Has(Splice(rs, a, b, r), x) <==> Has(rs, x) || r.Holds(x)
  {
    var s := Splice(rs, a, b, r);
    if j :| 0 <= j < |s| && s[j].Holds(x) {
      assert s[j] == if j < a then rs[j] else if j == a then r else rs[j - a - 1 + b];
    }
    if r.Holds(x) { assert s[a].Holds(x); }
    if j :| 0 <= j < |rs| && rs[j].Holds(x) {
      if j < a { assert s[j].Holds(x); }
      else if j < b { assert s[a].Holds(x); }
      else { assert s[j - b + a + 1] == rs[j]; }
    }
  }

  // ----- the complement

  /** What lies between the intervals, from `last` to before `end`. */
  function Gaps(rs: seq<Range>, last: nat, end: nat): seq<Range> {
    if rs == [] then
      if last != end then [Range(last, end)] else []
    else
      (if rs[0].lo != last then [Range(last, rs[0].lo)] else []) + Gaps(rs[1..], rs[0].hi, end)
  }

  lemma TailCanonical(rs: seq<Range>, all: Range)
    requires Canonical(rs, all) && rs != []
    ensures Canonical(rs[1..], Range(rs[0].hi, all.hi))
  {
    forall j | 0 <= j < |rs[1..]| ensures rs[0].hi <= rs[1..][j].lo { assert rs[0].hi < rs[j + 1].lo; }
  }

  lemma ConsCanonical(r: Range, rs: seq<Range>, all: Range, mid: nat)
    requires all.lo <= r.lo < r.hi < mid <= all.hi && Canonical(rs, Range(mid, all.hi))
    ensures Canonical([r] + rs, all)
  {
  }

  lemma ConsHas(r: Range, rs: seq<Range>, x: int)
    ensures Has([r] + rs, x) <==> r.Holds(x) || Has(rs, x)
  {
    var s := [r] + rs;
    if r.Holds(x) { assert s[0].Holds(x); }
    if j :| 0 <= j < |rs| && rs[j].Holds(x) { assert s[j + 1].Holds(x); }
  }

  lemma {:induction false} GapsCanonical(rs: seq<Range>, all: Range)
    requires Canonical(rs, all)
    ensures Canonical(Gaps(rs, all.lo, all.hi), all)
  {
    if rs != [] {
      TailCanonical(rs, all);
      GapsCanonical(rs[1..], Range(rs[0].hi, all.hi));
      var rest := Gaps(rs[1..], rs[0].hi, all.hi);
      if rs[0].lo != all.lo {
        ConsCanonical(Range(all.lo, rs[0].lo), rest, all, rs[0].hi);
      } else {
        assert [] + rest == rest;
      }
    }
  }

  lemma {:induction false} GapsHas(rs: seq<Range>, all: Range, x: int)
    requires Canonical(rs, all)
    ensures Has(Gaps(rs, all.lo, all.hi), x) <==> all.Holds(x) && !Has(rs, x)
  {
    if rs == [] {
      if all.Holds(x) { assert Gaps(rs, all.lo, all.hi)[0].Holds(x); }
    } else {
      TailCanonical(rs, all);
      GapsHas(rs[1..], Range(rs[0].hi, all.hi), x);
      TailHas(rs, x);
      if Has(rs, x) { FirstIsLeast(rs, x); }
      if rs[0].Holds(x) { assert Has(rs, x); }
      var rest := Gaps(rs[1..], rs[0].hi, all.hi);
      ConsHas(Range(all.lo, rs[0].lo), rest, x);
      assert rs[0].lo == all.lo ==> [] + rest == rest;
    }
  }

  /** Complementing twice changes nothing. */
  lemma GapsInvolution(rs: seq<Range>, all: Range)
    requires Canonical(rs, all)
    ensures Gaps(Gaps(rs, all.lo, all.hi), all.lo, all.hi) == rs
  {
    hide Gaps, Has, Apart, Inside;
    var once := Gaps(rs, all.lo, all.hi);
    GapsCanonical(rs, all);
    GapsCanonical(once, all);
    forall x ensures Has(Gaps(once, all.lo, all.hi), x) <==> Has(rs, x) {
      GapsHas(rs, all, x);
      GapsHas(once, all, x);
      if Has(rs, x) { HasInside(rs, all, x); }
    }
    CanonicalIsUnique(Gaps(once, all.lo, all.hi), rs);
  }

  lemma HasInside(rs: seq<Range>, all: Range, x: int)
    requires Inside(rs, all) && Has(rs, x)
    ensures all.Holds(x)
  {
  }

  // ----- counting

  /** How many elements lie below `x`. */
  ghost function Count(rs: seq<Range>, x: nat): nat {
    if x == 0 then 0 else Count(rs, x - 1) + (if Has(rs, x - 1) then 1 else 0)
  }

  /** The same, interval by interval. */
  function Rank(rs: seq<Range>, x: nat): nat {
    if rs == [] then 0
    else (if x <= rs[0].lo then 0 else if x < rs[0].hi then x - rs[0].lo
        else if rs[0].lo <= rs[0].hi then rs[0].hi - rs[0].lo else 0)
         + Rank(rs[1..], x)
  }

  lemma {:induction false} RankStep(rs: seq<Range>, x: nat)
    requires Apart(rs)
    ensures Rank(rs, x + 1) == Rank(rs, x) + if Has(rs, x) then 1 else 0
  {
    if rs != [] {
      RankStep(rs[1..], x);
      TailHas(rs, x);
      if rs[0].Holds(x) { assert Has(rs, x); }
    }
  }

  lemma {:induction false} RankZero(rs: seq<Range>)
    ensures Rank(rs, 0) == 0
  {
    if rs != [] { RankZero(rs[1..]); }
  }

  lemma {:induction false} RankCounts(rs: seq<Range>, x: nat)
    requires Apart(rs)
    ensures Rank(rs, x) == Count(rs, x)
    decreases x
  {
    RankZero(rs);
    if x > 0 {
      RankCounts(rs, x - 1);
      RankStep(rs, x - 1);
    }
  }

  /** The sum of the interval lengths. */
  function Total(rs: seq<Range>): int {
    if rs == [] then 0 else rs[0].hi - rs[0].lo + Total(rs[1..])
  }

  lemma {:induction false} TotalIsRank(rs: seq<Range>, end: nat)
    requires Apart(rs) && forall j :: 0 <= j < |rs| ==> rs[j].hi <= end
    ensures Total(rs) == Rank(rs, end)
  {
    if rs != [] { TotalIsRank(rs[1..], end); }
  }

  lemma {:induction false} TotalAppend(rs: seq<Range>, r: Range)
    ensures Total(rs + [r]) == Total(rs) + (r.hi - r.lo)
  {
    if rs == [] {
      assert rs + [r] == [r] && [r][1..] == [];
    } else {
      TotalAppend(rs[1..], r);
      assert (rs + [r])[1..] == rs[1..] + [r];
    }
  }

  // ----- the lowest elements

  /** As the source has it, in 32-bit arithmetic. */
  function Lowest(rs: seq<Range>, items: nat): seq<Range> {
    if rs == [] || items == 0 then []
    else
      var e := Min((rs[0].lo + items) % LIMIT, rs[0].hi);
      [Range(rs[0].lo, e)] + Lowest(rs[1..], (items - (e - rs[0].lo)) % LIMIT)
  }

  /** What is taken of the first interval, and how many are wanted of the rest, modulo 2^32. */
  lemma LowestForm(r: Range, rest: seq<Range>, items: nat)
    requires items > 0
    ensures var end := (r.lo + items) % 4294967296;
            var taken := if end < r.hi then end - r.lo else r.hi - r.lo;
            Lowest([r] + rest, items) == [Range(r.lo, if end < r.hi then end else r.hi)] +
                                         Lowest(rest, (items - taken) % 4294967296)
  {
    assert ([r] + rest)[1..] == rest;
  }

  /** Some interval reached with items still wanted starts too near the top of the number range. */
  predicate Overflows(rs: seq<Range>, items: nat) {
    && rs != [] && items > 0
    && (rs[0].lo + items >= 0x1_0000_0000 ||
        (rs[0].lo <= rs[0].hi && items > rs[0].hi - rs[0].lo && Overflows(rs[1..], items - (rs[0].hi - rs[0].lo))))
  }

  /** `low` holds exactly the elements with fewer than `items` elements below them. */
  ghost predicate AreLowest(low: seq<Range>, rs: seq<Range>, items: nat) {
    forall x: nat :: Has(low, x) <==> Has(rs, x) && Count(rs, x) < items
  }

  lemma Small(n: nat)
    requires n < LIMIT
    ensures n % LIMIT == n
  {
  }

  lemma ShortRange(rs: seq<Range>, all: Range, items: nat)
    requires Canonical(rs, all) && rs != [] && 0 < items && rs[0].lo + items < LIMIT && items > rs[0].hi - rs[0].lo
    ensures Lowest(rs, items) == [rs[0]] + Lowest(rs[1..], items - (rs[0].hi - rs[0].lo))
  {
    hide Apart;
    Small(rs[0].lo + items);
    Small(items - (rs[0].hi - rs[0].lo));
  }

  lemma LastRange(rs: seq<Range>, all: Range, items: nat)
    requires Canonical(rs, all) && rs != [] && 0 < items && rs[0].lo + items < LIMIT && items <= rs[0].hi - rs[0].lo
    ensures Lowest(rs, items) == [Range(rs[0].lo, rs[0].lo + items)]
  {
    hide Apart;
    Small(rs[0].lo + items);
    assert Lowest(rs[1..], 0) == [];
  }

  lemma WrappedRange(rs: seq<Range>, all: Range, items: nat)
    requires Canonical(rs, all) && rs != [] && 0 < items < LIMIT && rs[0].lo + items >= LIMIT
    ensures Lowest(rs, items) == [Range(rs[0].lo, rs[0].lo + items - LIMIT)]
  {
    assert (rs[0].lo + items) % LIMIT == rs[0].lo + items - LIMIT;
    assert Lowest(rs[1..], 0) == [];
  }

  lemma {:induction false} LowestHas(rs: seq<Range>, all: Range, items: nat, x: nat)
    requires Canonical(rs, all) && items < LIMIT && !Overflows(rs, items)
    ensures Has(Lowest(rs, items), x) <==> Has(rs, x) && Rank(rs, x) < items
  {
    hide Lowest;
    if rs == [] || items == 0 {
      NothingLowest(rs, items);
    } else {
      TailCanonical(rs, all);
      TailHas(rs, x);
      if rs[0].Holds(x) { assert Has(rs, x); }
      if Has(rs, x) { FirstIsLeast(rs, x); }
      var size := rs[0].hi - rs[0].lo;
      RankBelow(rs[1..], x, rs[0].hi);
      if items > size {
        ShortRange(rs, all, items);
        ConsHas(rs[0], Lowest(rs[1..], items - size), x);
        LowestHas(rs[1..], Range(rs[0].hi, all.hi), items - size, x);
      } else {
        LastRange(rs, all, items);
        ConsHas(Range(rs[0].lo, rs[0].lo + items), [], x);
        assert [Range(rs[0].lo, rs[0].lo + items)] + [] == [Range(rs[0].lo, rs[0].lo + items)];
      }
    }
  }

  lemma NothingLowest(rs: seq<Range>, items: nat)
    requires rs == [] || items == 0
    ensures Lowest(rs, items) == []
  {
  }

  lemma {:induction false} RankBelow(rs: seq<Range>, x: nat, lo: nat)
    requires forall j :: 0 <= j < |rs| ==> lo <= rs[j].lo
    ensures x <= lo ==> Rank(rs, x) == 0
  {
    if rs != [] { RankBelow(rs[1..], x, lo); }
  }

  /** After an overflow an element is missing. */
  lemma {:induction false} OverflowMisses(rs: seq<Range>, all: Range, items: nat) returns (x: nat)
    requires Canonical(rs, all) && items < LIMIT && Overflows(rs, items)
    ensures Has(rs, x) && Rank(rs, x) < items && !Has(Lowest(rs, items), x)
  {
    hide Lowest;
    TailCanonical(rs, all);
    if rs[0].lo + items >= LIMIT {
      x := rs[0].lo;
      assert rs[0].Holds(x);
      RankBelow(rs[1..], x, rs[0].hi);
      WrappedRange(rs, all, items);
    } else {
      var size := rs[0].hi - rs[0].lo;
      x := OverflowMisses(rs[1..], Range(rs[0].hi, all.hi), items - size);
      TailHas(rs, x);
      FirstIsLeast(rs, x);
      ShortRange(rs, all, items);
      ConsHas(rs[0], Lowest(rs[1..], items - size), x);
    }
  }

  /** The lowest elements are found exactly when nothing overflows. */
  lemma LowestExact(rs: seq<Range>, all: Range, items: nat)
    requires Canonical(rs, all) && items < LIMIT
    ensures AreLowest(Lowest(rs, items), rs, items) <==> !Overflows(rs, items)
  {
    if Overflows(rs, items) {
      var x := OverflowMisses(rs, all, items);
      RankCounts(rs, x);
    } else {
      forall x: nat ensures Has(Lowest(rs, items), x) <==> Has(rs, x) && Count(rs, x) < items {
        LowestHas(rs, all, items, x);
        RankCounts(rs, x);
      }
    }
  }

  // ----- the object

  /** So far the part of `m` below `i` has been added. */
  ghost predicate Added(now: seq<Range>, before: seq<Range>, m: Range, i: int) {
    forall x :: Has(now, x) <==> Has(before, x) || m.lo <= x < Min(i, m.hi)
  }

  /** The new interval continues the one that ends at `i`, if any, and takes in the next one, if it is near. */
  lemma MergeStep(now: seq<Range>, before: seq<Range>, m: Range, i: nat, a: nat, b: nat, r: Range)
    requires Apart(now) && Added(now, before, m, i) && m.lo <= i < m.hi && a <= b <= |now|
    requires r.lo == i || (a < b && now[a] == Range(r.lo, i))
    requires r.hi == m.hi || (a < b && now[b - 1].hi == r.hi && i < now[b - 1].lo <= m.hi)
    requires forall j :: a <= j < b ==> r.lo <= now[j].lo && now[j].hi <= r.hi
    requires i <= r.hi
    ensures Added(Splice(now, a, b, r), before, m, r.hi)
  {
    hide Splice;
    forall x ensures Has(Splice(now, a, b, r), x) <==> Has(before, x) || m.lo <= x < Min(r.hi, m.hi) {
      SpliceHas(now, a, b, r, x);
      if r.Holds(x) && x < i { assert now[a].Holds(x); }
      if r.Holds(x) && x >= m.hi { assert now[b - 1].Holds(x); }
    }
  }

  lemma SkipStep(now: seq<Range>, before: seq<Range>, m: Range, i: nat, k: nat)
    requires Added(now, before, m, i) && m.lo <= i && k < |now| && now[k].Holds(i)
    ensures Added(now, before, m, now[k].hi)
  {
    hide Canonical;
    forall x ensures Has(now, x) <==> Has(before, x) || m.lo <= x < Min(now[k].hi, m.hi) {
      if i <= x < now[k].hi { assert now[k].Holds(x); }
    }
  }

  /** Between two intervals, away from both. */
  lemma NewRange(now: seq<Range>, before: seq<Range>, m: Range, i: nat, all: Range)
    requires Canonical(now, all) && Added(now, before, m, i) && all.lo <= m.lo <= i < m.hi <= all.hi
    requires var k := UpperBound(now, i); (k > 0 ==> now[k - 1].hi < i) && (k < |now| ==> m.hi < now[k].lo)
    ensures var k := UpperBound(now, i);
            var s := Splice(now, k, k, Range(i, m.hi)); Canonical(s, all) && Apart(s) && Added(s, before, m, m.hi)
  {
    hide Has, Splice, Added;
    var k := UpperBound(now, i);
    MergeStep(now, before, m, i, k, k, Range(i, m.hi));
    SpliceCanonical(now, k, k, Range(i, m.hi), all);
  }

  /** The next interval is within reach. */
  lemma TakeNext(now: seq<Range>, before: seq<Range>, m: Range, i: nat, all: Range)
    requires Canonical(now, all) && Added(now, before, m, i) && all.lo <= m.lo <= i < m.hi <= all.hi
    requires var k := UpperBound(now, i); (k > 0 ==> now[k - 1].hi < i) && k < |now| && now[k].lo <= m.hi
    ensures var k := UpperBound(now, i);
            var s := Splice(now, k, k + 1, Range(i, now[k].hi));
            Canonical(s, all) && Apart(s) && Added(s, before, m, now[k].hi)
  {
    hide Has, Splice, Added;
    var k := UpperBound(now, i);
    MergeStep(now, before, m, i, k, k + 1, Range(i, now[k].hi));
    SpliceCanonical(now, k, k + 1, Range(i, now[k].hi), all);
  }

  /** The interval before ends here; the next one is out of reach. */
  lemma ExtendLast(now: seq<Range>, before: seq<Range>, m: Range, i: nat, all: Range)
    requires Canonical(now, all) && Added(now, before, m, i) && all.lo <= m.lo <= i < m.hi <= all.hi
    requires var k := UpperBound(now, i); k > 0 && now[k - 1].hi == i && (k < |now| ==> m.hi < now[k].lo)
    ensures var k := UpperBound(now, i);
            var s := Splice(now, k - 1, k, Range(now[k - 1].lo, m.hi));
            Canonical(s, all) && Apart(s) && Added(s, before, m, m.hi)
  {
    hide Has, Splice, Added;
    var k := UpperBound(now, i);
    MergeStep(now, before, m, i, k - 1, k, Range(now[k - 1].lo, m.hi));
    SpliceCanonical(now, k - 1, k, Range(now[k - 1].lo, m.hi), all);
  }

  /** The interval before ends here and the next one is within reach. */
  lemma Bridge(now: seq<Range>, before: seq<Range>, m: Range, i: nat, all: Range)
    requires Canonical(now, all) && Added(now, before, m, i) && all.lo <= m.lo <= i < m.hi <= all.hi
    requires var k := UpperBound(now, i); k > 0 && now[k - 1].hi == i && k < |now| && now[k].lo <= m.hi
    ensures var k := UpperBound(now, i);
            var s := Splice(now, k - 1, k + 1, Range(now[k - 1].lo, now[k].hi));
            Canonical(s, all) && Apart(s) && Added(s, before, m, now[k].hi)
  {
    hide Has, Splice, Added;
    var k := UpperBound(now, i);
    MergeStep(now, before, m, i, k - 1, k + 1, Range(now[k - 1].lo, now[k].hi));
    SpliceCanonical(now, k - 1, k + 1, Range(now[k - 1].lo, now[k].hi), all);
  }

  lemma NothingAdded(rs: seq<Range>, m: Range)
    ensures Added(rs, rs, m, m.lo)
  {
  }

  lemma AllAdded(now: seq<Range>, before: seq<Range>, m: Range, i: int)
    requires m.hi <= i && Added(now, before, m, i)
    ensures forall x :: Has(now, x) <==> Has(before, x) || m.Holds(x)
  {
    hide Has;
  }

  function Hull(a: Range, b: Range): Range {
    Range(Min(a.lo, b.lo), Max(a.hi, b.hi))
  }

  /** The least range around both. */
  lemma HullExact(a: Range, b: Range, c: Range)
    ensures var h := Hull(a, b); h.lo <= a.lo && h.lo <= b.lo && a.hi <= h.hi && b.hi <= h.hi
    ensures c.lo <= a.lo && c.lo <= b.lo && a.hi <= c.hi && b.hi <= c.hi ==>
              c.lo <= Hull(a, b).lo && Hull(a, b).hi <= c.hi
  {
  }

  class Mask {
    var all: Range
    var ranges: seq<Range>

    ghost predicate Valid()
      reads this
    {
      Canonical(ranges, all)
    }

    constructor (ground: Range)
      requires ground.lo <= ground.hi < LIMIT
      ensures Valid() && all == ground && ranges == []
    {
      all, ranges := ground, [];
    }

    /** `unionWith` for a range inside the ground range. */
    method UnionRange(m: Range)
      requires Valid() && (m.lo < m.hi ==> all.lo <= m.lo && m.hi <= all.hi)
      modifies this`ranges
      ensures Valid() && forall x :: Has(ranges, x) <==> Has(old(ranges), x) || m.Holds(x)
    {
      hide Has, Splice, Inside, Added;
      var i := m.lo;
      NothingAdded(ranges, m);
      while i < m.hi
        invariant Valid() && Apart(ranges) && m.lo <= i && Added(ranges, old(ranges), m, i)
        decreases m.hi - i
      {
        var k := UpperBound(ranges, i);
        if k == 0 || ranges[k - 1].hi < i {
          if k == |ranges| || ranges[k].lo > m.hi {
            NewRange(ranges, old(ranges), m, i, all);
            ranges := Splice(ranges, k, k, Range(i, m.hi));
            AllAdded(ranges, old(ranges), m, m.hi);
            return;
          }
          TakeNext(ranges, old(ranges), m, i, all);
          var e := ranges[k].hi;
          ranges := Splice(ranges, k, k + 1, Range(i, e));
          i := e;
        } else if ranges[k - 1].hi == i {
          if k == |ranges| || ranges[k].lo > m.hi {
            ExtendLast(ranges, old(ranges), m, i, all);
            ranges := Splice(ranges, k - 1, k, Range(ranges[k - 1].lo, m.hi));
            AllAdded(ranges, old(ranges), m, m.hi);
            return;
          }
          Bridge(ranges, old(ranges), m, i, all);
          var e := ranges[k].hi;
          ranges := Splice(ranges, k - 1, k + 1, Range(ranges[k - 1].lo, e));
          i := e;
        } else {
          SkipStep(ranges, old(ranges), m, i, k - 1);
          i := ranges[k - 1].hi;
        }
      }
      AllAdded(ranges, old(ranges), m, i);
    }

    /** A single element; the end of its range is computed in 32 bits. */
    method UnionElement(i: nat)
      requires Valid() && all.Holds(i)
      modifies this`ranges
      ensures Valid() && forall x :: Has(ranges, x) <==> Has(old(ranges), x) || x == i
    {
      UnionRange(Range(i, (i + 1) % LIMIT));
    }

    /** `unionWith` for a mask also unites the ground ranges. The argument may be the mask itself: its
        intervals are read one by one while the mask changes, but nothing changes then. */
    method UnionMask(m: Mask)
      requires Valid() && m.Valid()
      modifies this
      ensures Valid() && all == Hull(old(all), old(m.all))
      ensures forall x :: Has(ranges, x) <==> Has(old(ranges), x) || Has(old(m.ranges), x)
      ensures m == this ==> ranges == old(ranges)
    {
      all := Hull(all, m.all);
      var j := 0;
      while j < |m.ranges|
        invariant Valid() && all == Hull(old(all), old(m.all)) && 0 <= j <= |m.ranges| && m.ranges == old(m.ranges)
        invariant forall x :: Has(ranges, x) <==> Has(old(ranges), x) || Has(m.ranges[..j], x)
        invariant m == this ==> ranges == old(ranges)
      {
        forall x ensures Has(m.ranges[..j + 1], x) <==> Has(m.ranges[..j], x) || m.ranges[j].Holds(x) {
          OneMore(m.ranges, j, x);
        }
        ghost var before, r := ranges, m.ranges[j];
        UnionRange(m.ranges[j]);
        if m == this { AlreadyIn(before, ranges, r, j); }
        j := j + 1;
      }
      assert m.ranges[..|m.ranges|] == m.ranges;
    }

    /** The complement inside the ground range. */
    method Inverted() returns (rs: seq<Range>)
      requires Valid()
      ensures rs == Gaps(ranges, all.lo, all.hi)
    {
      hide Gaps;
      rs := [];
      var last := all.lo;
      assert ranges[0..] == ranges;
      for j := 0 to |ranges|
        invariant rs + Gaps(ranges[j..], last, all.hi) == Gaps(ranges, all.lo, all.hi)
      {
        GapsStep(ranges, j, last, all.hi, rs);
        if ranges[j].lo != last { rs := rs + [Range(last, ranges[j].lo)]; }
        last := ranges[j].hi;
      }
      assert ranges[|ranges|..] == [];
      GapsEnd(last, all.hi);
      if last != all.hi { rs := rs + [Range(last, all.hi)]; }
    }

    method Invert()
      requires Valid()
      modifies this`ranges
      ensures Valid() && ranges == Gaps(old(ranges), all.lo, all.hi)
      ensures forall x :: Has(ranges, x) <==> all.Holds(x) && !Has(old(ranges), x)
    {
      GapsCanonical(ranges, all);
      forall x ensures Has(Gaps(ranges, all.lo, all.hi), x) <==> all.Holds(x) && !Has(ranges, x) {
        GapsHas(ranges, all, x);
      }
      ranges := Inverted();
    }

    /** `-=` with a range inside the ground range is set difference. */
    method SubtractRange(m: Range)
      requires Valid() && (m.lo < m.hi ==> all.lo <= m.lo && m.hi <= all.hi)
      modifies this`ranges
      ensures Valid() && forall x :: Has(ranges, x) <==> Has(old(ranges), x) && !m.Holds(x)
    {
      hide Has, Apart, Gaps;
      forall x | Has(ranges, x) ensures all.Holds(x) { HasInside(ranges, all, x); }
      Invert();
      UnionRange(m);
      Invert();
    }

    /** `-=` with a mask: what the ground range gained and the mask lacks is added. With itself as
        argument the mask comes back unchanged, because the argument is inverted along with it. */
    method SubtractMask(m: Mask)
      requires Valid() && m.Valid()
      modifies this
      ensures Valid() && all == Hull(old(all), old(m.all))
      ensures m == this ==> ranges == old(ranges)
      ensures m != this ==> forall x :: Has(ranges, x) <==>
                !Has(old(m.ranges), x) && (Has(old(ranges), x) || (all.Holds(x) && !old(all).Holds(x)))
      ensures (forall x :: Has(ranges, x) <==> Has(old(ranges), x) && !Has(old(m.ranges), x)) <==>
              if m == this then old(ranges) == []
              else forall x :: all.Holds(x) && !old(all).Holds(x) ==> Has(old(m.ranges), x)
    {
      hide Has, Apart, Gaps;
      ghost var a, r := all, ranges;
      forall x | Has(ranges, x) ensures all.Holds(x) { HasInside(ranges, all, x); }
      Invert();
      UnionMask(m);
      Invert();
      if m == this {
        GapsInvolution(r, a);
        EmptyExact(r);
      }
    }

    method LowestOf(count: nat) returns (low: seq<Range>)
      requires Valid() && count < LIMIT
      ensures low == Lowest(ranges, count)
    {
      hide Lowest;
      low := [];
      var items: nat := count;
      var j := 0;
      assert ranges[0..] == ranges;
      while j < |ranges| && items > 0
        invariant j <= |ranges|
        invariant low + Lowest(ranges[j..], items) == Lowest(ranges, count)
      {
        LowestStep(ranges, j, items, low);
        var e := Min((ranges[j].lo + items) % LIMIT, ranges[j].hi);
        low := low + [Range(ranges[j].lo, e)];
        items := (items - (e - ranges[j].lo)) % LIMIT;
        j := j + 1;
      }
      LowestDone(ranges[j..], items);
    }

    method Contains(i: nat) returns (r: bool)
      requires Valid()
      ensures r <==> Has(ranges, i)
    {
      var k := UpperBound(ranges, i);
      BoundDecides(ranges, i);
      if k == 0 { return false; }
      return ranges[k - 1].hi > i;
    }

    /** Everything in the ground range is held. */
    method Full() returns (r: bool)
      requires Valid()
      ensures r <==> forall x :: all.Holds(x) ==> Has(ranges, x)
    {
      r := all.lo == all.hi || (|ranges| == 1 && ranges[0].lo == all.lo && ranges[0].hi == all.hi);
      FullExact(ranges, all);
    }

    /** The least element from the 32-bit successor of `t` on, or the end of the ground range. Above
        the greatest number this starts over at zero. */
    method NextAfter(t: nat) returns (n: nat)
      requires Valid() && t < LIMIT
      ensures n == all.hi || (Has(ranges, n) && n >= (t + 1) % LIMIT)
      ensures forall x :: Has(ranges, x) && x >= (t + 1) % LIMIT ==> n <= x
    {
      hide Has, Apart, Inside;
      var u := (t + 1) % LIMIT;
      var k := UpperBound(ranges, u);
      BoundDecides(ranges, u);
      if !Has(ranges, u) { NextIs(ranges, u); }
      if k > 0 && ranges[k - 1].lo <= u && ranges[k - 1].hi > u { return u; }
      if k == |ranges| { return all.hi; }
      return ranges[k].lo;
    }

    method Size() returns (c: int)
      requires Valid()
      ensures c == Count(ranges, all.hi)
    {
      c := 0;
      assert ranges[..0] == [];
      for j := 0 to |ranges|
        invariant c == Total(ranges[..j])
      {
        TotalAppend(ranges[..j], ranges[j]);
        assert ranges[..j] + [ranges[j]] == ranges[..j + 1];
        c := c + (ranges[j].hi - ranges[j].lo);
      }
      assert ranges[..|ranges|] == ranges;
      TotalIsRank(ranges, all.hi);
      RankCounts(ranges, all.hi);
    }

    /** Stepping the iterator from begin to end lists the elements in ascending order. */
    method Elements() returns (xs: seq<nat>)
      requires Valid()
      ensures forall i, j :: 0 <= i < j < |xs| ==> xs[i] < xs[j]
      ensures forall x: nat :: x in xs <==> Has(ranges, x)
      ensures |xs| == Count(ranges, all.hi)
    {
      xs := [];
      var v := all.hi;
      if ranges != [] { v := ranges[0].lo; }
      FirstElement(ranges, all, v);
      while v != all.hi
        invariant v <= all.hi && (v < all.hi ==> Has(ranges, v))
        invariant forall i, j :: 0 <= i < j < |xs| ==> xs[i] < xs[j]
        invariant forall i :: 0 <= i < |xs| ==> xs[i] < v
        invariant forall x: nat :: x in xs <==> Has(ranges, x) && x < v
        invariant |xs| == Count(ranges, v)
        decreases all.hi - v
      {
        Small(v + 1);
        var n := NextAfter(v);
        forall x: nat | v < x < n ensures !Has(ranges, x) {}
        if Has(ranges, n) { HasInside(ranges, all, n); }
        Skipped(ranges, v, n);
        xs := xs + [v];
        v := n;
      }
      forall x: nat | Has(ranges, x) ensures x < v { HasInside(ranges, all, x); }
    }

    /** The least number of the ground range that is not held, its end if there is none. */
    method FirstOut() returns (r: nat)
      requires Valid()
      ensures all.lo <= r <= all.hi && !Has(ranges, r) && forall x :: all.lo <= x < r ==> Has(ranges, x)
    {
      var found := ranges != [] && ranges[0].lo == all.lo;
      FirstOutExact(ranges, all);
      if !found { return all.lo; }
      return ranges[0].hi;
    }

    /** The greatest element; the start of the ground range if there is none. */
    method LastIn() returns (r: int)
      requires Valid()
      ensures ranges == [] ==> r == all.lo
      ensures ranges != [] ==> Has(ranges, r) && forall x :: Has(ranges, x) ==> x <= r
    {
      if ranges == [] { return all.lo; }
      var j := |ranges| - 1;
      r := ranges[j].hi - 1;
      assert ranges[j].Holds(r);
      forall x | Has(ranges, x) ensures x <= r { AtMostLast(ranges, x); }
    }
  }

  lemma GapsStep(rs: seq<Range>, j: nat, last: nat, end: nat, front: seq<Range>)
    requires j < |rs|
    ensures front + Gaps(rs[j..], last, end) ==
            (if rs[j].lo != last then front + [Range(last, rs[j].lo)] else front) + Gaps(rs[j + 1..], rs[j].hi, end)
  {
    var t := rs[j..];
    assert t[0] == rs[j] && t[1..] == rs[j + 1..];
  }

  lemma GapsEnd(last: nat, end: nat)
    ensures Gaps([], last, end) == if last != end then [Range(last, end)] else []
  {
  }

  lemma LowestStep(rs: seq<Range>, j: nat, items: nat, low: seq<Range>)
    requires j < |rs| && items > 0
    ensures var e := Min((rs[j].lo + items) % LIMIT, rs[j].hi);
            low + Lowest(rs[j..], items) == low + [Range(rs[j].lo, e)] + Lowest(rs[j + 1..],
                (items - (e - rs[j].lo)) % LIMIT)
  {
    var t := rs[j..];
    assert t[0] == rs[j] && t[1..] == rs[j + 1..];
  }

  lemma LowestDone(rs: seq<Range>, items: nat)
    ensures rs == [] || items == 0 ==> Lowest(rs, items) == []
  {
  }

  /** Adding an interval of the list changes nothing. */
  lemma AlreadyIn(before: seq<Range>, after: seq<Range>, r: Range, j: nat)
    requires Apart(before) && Apart(after) && j < |before| && r == before[j]
    requires forall x :: Has(after, x) <==> Has(before, x) || r.Holds(x)
    ensures after == before
  {
    forall x | r.Holds(x) ensures Has(before, x) { assert before[j].Holds(x); }
    CanonicalIsUnique(after, before);
  }

  /** A mask is its own difference with itself exactly when it is empty. */
  lemma EmptyExact(rs: seq<Range>)
    requires Apart(rs)
    ensures (forall x :: !Has(rs, x)) <==> rs == []
  {
    if rs != [] { FirstIsWhole(rs); assert Has(rs, rs[0].lo); }
  }

  lemma OneMore(rs: seq<Range>, j: nat, x: int)
    requires j < |rs|
    ensures Has(rs[..j + 1], x) <==> Has(rs[..j], x) || rs[j].Holds(x)
  {
    var s, t := rs[..j], rs[..j + 1];
    if i :| 0 <= i < |s| && s[i].Holds(x) { assert t[i].Holds(x); }
    if rs[j].Holds(x) { assert t[j].Holds(x); }
    if i :| 0 <= i < |t| && t[i].Holds(x) {
      if i < j { assert s[i].Holds(x); }
    }
  }

  lemma FullExact(rs: seq<Range>, all: Range)
    requires Canonical(rs, all)
    ensures (all.lo == all.hi || (|rs| == 1 && rs[0] == all)) <==> forall x :: all.Holds(x) ==> Has(rs, x)
  {
    if all.lo != all.hi {
      if |rs| == 1 && rs[0] == all {
        forall x | all.Holds(x) ensures Has(rs, x) { assert rs[0].Holds(x); }
      } else if rs == [] {
        assert all.Holds(all.lo) && !Has(rs, all.lo);
      } else {
        FirstIsWhole(rs);
        if rs[0].lo != all.lo {
          if Has(rs, all.lo) { FirstIsLeast(rs, all.lo); }
          assert all.Holds(all.lo) && !Has(rs, all.lo);
        } else {
          if |rs| > 1 { assert rs[0].hi < rs[1].lo; }
          assert all.Holds(rs[0].hi) && !Has(rs, rs[0].hi);
        }
      }
    }
  }

  lemma NoneAfter(rs: seq<Range>, u: int, x: int)
    requires Apart(rs) && x >= u && UpperBound(rs, u) == |rs| && (|rs| > 0 ==> rs[|rs| - 1].hi <= u)
    ensures !Has(rs, x)
  {
    forall j | 0 <= j < |rs| - 1 ensures rs[j].hi < rs[|rs| - 1].lo {}
  }

  /** The least element from `u` on, if `u` itself is none, starts the next interval. */
  lemma NextIs(rs: seq<Range>, u: nat)
    requires Apart(rs) && !Has(rs, u)
    ensures var k := UpperBound(rs, u);
            if k == |rs| then forall x :: x >= u ==> !Has(rs, x)
            else Has(rs, rs[k].lo) && rs[k].lo > u && forall x :: x >= u && Has(rs, x) ==> rs[k].lo <= x
  {
    var k := UpperBound(rs, u);
    BoundDecides(rs, u);
    if k == |rs| {
      forall x | x >= u ensures !Has(rs, x) { NoneAfter(rs, u, x); }
    } else {
      assert rs[k].Holds(rs[k].lo);
      forall x | x >= u && Has(rs, x) ensures rs[k].lo <= x { NotBefore(rs, u, x); }
    }
  }

  lemma NotBefore(rs: seq<Range>, u: nat, x: int)
    requires Apart(rs) && !Has(rs, u) && Has(rs, x) && x >= u && UpperBound(rs, u) < |rs|
    ensures rs[UpperBound(rs, u)].lo <= x
  {
    var k := UpperBound(rs, u);
    var j :| 0 <= j < |rs| && rs[j].Holds(x);
    assert !rs[j].Holds(u);
    if k < j { assert rs[k].hi < rs[j].lo; }
  }

  lemma FirstElement(rs: seq<Range>, all: Range, v: nat)
    requires Canonical(rs, all) && v == if rs == [] then all.hi else rs[0].lo
    ensures v <= all.hi && (v < all.hi ==> Has(rs, v))
    ensures (forall x: nat :: Has(rs, x) ==> x >= v) && Count(rs, v) == 0
  {
    forall x: nat | Has(rs, x) ensures x >= v { FirstIsLeast(rs, x); }
    if rs != [] { assert rs[0].Holds(v); }
    NoneBelow(rs, v);
  }

  lemma {:induction false} NoneBelow(rs: seq<Range>, v: nat)
    requires forall x: nat :: x < v ==> !Has(rs, x)
    ensures Count(rs, v) == 0
  {
    if v > 0 { NoneBelow(rs, v - 1); }
  }

  /** Counting past an element and then over a gap. */
  lemma {:induction false} Skipped(rs: seq<Range>, v: nat, n: nat)
    requires v < n && Has(rs, v) && forall x: nat :: v < x < n ==> !Has(rs, x)
    ensures Count(rs, n) == Count(rs, v) + 1
    decreases n
  {
    if v + 1 < n { Skipped(rs, v, n - 1); }
  }

  lemma FirstOutExact(rs: seq<Range>, all: Range)
    requires Canonical(rs, all)
    ensures var r := if rs != [] && rs[0].lo == all.lo then rs[0].hi else all.lo;
            all.lo <= r <= all.hi && !Has(rs, r) && forall x :: all.lo <= x < r ==> Has(rs, x)
  {
    if rs != [] {
      FirstIsWhole(rs);
      if Has(rs, all.lo) { FirstIsLeast(rs, all.lo); }
    }
  }

  lemma AtMostLast(rs: seq<Range>, x: int)
    requires Apart(rs) && Has(rs, x)
    ensures x < rs[|rs| - 1].hi
  {
    var j :| 0 <= j < |rs| && rs[j].Holds(x);
    if j < |rs| - 1 { assert rs[j].hi < rs[|rs| - 1].lo; }
  }
}
