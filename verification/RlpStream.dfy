/** Class `RLPStream`: an output buffer with a stack of open lists. Headers are inserted when a list
    is complete. Driving it over a nested item writes exactly the recursive encoding. */
module RlpStream {
  import opened BigEndian
  import opened Rlp

  /** An open list: how many items it still waits for and where its payload starts. */
  datatype Open = Open(missing: nat, start: nat)

  datatype Stream = Stream(out: Bytes, stack: seq<Open>)

  datatype Outcome = Written(s: Stream) | TooManyItems | TooLarge

  /** The payload from `p` on becomes a list. */
  function Close(out: Bytes, p: nat): Bytes
    requires p <= |out|
  {
    out[..p] + Header(|out| - p, LIST_START) + out[p..]
  }

  ghost predicate Valid(s: Stream) {
    forall i :: 0 <= i < |s.stack| ==> s.stack[i].start <= |s.out|
  }

  /** `noteAppended`: count `n` new items and close every list this completes. */
  function Note(s: Stream, n: nat): (r: Outcome)
    requires Valid(s)
    ensures r.Written? ==> Valid(r.s)
    decreases |s.stack|
  {
    if n == 0 || s.stack == [] then Written(s) else
    var top, below := s.stack[|s.stack|-1], s.stack[..|s.stack|-1];
    if top.missing < n then TooManyItems
    else if top.missing > n then Written(Stream(s.out, below + [Open(top.missing - n, top.start)]))
    else if |ToBE(|s.out| - top.start)| > 8 then TooLarge
    else Note(Stream(Close(s.out, top.start), below), 1)
  }

  /** Append `b` as `n` finished items. */
  function Push(s: Stream, b: Bytes, n: nat): (r: Outcome)
    requires Valid(s)
    ensures r.Written? ==> Valid(r.s)
  {
    Note(Stream(s.out + b, s.stack), n)
  }

  /** Writing a whole item: strings directly, lists by announcing their length and then writing
      their items one by one. */
  function Drive(s: Stream, t: Item): (r: Outcome)
    requires Valid(s)
    ensures r.Written? ==> Valid(r.s)
    decreases t, 0
  {
    match t
    case Data(b) => Push(s, EncodeData(b), 1)
    case List(items) =>
      if items == [] then Push(s, [LIST_START], 1)
      else DriveAll(Stream(s.out, s.stack + [Open(|items|, |s.out|)]), items)
  }

  function DriveAll(s: Stream, ts: seq<Item>): (r: Outcome)
    requires Valid(s)
    ensures r.Written? ==> Valid(r.s)
    decreases ts, 1
  {
    if ts == [] then Written(s) else
    match Drive(s, ts[0])
    case Written(s') => DriveAll(s', ts[1..])
    case failure => failure
  }

  // ----- streaming refines recursion

  /** Driving the stream over any nested item appends exactly its recursive encoding and counts it
      as one item, however many enclosing lists that completes. */
  lemma {:induction false} StreamingRefinesRecursion(s: Stream, t: Item)
    requires Valid(s) && |Encode(t)| < TOO_LONG
    ensures Drive(s, t) == Push(s, Encode(t), 1)
    decreases t, 0
  {
    match t
    case Data(b) =>
    case List(items) =>
      var p := EncodeAll(items);
      if items == [] {
        assert Header(0, LIST_START) + [] == [LIST_START];
      } else {
        var open := Open(|items|, |s.out|);
        DriveAllIsOnePush(s, open, items);
        LengthBytes(|p|);
        var full := Stream(s.out + p, s.stack + [open]);
        assert full.stack[..|s.stack|] == s.stack && (s.out + p)[..|s.out|] == s.out && (s.out + p)[|s.out|..] == p;
        AppendAssoc(s.out, Header(|p|, LIST_START), p);
      }
  }

  lemma AppendAssoc(a: Bytes, b: Bytes, c: Bytes)
    ensures a + b + c == a + (b + c)
  {
  }

  /** Writing all the items an open list waits for is one push of their concatenation. */
  lemma {:induction false} DriveAllIsOnePush(s: Stream, open: Open, ts: seq<Item>)
    requires Valid(s) && ts != [] && open.missing == |ts| && open.start <= |s.out|
    requires |EncodeAll(ts)| < TOO_LONG
    ensures DriveAll(Stream(s.out, s.stack + [open]), ts) ==
            Push(Stream(s.out, s.stack + [open]), EncodeAll(ts), |ts|)
    decreases ts, 1
  {
    var s0 := Stream(s.out, s.stack + [open]);
    var e := Encode(ts[0]);
    assert s0.stack[..|s.stack|] == s.stack;
    StreamingRefinesRecursion(s0, ts[0]);
    if |ts| == 1 {
      assert EncodeAll(ts) == e + [] && e + [] == e;
    } else {
      var open' := Open(open.missing - 1, open.start);
      assert Drive(s0, ts[0]) == Written(Stream(s.out + e, s.stack + [open']));
      DriveAllIsOnePush(Stream(s.out + e, s.stack), open', ts[1..]);
      AppendAssoc(s.out, e, EncodeAll(ts[1..]));
      SameClose(Stream(s.out + EncodeAll(ts), s.stack), open, open');
    }
  }

  /** Completing a list does not depend on how many items it was announced with. */
  lemma SameClose(s: Stream, a: Open, b: Open)
    requires Valid(s) && a.start == b.start <= |s.out| && a.missing > 0 && b.missing > 0
    ensures Note(Stream(s.out, s.stack + [a]), a.missing) == Note(Stream(s.out, s.stack + [b]), b.missing)
  {
    assert (s.stack + [a])[..|s.stack|] == s.stack && (s.stack + [b])[..|s.stack|] == s.stack;
  }

  /** A fresh stream ends up holding the encoding and nothing else. */
  lemma WholeItem(t: Item)
    requires |Encode(t)| < TOO_LONG
    ensures Drive(Stream([], []), t) == Written(Stream(Encode(t), []))
  {
    StreamingRefinesRecursion(Stream([], []), t);
    assert [] + Encode(t) == Encode(t);
  }

  // ----- which lists a count completes

  /** The payloads of the innermost `k` open lists become lists, from the inside out. */
  function Closings(out: Bytes, stack: seq<Open>, k: nat): Bytes
    requires k <= |stack| && forall i :: 0 <= i < |stack| ==> stack[i].start <= |out|
    decreases k
  {
    if k == 0 then out else
    var top := |stack| - 1;
    Closings(Close(out, stack[top].start), stack[..top], k - 1)
  }

  /** Counting `n` items completes the innermost `k` lists: the innermost waits for exactly these, each further one
      for one more item, and the next one out for more than that. */
  ghost predicate Completes(stack: seq<Open>, n: nat, k: nat) {
    && k <= |stack|
    && (forall i :: |stack| - k <= i < |stack| ==> stack[i].missing == if i == |stack| - 1 then n else 1)
    && (k < |stack| ==> stack[|stack| - 1 - k].missing > if k == 0 then n else 1)
  }

  /** Then these lists are closed and the next one out waits for fewer. */
  lemma {:induction false} NoteCompletes(s: Stream, n: nat, k: nat)
    requires Valid(s) && n > 0 && Completes(s.stack, n, k) && Note(s, n).Written?
    ensures Note(s, n).s.out == Closings(s.out, s.stack, k)
    ensures var rest := |s.stack| - k;
            Note(s, n).s.stack ==
            if rest == 0 then [] else
            s.stack[..rest - 1] +
            [Open(s.stack[rest - 1].missing - (if k == 0 then n else 1), s.stack[rest - 1].start)]
    decreases k
  {
    hide ToBE, Close;
    var top := |s.stack| - 1;
    if k > 0 {
      var u := Stream(Close(s.out, s.stack[top].start), s.stack[..top]);
      CloseGrows(s.out, s.stack[top].start);
      assert Note(s, n) == Note(u, 1);
      NoteCompletes(u, 1, k - 1);
      if k < |s.stack| { assert u.stack[..|s.stack| - k - 1] == s.stack[..|s.stack| - k - 1]; }
    } else if s.stack != [] {
      assert s.stack[..top] + [Open(s.stack[top].missing - n, s.stack[top].start)] == Note(s, n).s.stack;
    }
  }

  lemma CloseGrows(out: Bytes, p: nat)
    requires p <= |out|
    ensures |out| <= |Close(out, p)|
  {
  }

  /** A count is refused exactly if it is more than the innermost list waits for; the stack never holds a list
      that waits for nothing. */
  lemma {:induction false} NoteRefuses(s: Stream, n: nat)
    requires Valid(s) && n > 0 && forall i :: 0 <= i < |s.stack| ==> s.stack[i].missing > 0
    ensures Note(s, n) == TooManyItems <==> s.stack != [] && s.stack[|s.stack| - 1].missing < n
    ensures Note(s, n).Written? ==> forall i :: 0 <= i < |Note(s, n).s.stack| ==> Note(s, n).s.stack[i].missing > 0
    decreases |s.stack|
  {
    hide ToBE;
    if s.stack != [] && s.stack[|s.stack| - 1].missing == n {
      var top := |s.stack| - 1;
      NoteRefuses(Stream(Close(s.out, s.stack[top].start), s.stack[..top]), 1);
    }
  }

  /** The other refusal: a payload of 2^64 bytes or more. */
  lemma {:induction false} NoteTooLarge(s: Stream, n: nat)
    requires Valid(s) && Note(s, n) == TooLarge
    ensures exists k :: 0 <= k < |s.stack| &&
              |Closings(s.out, s.stack, k)| - s.stack[|s.stack| - 1 - k].start >= 0x1_0000_0000_0000_0000
    decreases |s.stack|
  {
    var top := |s.stack| - 1;
    SizeBytes(|s.out| - s.stack[top].start);
    if |ToBE(|s.out| - s.stack[top].start)| <= 8 {
      var u := Stream(Close(s.out, s.stack[top].start), s.stack[..top]);
      NoteTooLarge(u, 1);
      var k :| 0 <= k < |u.stack| &&
        |Closings(u.out, u.stack, k)| - u.stack[|u.stack| - 1 - k].start >= 0x1_0000_0000_0000_0000;
      assert Closings(s.out, s.stack, k + 1) == Closings(u.out, u.stack, k);
      assert s.stack[|s.stack| - 1 - (k + 1)] == u.stack[|u.stack| - 1 - k];
    } else {
      assert Closings(s.out, s.stack, 0) == s.out;
    }
  }

  /** Without leading zeros. */
  function Trimmed(b: Bytes): Bytes {
    if b != [] && b[0] == 0 then Trimmed(b[1..]) else b
  }

  /** Exactly the leading zeros are gone. */
  lemma {:induction false} TrimmedExact(b: Bytes)
    ensures var t := Trimmed(b);
            && |t| <= |b| && b == Zeros(|b| - |t|) + t && (t != [] ==> t[0] != 0)
    decreases |b|
  {
    if b != [] && b[0] == 0 {
      TrimmedExact(b[1..]);
      assert b == [0] + b[1..];
      assert Zeros(|b| - |Trimmed(b)|) == [0] + Zeros(|b[1..]| - |Trimmed(b)|);
    }
  }

  method Trim(s: Bytes) returns (b: Bytes)
    ensures b == Trimmed(s) && |b| <= |s|
  {
    b := s;
    while b != [] && b[0] == 0
      invariant Trimmed(b) == Trimmed(s) && |b| <= |s|
    {
      b := b[1..];
    }
  }

  // ----- the object

  class Writer {
    var out: Bytes
    var stack: seq<Open>

    ghost function Abs(): Stream
      reads this
    {
      Stream(out, stack)
    }

    /** The new state is what `o` says; after a failure nothing is promised but the report. */
    ghost predicate Became(ok: bool, o: Outcome)
      reads this
    {
      ok == o.Written? && (ok ==> Abs() == o.s && Valid(Abs()))
    }

    constructor ()
      ensures Abs() == Stream([], []) && Valid(Abs())
    {
      out, stack := [], [];
    }

    /** Make room in front of the payload and write the prefix into the gap, length bytes last to first. */
    method InsertHeader(p: nat) returns (ok: bool)
      requires p <= |out|
      modifies this`out
      ensures ok <==> |ToBE(|old(out)| - p)| <= 8
      ensures ok ==> out == Close(old(out), p)
    {
      var size := |out| - p;
      SizeBytes(size);
      if size > SIZE_MAX { return false; }   // no buffer is that long
      var brs := BytesRequired(size);
      if size < IMM_COUNT {
        out := out[..p] + [LIST_START + size] + out[p..];
        return true;
      }
      if LIST_START + IMM_COUNT - 1 + brs > 0xff { return false; }
      var gap := out[..p] + Zeros(1 + brs) + out[p..];
      gap := gap[p := LIST_START + IMM_COUNT - 1 + brs];
      var r := WriteBackwards(gap, size, p + 1 + brs);
      GapFilled(out[..p], LIST_START + IMM_COUNT - 1 + brs, brs, out[p..], gap);
      out := r;
      AppendAssoc(old(out)[..p], [LIST_START + IMM_COUNT - 1 + brs], ToBE(size));
      return true;
    }

    method NoteAppended(count: nat) returns (ok: bool)
      requires Valid(Abs())
      modifies this
      ensures Became(ok, Note(old(Abs()), count))
    {
      if count == 0 { return true; }
      var n := count;
      while stack != []
        invariant Valid(Abs()) && n > 0
        invariant Note(Abs(), n) == Note(old(Abs()), count)
        decreases |stack|
      {
        var top := stack[|stack|-1];
        if top.missing < n { return false; }
        stack := stack[..|stack|-1];
        if top.missing > n {
          stack := stack + [Open(top.missing - n, top.start)];
          return true;
        }
        var closed := InsertHeader(top.start);
        if !closed { return false; }
        n := 1;
      }
      return true;
    }

    method AppendRaw(b: Bytes, count: nat) returns (ok: bool)
      requires Valid(Abs())
      modifies this
      ensures Became(ok, Push(old(Abs()), b, count))
    {
      out := out + b;
      ok := NoteAppended(count);
    }

    /** The prefix of `count` bytes of payload. */
    method PushCount(count: nat, start: Byte)
      requires IMM_COUNT <= count < TOO_LONG && (start == DATA_START || start == LIST_START)
      modifies this`out
      ensures out == old(out) + Header(count, start)
    {
      HeaderBytes(count, start);
      var br := BytesRequired(count);
      out := out + [start + IMM_COUNT - 1 + br];
      var r := WriteBackwards(out + Zeros(br), count, |out| + br);
      assert r == out + ToBE(count);
      out := r;
      AppendAssoc(old(out), [start + IMM_COUNT - 1 + br], ToBE(count));
    }

    method Append(s: Bytes, compact: bool) returns (ok: bool)
      requires Valid(Abs()) && |s| < TOO_LONG
      modifies this
      ensures Became(ok, Push(old(Abs()), EncodeData(if compact then Trimmed(s) else s), 1))
    {
      hide Note, ToBE;
      var b := s;
      if compact { b := Trim(s); }
      if |b| == 1 && b[0] < DATA_START {
        out := out + [b[0]];
        assert b == [b[0]];
      } else {
        if |b| < IMM_COUNT {
          out := out + [|b| + DATA_START];
        } else {
          PushCount(|b|, DATA_START);
        }
        AppendAssoc(old(out), Header(|b|, DATA_START), b);
        out := out + b;
      }
      ok := NoteAppended(1);
    }

    /** Integers of up to 2^32 - 1 bytes: beyond, the byte count wraps and the write leaves the buffer. */
    method AppendInt(n: nat) returns (ok: bool)
      requires Valid(Abs()) && |ToBE(n)| <= MAX_INT_BYTES
      modifies this
      ensures Became(ok, Push(old(Abs()), EncodeInt(n), 1))
    {
      hide ToBE;
      if n == 0 {
        ZeroIsEmpty();
        out := out + [DATA_START];
        assert Header(0, DATA_START) + [] == [DATA_START];
      } else {
        var br := BytesRequired(n);
        SmallNumber(n);
        if n < DATA_START {
          out := out + [n];
        } else {
          if br < IMM_COUNT {
            out := out + [br + DATA_START];
          } else {
            PushCount(br, DATA_START);
          }
          assert out == old(out) + Header(br, DATA_START);
          AppendAssoc(old(out), Header(br, DATA_START), ToBE(n));
          var r := WriteBackwards(out + Zeros(br), n, |out| + br);
          assert r == out + ToBE(n);
          out := r;
        }
      }
      assert out == old(out) + EncodeInt(n);
      ok := NoteAppended(1);
    }

    method AppendList(items: nat) returns (ok: bool)
      requires Valid(Abs())
      modifies this
      ensures items == 0 ==> Became(ok, Push(old(Abs()), [LIST_START], 1))
      ensures items > 0 ==> ok && Valid(Abs()) &&
                            Abs() == Stream(old(out), old(stack) + [Open(items, |old(out)|)])
    {
      if items != 0 {
        stack := stack + [Open(items, |out|)];
        return true;
      }
      ok := AppendRaw([LIST_START], 1);
    }

    method AppendItem(t: Item) returns (ok: bool)
      requires Valid(Abs()) && |Encode(t)| < TOO_LONG
      modifies this
      ensures Became(ok, Push(old(Abs()), Encode(t), 1))
      decreases t, 0
    {
      StreamingRefinesRecursion(Abs(), t);
      match t {
        case Data(b) => ok := Append(b, false);
        case List(items) =>
          ok := AppendList(|items|);
          if items != [] { ok := AppendItems(items); }
      }
    }

    method AppendItems(ts: seq<Item>) returns (ok: bool)
      requires Valid(Abs()) && |EncodeAll(ts)| < TOO_LONG
      modifies this
      ensures Became(ok, DriveAll(old(Abs()), ts))
      decreases ts, 1
    {
      for i := 0 to |ts|
        invariant Valid(Abs()) && |EncodeAll(ts[i..])| < TOO_LONG
        invariant DriveAll(Abs(), ts[i..]) == DriveAll(old(Abs()), ts)
      {
        assert ts[i..][0] == ts[i] && ts[i..][1..] == ts[i + 1..];
        StreamingRefinesRecursion(Abs(), ts[i]);
        var done := AppendItem(ts[i]);
        if !done { return false; }
      }
      return true;
    }
  }

  lemma SizeBytes(n: nat)
    ensures |ToBE(n)| <= 8 <==> n <= SIZE_MAX
  {
    Pow256Eight();
    ToBELength(n, 8);
  }

  lemma SmallNumber(n: nat)
    requires n > 0
    ensures |ToBE(n)| > 0
    ensures n < DATA_START ==> ToBE(n) == [n]
    ensures n >= DATA_START ==> !(|ToBE(n)| == 1 && ToBE(n)[0] < DATA_START)
  {
    FromTo(n);
  }

  /** The gap holds the first byte and room for the length; behind it stands the payload. */
  lemma GapFilled(front: Bytes, first: Byte, brs: nat, payload: Bytes, gap: Bytes)
    requires gap == (front + Zeros(1 + brs) + payload)[|front| := first]
    ensures |gap| == |front| + 1 + brs + |payload|
    ensures gap[..|front| + 1] == front + [first] && gap[|front| + 1 + brs..] == payload
  {
  }
}
