/** Reading a list: indexed access with its last-position cache, the item count and the iterator
    all walk the same sequence of items. */
module RlpView {
  import opened BigEndian
  import opened Wrappers
  import opened Rlp

  /** The encoded items of a payload, in order. */
  function Split(p: Bytes): Result<seq<Bytes>, Error>
    decreases |p|
  {
    if p == [] then Ok([]) else
    var n :- SizeAsEncoded(p);
    var rest :- Split(p[n..]);
    Ok([p[..n]] + rest)
  }

  /** A strictly constructed list whose items can be told apart. */
  predicate WellFormed(d: Bytes) {
    VeryStrict(d).Ok? && IsList(d) && Split(Payload(d)).Ok?
  }

  function Items(d: Bytes): seq<Bytes>
    requires WellFormed(d)
  {
    Split(Payload(d)).value
  }

  /** An item cut out of its surroundings has the size it had there. */
  lemma CutItem(p: Bytes, n: nat)
    requires p != [] && SizeAsEncoded(p) == Ok(n)
    ensures 0 < n <= |p| && VeryStrict(p[..n]).Ok?
  {
    var c := p[..n];
    assert c[0] == p[0];
    if p[0] >= DATA_START && LengthSize(p) > 0 {
      assert c[1..1 + LengthSize(p)] == p[1..1 + LengthSize(p)];
    }
  }

  /** The items are the payload, cut up, and each is strictly well-sized. */
  lemma {:induction false} SplitCovers(p: Bytes)
    requires Split(p).Ok?
    ensures forall e :: e in Split(p).value ==> e != [] && VeryStrict(e).Ok?
    ensures Joined(Split(p).value) == p
    decreases |p|
  {
    if p != [] {
      var n := SizeAsEncoded(p).value;
      CutItem(p, n);
      SplitCovers(p[n..]);
      hide VeryStrict, SizeAsEncoded;
      assert Split(p).value[1..] == Split(p[n..]).value;
      assert p == p[..n] + p[n..];
    }
  }

  function Joined(es: seq<Bytes>): Bytes {
    if es == [] then [] else es[0] + Joined(es[1..])
  }

  /** An encoded list splits into the encodings of its items. */
  lemma {:induction false} SplitEncoded(ts: seq<Item>)
    requires |EncodeAll(ts)| < TOO_LONG
    ensures Split(EncodeAll(ts)) == Ok(EachEncoded(ts))
    decreases |ts|
  {
    if ts != [] {
      var e, rest := Encode(ts[0]), EncodeAll(ts[1..]);
      EncodedSize(ts[0], rest);
      SplitEncoded(ts[1..]);
      assert (e + rest)[..|e|] == e && (e + rest)[|e|..] == rest;
    }
  }

  function EachEncoded(ts: seq<Item>): seq<Bytes> {
    if ts == [] then [] else [Encode(ts[0])] + EachEncoded(ts[1..])
  }

  /** The first item of what is left, or nothing. */
  function Head(rest: Bytes): Bytes
    requires Split(rest).Ok?
  {
    if rest == [] then [] else Split(rest).value[0]
  }

  lemma HeadIsCut(rest: Bytes)
    requires Split(rest).Ok?
    ensures SizeAsEncoded(rest) == Ok(|Head(rest)|) && |Head(rest)| <= |rest| && Head(rest) == rest[..|Head(rest)|]
    ensures rest != [] ==> Head(rest) != [] && Split(rest[|Head(rest)|..]) == Ok(Split(rest).value[1..])
    ensures SizeAsEncoded(Head(rest)) == Ok(|Head(rest)|)
  {
    hide SizeAsEncoded, VeryStrict;
    StrictIsSized([]);
    if rest != [] {
      var n := SizeAsEncoded(rest).value;
      CutItem(rest, n);
      assert Split(rest).value == [rest[..n]] + Split(rest[n..]).value;
      StrictIsSized(rest[..n]);
    }
  }

  // ----- indexed access

  class View {
    const data: Bytes
    var lastIndex: nat
    var lastEnd: nat
    var lastItem: Bytes

    constructor (d: Bytes)
      ensures data == d && Valid()
    {
      data := d;
      lastIndex, lastEnd, lastItem := SIZE_MAX, 0, [];
    }

    /** The cache is untouched, or it stands on item `lastIndex` with `lastEnd` just behind it. */
    ghost predicate Valid()
      reads this
    {
      WellFormed(data) ==>
        var p, es := Payload(data), Items(data);
        || (lastIndex == SIZE_MAX && lastItem == [])
        || (&& lastIndex <= |es| && lastEnd <= |p|
            && (lastIndex < |es| ==> lastItem == es[lastIndex])
            && (lastIndex == |es| ==> lastItem == [])
            && Split(p[lastEnd..]) == Ok(es[if lastIndex < |es| then lastIndex + 1 else lastIndex..]))
    }

    /** Any index in any order: the i-th item, or null past the end. */
    method At(i: nat) returns (r: Result<Bytes, Error>)
      requires WellFormed(data) && Valid() && |Items(data)| <= SIZE_MAX && i <= SIZE_MAX
      modifies this
      ensures Valid()
      ensures r == Ok(if i < |Items(data)| then Items(data)[i] else [])
    {
      hide SizeAsEncoded, VeryStrict, Split;
      var p := Payload(data);
      if i < lastIndex {
        HeadIsCut(p);
        assert Split(p).value == Items(data);
        lastEnd := SizeAsEncoded(p).value;
        lastItem := p[..lastEnd];
        lastIndex := 0;
        NothingLeft(p);
      }
      while lastIndex < i && lastItem != []
        invariant Valid() && lastIndex <= i
        decreases i - lastIndex
      {
        var rest := p[lastEnd..];
        HeadIsCut(rest);
        NothingLeft(rest);
        var n := SizeAsEncoded(rest).value;
        lastItem := rest[..n];
        lastEnd := lastEnd + n;
        lastIndex := lastIndex + 1;
        assert p[lastEnd..] == rest[n..];
      }
      SplitCovers(p);
      assert lastIndex < |Items(data)| ==> Items(data)[lastIndex] in Items(data);
      StrictIsSized(lastItem);
      r := match SizeAsEncoded(lastItem) case Ok(_) => Ok(lastItem) case Err(e) => Err(e);
    }
  }

  lemma StrictIsSized(e: Bytes)
    ensures e == [] || VeryStrict(e).Ok? ==> SizeAsEncoded(e) == Ok(|e|)
  {
  }

  lemma NothingLeft(rest: Bytes)
    requires Split(rest).Ok?
    ensures rest == [] <==> Split(rest).value == []
    ensures rest == [] ==> Head(rest) == []
  {
  }

  lemma PayloadStart(d: Bytes)
    requires VeryStrict(d).Ok? && IsList(d)
    ensures PayloadOffset(d) <= |d| && Payload(d) == d[PayloadOffset(d)..]
  {
  }

  // ----- counting and iterating

  method CountItems(d: Bytes) returns (count: nat)
    requires WellFormed(d)
    ensures count == |Items(d)|
  {
    hide SizeAsEncoded, VeryStrict, Split;
    count := 0;
    var rest := Payload(d);
    while rest != []
      invariant Split(rest).Ok? && count + |Split(rest).value| == |Items(d)|
      decreases |rest|
    {
      HeadIsCut(rest);
      NothingLeft(rest);
      rest := rest[SizeAsEncoded(rest).value..];
      count := count + 1;
    }
    NothingLeft(rest);
  }

  /** `begin` to `end`: the current item as a window into the data and the bytes behind it. */
  method Traverse(d: Bytes) returns (items: seq<Bytes>)
    requires WellFormed(d)
    ensures items == Items(d)
  {
    hide SizeAsEncoded, VeryStrict, Split;
    items := [];
    var pos := PayloadOffset(d);
    PayloadStart(d);
    HeadIsCut(d[pos..]);
    NothingLeft(d[pos..]);
    var size := SizeAsEncoded(d[pos..]).value;
    var remaining := |d| - pos - size;
    while !(pos == |d| && size == 0)
      invariant pos <= |d| && pos + size + remaining == |d|
      invariant Split(d[pos..]).Ok? && items + Split(d[pos..]).value == Items(d)
      invariant size == |Head(d[pos..])|
      decreases |d| - pos
    {
      var rest := d[pos..];
      HeadIsCut(rest);
      NothingLeft(rest);
      assert d[pos..pos + size] == Head(rest);
      items := items + [d[pos..pos + size]];
      assert rest[size..] == d[pos + size..];
      HeadIsCut(d[pos + size..]);
      NothingLeft(d[pos + size..]);
      pos := pos + size;
      if remaining != 0 {
        assert d[pos..pos + remaining] == d[pos..];
        size := SizeAsEncoded(d[pos..pos + remaining]).value;
        remaining := remaining - size;
      } else {
        size := 0;
      }
    }
    NothingLeft(d[pos..]);
  }
}
