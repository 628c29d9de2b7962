/** Recursive-length-prefix coding, Appendix B of the Ethereum Yellow Paper: the recursive encoder,
    the strict decoder built from the byte tests of class `RLP`, and their inverse laws. */
module Rlp {
  import opened BigEndian
  import opened Wrappers

  datatype Item = Data(bytes: Bytes) | List(items: seq<Item>)

  datatype Error = BadRLP | UndersizeRLP | OversizeRLP | BadCast

  const DATA_START := 0x80
  const LIST_START := 0xc0
  /** Payloads below this length have it in the first byte. */
  const IMM_COUNT := 56
  /** Lengths the decoder refuses: `size_t` maximum less 0x100. */
  const TOO_LONG := 0xFFFF_FFFF_FFFF_FEFF

  /** The greatest `size_t`. */
  const SIZE_MAX := 0xFFFF_FFFF_FFFF_FFFF

  /** Integers longer than this are not converted; none longer can be appended. */
  const MAX_INT_BYTES := 0xFFFF_FFFF

  // ----- the recursive encoding

  /** The length prefix; the first byte is cast to a byte as in the source. */
  function Header(len: nat, start: Byte): Bytes {
    if len < IMM_COUNT then [(start + len) % 256]
    else [(start + IMM_COUNT - 1 + |ToBE(len)|) % 256] + ToBE(len)
  }

  function EncodeData(b: Bytes): Bytes {
    if |b| == 1 && b[0] < DATA_START then b else Header(|b|, DATA_START) + b
  }

  function Encode(t: Item): Bytes
    decreases t, 0
  {
    match t
    case Data(b) => EncodeData(b)
    case List(items) => Header(|EncodeAll(items)|, LIST_START) + EncodeAll(items)
  }

  function EncodeAll(ts: seq<Item>): Bytes
    decreases ts, 1
  {
    if ts == [] then [] else Encode(ts[0]) + EncodeAll(ts[1..])
  }

  function EncodeInt(n: nat): Bytes {
    EncodeData(ToBE(n))
  }

  // ----- reading the prefix

  /** `requireGood` for non-null data: a single low byte must not be wrapped. */
  predicate Good(d: Bytes) {
    d != [] && (d[0] == DATA_START + 1 ==> |d| >= 2 && d[1] >= DATA_START)
  }

  predicate IsData(d: Bytes) { d != [] && d[0] < LIST_START }

  predicate IsList(d: Bytes) { d != [] && d[0] >= LIST_START }

  /** The long form shared by data and lists: `size` length bytes after the first. */
  function LongLength(d: Bytes, size: nat): Result<nat, Error>
    requires d != []
  {
    if |d| <= size then Err(BadRLP)
    else if |d| > 1 && d[1] == 0 then Err(BadRLP)
    else
      var n := FromBE(d[1..1 + size]);
      if n < IMM_COUNT then Err(BadRLP)
      else if n >= TOO_LONG then Err(UndersizeRLP)
      else Ok(n)
  }

  function Length(d: Bytes): Result<nat, Error> {
    if d == [] then Ok(0)
    else if !Good(d) then Err(BadRLP)
    else if d[0] < DATA_START then Ok(1)
    else if d[0] < DATA_START + IMM_COUNT then Ok(d[0] - DATA_START)
    else if d[0] < LIST_START then LongLength(d, d[0] - (DATA_START + IMM_COUNT - 1))
    else if d[0] < LIST_START + IMM_COUNT then Ok(d[0] - LIST_START)
    else LongLength(d, d[0] - (LIST_START + IMM_COUNT - 1))
  }

  function LengthSize(d: Bytes): nat {
    if d == [] then 0
    else if DATA_START + IMM_COUNT <= d[0] < LIST_START then d[0] - (DATA_START + IMM_COUNT - 1)
    else if d[0] >= LIST_START + IMM_COUNT then d[0] - (LIST_START + IMM_COUNT - 1)
    else 0
  }

  function PayloadOffset(d: Bytes): nat {
    if d != [] && d[0] < DATA_START then 0 else 1 + LengthSize(d)
  }

  function ActualSize(d: Bytes): Result<nat, Error> {
    if d == [] then Ok(0)
    else if d[0] < DATA_START then Ok(1)
    else
      var n :- Length(d);
      Ok(PayloadOffset(d) + n)
  }

  /** The size of the first item of `d`, which must not reach beyond `d`. */
  function SizeAsEncoded(d: Bytes): Result<nat, Error> {
    var n :- ActualSize(d);
    if n > |d| then Err(UndersizeRLP) else Ok(n)
  }

  /** Construction with every strictness flag set. */
  function VeryStrict(d: Bytes): Result<(), Error> {
    var n :- ActualSize(d);
    if n < |d| then Err(OversizeRLP)
    else if n > |d| then Err(UndersizeRLP)
    else Ok(())
  }

  /** The payload of strictly constructed data. */
  function Payload(d: Bytes): Bytes
    requires VeryStrict(d).Ok?
  {
    if d == [] then [] else d[PayloadOffset(d)..]
  }

  // ----- decoding at every level

  function Decode(d: Bytes): Result<Item, Error>
    decreases |d|, 0
  {
    var _ :- VeryStrict(d);
    if d == [] then Err(BadCast)
    else if IsData(d) then Ok(Data(Payload(d)))
    else
      var items :- DecodeAll(Payload(d));
      Ok(List(items))
  }

  function DecodeAll(p: Bytes): Result<seq<Item>, Error>
    decreases |p|, 1
  {
    if p == [] then Ok([]) else
    var n :- SizeAsEncoded(p);
    var first :- Decode(p[..n]);
    var rest :- DecodeAll(p[n..]);
    Ok([first] + rest)
  }

  /** `toInt` for unbounded integers, on strictly constructed data. */
  function ToInt(d: Bytes): Result<nat, Error>
    requires VeryStrict(d).Ok?
  {
    if !Good(d) then Err(BadRLP)
    else if IsList(d) then Err(BadCast)
    else if Payload(d) != [] && Payload(d)[0] == 0 then Err(BadCast)
    else if |Payload(d)| > MAX_INT_BYTES then Err(BadCast)
    else Ok(FromBE(Payload(d)))
  }

  // ----- the prefix of an encoding

  lemma Pow256Eight()
    ensures Pow256(8) == 0x1_0000_0000_0000_0000
  {
    assert Pow256(4) == 256 * 256 * 256 * 256;
    assert Pow256(8) == 256 * 256 * 256 * 256 * Pow256(4);
  }

  /** A length never needs more than eight bytes. */
  lemma LengthBytes(len: nat)
    requires len < TOO_LONG
    ensures |ToBE(len)| <= 8
  {
    Pow256Eight();
    ToBELength(len, 8);
  }

  lemma HeaderBytes(len: nat, start: Byte)
    requires len < TOO_LONG && (start == DATA_START || start == LIST_START)
    ensures len >= IMM_COUNT ==> 1 <= |ToBE(len)| <= 8 && ToBE(len)[0] != 0
    ensures Header(len, start)[0] ==
            if len < IMM_COUNT then start + len else start + IMM_COUNT - 1 + |ToBE(len)|
  {
    hide ToBE, FromBE;
    LengthBytes(len);
    FromTo(len);
  }

  /** Reading back a prefix, whatever follows it. */
  lemma ReadHeader(len: nat, start: Byte, rest: Bytes)
    requires len < TOO_LONG && (start == DATA_START || start == LIST_START)
    requires var d := Header(len, start) + rest; Good(d)
    ensures var d := Header(len, start) + rest;
            Length(d) == Ok(len) && PayloadOffset(d) == |Header(len, start)|
  {
    var h := Header(len, start);
    var d := h + rest;
    HeaderBytes(len, start);
    FromTo(len);
    assert d[0] == h[0];
    if len >= IMM_COUNT {
      assert d[1..1 + |ToBE(len)|] == ToBE(len);
      assert d[1] == ToBE(len)[0];
    }
  }

  lemma EncodedSize(t: Item, rest: Bytes)
    requires |Encode(t)| < TOO_LONG
    ensures Encode(t) != [] && ActualSize(Encode(t) + rest) == Ok(|Encode(t)|)
  {
    var d := Encode(t) + rest;
    match t
    case Data(b) =>
      if !(|b| == 1 && b[0] < DATA_START) {
        HeaderBytes(|b|, DATA_START);
        assert d == Header(|b|, DATA_START) + (b + rest);
        if |b| == 1 { assert d[1] == b[0]; }
        ReadHeader(|b|, DATA_START, b + rest);
        assert d[0] == Header(|b|, DATA_START)[0];
      }
    case List(items) =>
      var p := EncodeAll(items);
      HeaderBytes(|p|, LIST_START);
      assert d == Header(|p|, LIST_START) + (p + rest);
      assert d[0] == Header(|p|, LIST_START)[0];
      ReadHeader(|p|, LIST_START, p + rest);
  }

  /** No encoding is a proper prefix of another, and distinct items differ. */
  lemma PrefixFree(a: Item, b: Item)
    requires |Encode(a)| < TOO_LONG && |Encode(b)| < TOO_LONG && Encode(a) <= Encode(b)
    ensures a == b
  {
    var rest := Encode(b)[|Encode(a)|..];
    assert Encode(b) == Encode(a) + rest;
    EncodedSize(a, rest);
    EncodedSize(b, []);
    assert Encode(b) + [] == Encode(b);
    assert Encode(a) == Encode(b);
    DecodeEncode(a);
    DecodeEncode(b);
  }

  // ----- round trips

  lemma PayloadOfData(b: Bytes)
    requires |EncodeData(b)| < TOO_LONG
    ensures VeryStrict(EncodeData(b)).Ok? && IsData(EncodeData(b)) && Payload(EncodeData(b)) == b
  {
    var d := EncodeData(b);
    EncodedSize(Data(b), []);
    assert d + [] == d;
    if !(|b| == 1 && b[0] < DATA_START) {
      HeaderBytes(|b|, DATA_START);
      if |b| == 1 { assert d[1] == b[0]; }
      ReadHeader(|b|, DATA_START, b);
    }
  }

  lemma PayloadOfList(p: Bytes)
    requires |Header(|p|, LIST_START) + p| < TOO_LONG
    ensures var d := Header(|p|, LIST_START) + p;
            VeryStrict(d).Ok? && IsList(d) && Payload(d) == p
  {
    HeaderBytes(|p|, LIST_START);
    ReadHeader(|p|, LIST_START, p);
  }

  /** Decoding an encoding gives the item back. */
  lemma {:induction false} DecodeEncode(t: Item)
    requires |Encode(t)| < TOO_LONG
    ensures Decode(Encode(t)) == Ok(t)
    decreases t, 0
  {
    match t
    case Data(b) => PayloadOfData(b);
    case List(items) =>
      PayloadOfList(EncodeAll(items));
      DecodeEncodeAll(items);
  }

  lemma {:induction false} DecodeEncodeAll(ts: seq<Item>)
    requires |EncodeAll(ts)| < TOO_LONG
    ensures DecodeAll(EncodeAll(ts)) == Ok(ts)
    decreases ts, 1
  {
    if ts != [] {
      var e, rest := Encode(ts[0]), EncodeAll(ts[1..]);
      EncodedSize(ts[0], rest);
      DecodeEncode(ts[0]);
      DecodeEncodeAll(ts[1..]);
      assert (e + rest)[..|e|] == e && (e + rest)[|e|..] == rest;
      assert [ts[0]] + ts[1..] == ts;
    }
  }

  lemma LongShape(d: Bytes, size: nat, len: nat)
    requires d != [] && 0 < size <= 8 && LongLength(d, size) == Ok(len)
    ensures d[1..1 + size] == ToBE(len) && len >= IMM_COUNT
  {
    ToFrom(d[1..1 + size]);
  }

  lemma ShortPrefix(d: Bytes)
    requires d != [] && d[0] >= DATA_START && VeryStrict(d).Ok? && LengthSize(d) == 0
    ensures Header(|Payload(d)|, if IsData(d) then DATA_START else LIST_START) + Payload(d) == d
  {
    hide ToBE, FromBE, LongLength;
    assert d == [d[0]] + Payload(d);
  }

  lemma LongPrefix(d: Bytes)
    requires d != [] && VeryStrict(d).Ok? && LengthSize(d) > 0
    ensures Header(|Payload(d)|, if IsData(d) then DATA_START else LIST_START) + Payload(d) == d
  {
    hide ToBE, FromBE, LongLength;
    var p, size := Payload(d), LengthSize(d);
    LongShape(d, size, |p|);
    assert d == [d[0]] + d[1..1 + size] + p;
  }

  /** Strictly accepted bytes are a canonical prefix followed by the payload. */
  lemma StrictShape(d: Bytes)
    requires d != [] && VeryStrict(d).Ok?
    ensures if IsData(d) then EncodeData(Payload(d)) == d
            else Header(|Payload(d)|, LIST_START) + Payload(d) == d
  {
    hide Header, ToBE, FromBE;
    if d[0] >= DATA_START {
      if LengthSize(d) == 0 { ShortPrefix(d); } else { LongPrefix(d); }
      if |d| == 2 && d[0] == DATA_START + 1 { assert Payload(d)[0] == d[1]; }
    }
  }

  /** Whatever the strict decoder accepts at every level re-encodes to itself. */
  lemma {:induction false} EncodeDecode(d: Bytes)
    requires Decode(d).Ok?
    ensures Encode(Decode(d).value) == d
    decreases |d|, 0
  {
    StrictShape(d);
    if IsList(d) { EncodeDecodeAll(Payload(d)); }
  }

  lemma {:induction false} EncodeDecodeAll(p: Bytes)
    requires DecodeAll(p).Ok?
    ensures EncodeAll(DecodeAll(p).value) == p
    decreases |p|, 1
  {
    hide ActualSize, VeryStrict, Header;
    if p != [] {
      var n := SizeAsEncoded(p).value;
      var first, rest := Decode(p[..n]).value, DecodeAll(p[n..]).value;
      EncodeDecode(p[..n]);
      EncodeDecodeAll(p[n..]);
      assert ([first] + rest)[1..] == rest;
      assert p == p[..n] + p[n..];
    }
  }

  /** Every integer that can be appended reads back; the encoding of a longer one would be refused. */
  lemma IntRoundTrip(n: nat)
    requires |EncodeInt(n)| < TOO_LONG
    ensures VeryStrict(EncodeInt(n)).Ok?
    ensures ToInt(EncodeInt(n)) == if |ToBE(n)| <= 0xFFFF_FFFF then Ok(n) else Err(BadCast)
  {
    hide ToBE, FromBE, Header, VeryStrict;
    PayloadOfData(ToBE(n));
    GoodData(ToBE(n));
    FromTo(n);
    ZeroIsEmpty();
  }

  lemma ZeroIsEmpty()
    ensures ToBE(0) == []
  {
  }

  /** An encoded string never trips the single-byte test. */
  lemma GoodData(b: Bytes)
    requires |EncodeData(b)| < TOO_LONG
    ensures Good(EncodeData(b))
  {
    hide ToBE, FromBE;
    if !(|b| == 1 && b[0] < DATA_START) {
      HeaderBytes(|b|, DATA_START);
      if |b| == 1 { assert EncodeData(b)[1] == b[0]; }
    }
  }

  lemma IntCanonical(d: Bytes)
    requires VeryStrict(d).Ok? && ToInt(d).Ok?
    ensures EncodeInt(ToInt(d).value) == d
  {
    StrictShape(d);
    ToFrom(Payload(d));
  }
}
