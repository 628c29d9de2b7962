/** The code of Appendix B of the Ethereum Yellow Paper, byte by byte and with its own numbers: what the first
    byte of an encoding is, where the length and the payload stand, and what the reader makes of each first
    byte. */
module RlpForm {
  import opened BigEndian
  import opened Wrappers
  import opened Rlp

  /** A length that takes `k` bytes and no fewer. */
  ghost predicate Takes(len: nat, k: nat) {
    0 < k && Pow256(k - 1) <= len < Pow256(k)
  }

  lemma TakesBytes(len: nat, k: nat)
    requires Takes(len, k)
    ensures |ToBE(len)| == k
  {
    ToBELength(len, k);
    ToBELength(len, k - 1);
  }

  /** Below 56 bytes the first byte tells the length. */
  lemma ShortData(b: Bytes)
    requires |b| <= 55
    ensures EncodeData(b) == if |b| == 1 && b[0] <= 0x7f then b else [0x80 + |b|] + b
  {
  }

  /** From 56 bytes on the first byte tells how many bytes the length takes. */
  lemma LongData(b: Bytes, k: nat)
    requires 56 <= |b| && Takes(|b|, k) && k <= 8
    ensures var e := EncodeData(b);
            |e| == 1 + k + |b| && e[0] == 0xb7 + k && FromBE(e[1..1 + k]) == |b| && e[1] != 0 && e[1 + k..] == b
  {
    LongForm(b, 0x80, k);
  }

  lemma LongForm(p: Bytes, start: Byte, k: nat)
    requires 56 <= |p| && Takes(|p|, k) && k <= 8 && (start == 0x80 || start == 0xc0)
    ensures var e := Header(|p|, start) + p;
            && |e| == 1 + k + |p| && e[0] == start + 55 + k
            && FromBE(e[1..1 + k]) == |p| && e[1] != 0 && e[1 + k..] == p
  {
    hide ToBE, FromBE;
    TakesBytes(|p|, k);
    FromTo(|p|);
    var e, n := Header(|p|, start) + p, ToBE(|p|);
    assert e == [start + 55 + k] + n + p;
    assert e[1..1 + k] == n && e[1 + k..] == p && e[1] == n[0];
  }

  lemma ShortList(ts: seq<Item>)
    requires |EncodeAll(ts)| <= 55
    ensures Encode(List(ts)) == [0xc0 + |EncodeAll(ts)|] + EncodeAll(ts)
  {
  }

  lemma LongList(ts: seq<Item>, k: nat)
    requires 56 <= |EncodeAll(ts)| && Takes(|EncodeAll(ts)|, k) && k <= 8
    ensures var e, p := Encode(List(ts)), EncodeAll(ts);
            |e| == 1 + k + |p| && e[0] == 0xf7 + k && FromBE(e[1..1 + k]) == |p| && e[1] != 0 && e[1 + k..] == p
  {
    hide EncodeAll, Header, FromBE;
    LongForm(EncodeAll(ts), 0xc0, k);
  }

  /** The payload of a list is the concatenation of its items' encodings. */
  lemma {:induction false} ListPayload(ts: seq<Item>, us: seq<Item>, t: Item)
    ensures EncodeAll([]) == [] && EncodeAll([t]) == Encode(t)
    ensures EncodeAll(ts + us) == EncodeAll(ts) + EncodeAll(us)
    decreases |ts|
  {
    hide Encode;
    assert [t][1..] == [];
    if ts == [] {
      assert ts + us == us;
    } else {
      ListPayload(ts[1..], us, t);
      assert (ts + us)[0] == ts[0] && (ts + us)[1..] == ts[1..] + us;
    }
  }

  // ----- every first byte is in use

  /** A string whose length takes exactly `k` bytes. */
  lemma LongString(k: nat) returns (b: Bytes)
    requires 1 <= k <= 8
    ensures |b| == (if k == 1 then 56 else Pow256(k - 1)) && Takes(|b|, k) && |b| <= Pow256(7)
  {
    b := Zeros(if k == 1 then 56 else Pow256(k - 1));
    PowersGrow(k - 1, 7);
    if k > 1 { PowersGrow(1, k - 1); }
  }

  lemma {:induction false} PowersGrow(i: nat, j: nat)
    requires i <= j
    ensures Pow256(i) <= Pow256(j)
    decreases j
  {
    if i < j { PowersGrow(i, j - 1); }
  }

  lemma SeventhPower()
    ensures Pow256(7) + 100 < TOO_LONG && Pow256(0) == 1 && Pow256(1) == 256
  {
    Pow256Eight();
    assert Pow256(8) == 256 * Pow256(7);
  }

  /** Each of the 256 byte values begins some encoding. */
  lemma EveryFirstByte(v: Byte) returns (t: Item)
    ensures |Encode(t)| < TOO_LONG && Encode(t) != [] && Encode(t)[0] == v
  {
    SeventhPower();
    if v < 0x80 {
      t := Data([v]);
      ShortData([v]);
    } else if v <= 0xb7 {
      t := Data(seq(v - 0x80, _ => 0xff));
      ShortData(t.bytes);
    } else if v < 0xc0 {
      var b := LongString(v - 0xb7);
      t := Data(b);
      LongData(b, v - 0xb7);
    } else if v <= 0xf7 {
      t := List(Singles(v - 0xc0));
      SinglesEncoded(v - 0xc0);
      ShortList(t.items);
    } else {
      t := ListOfLength(v - 0xf7);
    }
  }

  function Singles(n: nat): seq<Item> {
    if n == 0 then [] else [Data([0])] + Singles(n - 1)
  }

  lemma {:induction false} SinglesEncoded(n: nat)
    ensures |EncodeAll(Singles(n))| == n
  {
    if n > 0 {
      SinglesEncoded(n - 1);
      assert Singles(n)[1..] == Singles(n - 1);
    }
  }

  lemma ListOfLength(k: nat) returns (t: Item)
    requires 1 <= k <= 8
    ensures |Encode(t)| < TOO_LONG && Encode(t) != [] && Encode(t)[0] == 0xf7 + k
  {
    hide Encode, EncodeAll;
    SeventhPower();
    var n := if k == 1 then 56 else Pow256(k - 1);
    var b := LongString(k);
    var ts := Singles(n);
    SinglesEncoded(n);
    LongList(ts, k);
    t := List(ts);
  }

  // ----- what the reader makes of a first byte

  /** The long form: `k` bytes of length after the first byte. */
  ghost predicate ReadsLong(d: Bytes, k: nat, r: Result<nat, Error>)
    requires d != [] && k > 0
  {
    if |d| <= k || d[1] == 0 || FromBE(d[1..1 + k]) < 56 then r == Err(BadRLP)
    else if FromBE(d[1..1 + k]) >= 0xffff_ffff_ffff_feff then r == Err(UndersizeRLP)
    else r == Ok(FromBE(d[1..1 + k]))
  }

  lemma LengthForm(d: Bytes)
    ensures d == [] ==> Length(d) == Ok(0)
    ensures d != [] && d[0] <= 0x7f ==> Length(d) == Ok(1)
    ensures d != [] && 0x80 <= d[0] <= 0xb7 ==>
              Length(d) == if d[0] == 0x81 && (|d| == 1 || d[1] <= 0x7f) then Err(BadRLP) else Ok(d[0] - 0x80)
    ensures d != [] && 0xb8 <= d[0] <= 0xbf ==> ReadsLong(d, d[0] - 0xb7, Length(d))
    ensures d != [] && 0xc0 <= d[0] <= 0xf7 ==> Length(d) == Ok(d[0] - 0xc0)
    ensures d != [] && 0xf8 <= d[0] ==> ReadsLong(d, d[0] - 0xf7, Length(d))
  {
    hide FromBE;
  }

  /** Strict construction: accepted exactly if the first item is all there is; otherwise the error tells whether
      the prefix is bad, bytes are missing or bytes are left over. */
  lemma StrictExact(d: Bytes)
    ensures VeryStrict(d) ==
            match Length(d) {
              case Err(e) => Err(e)
              case Ok(n) =>
                var size := if d == [] then 0 else if d[0] <= 0x7f then 1 else if d[0] <= 0xb7 then 1 + n
                            else if d[0] <= 0xbf then 1 + (d[0] - 0xb7) + n else if d[0] <= 0xf7 then 1 + n
                            else 1 + (d[0] - 0xf7) + n;
                if size < |d| then Err(OversizeRLP) else if size > |d| then Err(UndersizeRLP) else Ok(())
            }
  {
    hide FromBE;
  }

  /** Exactly the encodings of integers of fewer than 2^32 bytes are read as integers. */
  lemma IntExact(d: Bytes)
    requires VeryStrict(d).Ok? && |d| < TOO_LONG
    ensures ToInt(d).Ok? <==> exists n :: EncodeInt(n) == d && |ToBE(n)| <= 0xffff_ffff
  {
    hide EncodeInt, VeryStrict, ToBE, FromBE;
    if ToInt(d).Ok? {
      IntCanonical(d);
      IntRoundTrip(ToInt(d).value);
    }
    if n :| EncodeInt(n) == d && |ToBE(n)| <= 0xffff_ffff { IntRoundTrip(n); }
  }
}
