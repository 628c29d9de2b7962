/** Big-endian integers: the loops of `bytesRequired`, `toBigEndian` and `fromBigEndian`. */
module BigEndian {

  type Byte = x: int | 0 <= x < 256
  type Bytes = seq<Byte>

  /** The shortest big-endian form; zero is the empty string. */
  function ToBE(n: nat): Bytes {
    if n == 0 then [] else ToBE(n / 256) + [n % 256]
  }

  function FromBE(b: Bytes): nat {
    if b == [] then 0 else FromBE(b[..|b|-1]) * 256 + b[|b|-1]
  }

  function Pow256(k: nat): (r: nat)
    ensures r > 0
  {
    if k == 0 then 1 else 256 * Pow256(k - 1)
  }

  lemma {:induction false} FromTo(n: nat)
    ensures FromBE(ToBE(n)) == n
    ensures n > 0 ==> ToBE(n) != [] && ToBE(n)[0] != 0
    decreases n
  {
    if n > 0 {
      FromTo(n / 256);
      assert ToBE(n)[..|ToBE(n)|-1] == ToBE(n / 256);
    }
  }

  lemma {:induction false} FromPositive(b: Bytes)
    requires b != [] && b[0] != 0
    ensures FromBE(b) > 0
    decreases |b|
  {
    if |b| > 1 { FromPositive(b[..|b|-1]); }
  }

  /** Without a leading zero there is only one way to write a number. */
  lemma {:induction false} ToFrom(b: Bytes)
    requires b != [] ==> b[0] != 0
    ensures ToBE(FromBE(b)) == b
    decreases |b|
  {
    if b != [] {
      var p := b[..|b|-1];
      FromPositive(b);
      ToFrom(p);
      assert FromBE(b) / 256 == FromBE(p) && FromBE(b) % 256 == b[|b|-1];
    }
  }

  /** The number of bytes is bounded by the size of the number, both ways. */
  lemma {:induction false} ToBELength(n: nat, k: nat)
    ensures |ToBE(n)| <= k <==> n < Pow256(k)
    decreases n
  {
    if n > 0 && k > 0 { ToBELength(n / 256, k - 1); }
  }

  /** Counts of bytes are kept in 32 bits. */
  const COUNT_LIMIT := 0x1_0000_0000

  /** `bytesRequired`: shift right until nothing is left. The count wraps at 2^32 bytes. */
  method BytesRequired(n: nat) returns (count: nat)
    ensures count == |ToBE(n)| % 0x1_0000_0000
    ensures |ToBE(n)| < 0x1_0000_0000 ==> count == |ToBE(n)|
  {
    count := 0;
    ghost var shifted := 0;
    var i := n;
    while i != 0
      invariant shifted + |ToBE(i)| == |ToBE(n)| && count == shifted % COUNT_LIMIT
      decreases i
    {
      i := i / 256;
      NextCount(shifted);
      count := (count + 1) % COUNT_LIMIT;
      shifted := shifted + 1;
    }
  }

  lemma NextCount(n: nat)
    ensures (n % COUNT_LIMIT + 1) % COUNT_LIMIT == (n + 1) % COUNT_LIMIT
  {
  }

  /** `fromBigEndian`: shift in one byte after the other. */
  method FromBigEndian(b: Bytes) returns (n: nat)
    ensures n == FromBE(b)
  {
    n := 0;
    for i := 0 to |b|
      invariant n == FromBE(b[..i])
    {
      assert b[..i + 1][..i] == b[..i];
      n := n * 256 + b[i];
    }
    assert b[..|b|] == b;
  }

  function Zeros(k: nat): Bytes {
    seq(k, _ => 0)
  }

  /** Writing a number backwards into a buffer of `k` bytes, low byte last: exactly its big-endian
      form when `k` is the number of bytes it needs. */
  method WriteBackwards(out: Bytes, n: nat, end: nat) returns (r: Bytes)
    requires |ToBE(n)| <= end <= |out|
    ensures r == out[..end - |ToBE(n)|] + ToBE(n) + out[end..]
  {
    r := out;
    var i, b := n, end;
    while i != 0
      invariant |r| == |out| && |ToBE(i)| <= b <= end && b - |ToBE(i)| == end - |ToBE(n)|
      invariant ToBE(n) == ToBE(i) + r[b..end]
      invariant r[..b] == out[..b] && r[end..] == out[end..]
      decreases i
    {
      ghost var r0, b0 := r, b;
      b := b - 1;
      r := r[b := i % 256];
      assert r[b..end] == [i % 256] + r0[b0..end];
      i := i / 256;
    }
    assert r == r[..b] + r[b..end] + r[end..];
  }
}
