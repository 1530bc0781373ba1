/** Byte-level vocabulary of the transcoder: the unsigned widths values are
    stored in, the little-endian encodings written by the WORD and DWORD
    helpers, and in-place stores into a fixed-size byte array. */
module Bytes {

  /** An unsigned 8-bit value, as stored in the output buffers. */
  type byte = b: int | 0 <= b < 0x100

  /** An unsigned 32-bit value (`uint32_t`). */
  type uint32 = x: int | 0 <= x < 0x1_0000_0000

  const TwoTo32: int := 0x1_0000_0000

  function Pow256(n: nat): (p: nat)
    ensures p >= 1
  {
    if n == 0 then 1 else 0x100 * Pow256(n - 1)
  }

  lemma AppendAssoc<T>(a: seq<T>, b: seq<T>, c: seq<T>)
    ensures a + b + c == a + (b + c)
  {
  }

  /** The number a little-endian byte sequence denotes. */
  function LeValue(bs: seq<byte>): nat
  {
    if |bs| == 0 then 0 else bs[0] + 0x100 * LeValue(bs[1..])
  }

  /** The n low-order bytes of v, least significant first: what storing v
      into an n-byte unsigned field keeps of it. */
  function LeBytes(v: nat, n: nat): (r: seq<byte>)
    ensures |r| == n
  {
    if n == 0 then [] else [v % 0x100] + LeBytes(v / 0x100, n - 1)
  }

  /** WORD: a 16-bit little-endian field. */
  function Word(v: nat): (r: seq<byte>)
    ensures |r| == 2
    ensures LeValue(r) == v % 0x1_0000
  {
    LeRoundTrip(v, 2);
    LeBytes(v, 2)
  }

  lemma WordBytes(v: nat)
    ensures Word(v) == [v % 0x100, (v / 0x100) % 0x100]
  {
    assert LeBytes(v / 0x100, 1) == [(v / 0x100) % 0x100] + LeBytes(v / 0x100 / 0x100, 0);
    assert LeBytes(v, 2) == [v % 0x100] + LeBytes(v / 0x100, 1);
  }

  /** DWORD: a 32-bit little-endian field. */
  function Dword(v: nat): (r: seq<byte>)
    ensures |r| == 4
    ensures LeValue(r) == v % TwoTo32
  {
    LeRoundTrip(v, 4);
    LeBytes(v, 4)
  }

  lemma ModUnique(v: int, m: int, q: int, s: int)
    requires m > 0 && 0 <= s < m && v == q * m + s
    ensures v % m == s
  {
    var q' := v / m;
    if q' < q {
      MulLe(q' + 1, q, m);
    } else if q < q' {
      MulLe(q + 1, q', m);
    }
  }

  lemma MulLe(a: int, b: int, m: int)
    requires a <= b && m >= 0
    ensures a * m <= b * m
  {
  }

  /** Peeling the low byte off a residue. */
  lemma ModSplit(v: nat, m: nat)
    requires m > 0
    ensures v % (0x100 * m) == v % 0x100 + 0x100 * ((v / 0x100) % m)
  {
    var q := v / 0x100;
    var s := v % 0x100;
    var q2 := q / m;
    var s2 := q % m;
    assert q == q2 * m + s2;
    assert v == q * 0x100 + s;
    assert v == q2 * (0x100 * m) + (0x100 * s2 + s);
    assert 0x100 * s2 <= 0x100 * (m - 1) by { MulLe(s2, m - 1, 0x100); }
    ModUnique(v, 0x100 * m, q2, 0x100 * s2 + s);
  }

  /** Reading back an n-byte little-endian store yields the stored value
      truncated to n bytes. */
  lemma {:induction false} LeRoundTrip(v: nat, n: nat)
    ensures LeValue(LeBytes(v, n)) == v % Pow256(n)
  {
    if n == 0 {
    } else {
      var r := LeBytes(v, n);
      assert r[1..] == LeBytes(v / 0x100, n - 1);
      LeRoundTrip(v / 0x100, n - 1);
      ModSplit(v, Pow256(n - 1));
    }
  }

  /** The 16-bit little-endian field at offset off. */
  function ReadWord(h: seq<byte>, off: nat): nat
    requires off + 2 <= |h|
  {
    LeValue(h[off..off + 2])
  }

  /** The 32-bit little-endian field at offset off. */
  function ReadDword(h: seq<byte>, off: nat): nat
    requires off + 4 <= |h|
  {
    LeValue(h[off..off + 4])
  }

  /** The WORD helper: stores the low and the second byte of v at off and
      off + 1, one indexed assignment each, and nothing else. */
  function PutWord(buf: seq<byte>, off: nat, v: nat): (r: seq<byte>)
    requires off + 2 <= |buf|
    ensures |r| == |buf|
    ensures r[off] == v % 0x100 && r[off + 1] == (v / 0x100) % 0x100
    ensures ReadWord(r, off) == v % 0x1_0000
    ensures forall i :: 0 <= i < |buf| && i != off && i != off + 1 ==> r[i] == buf[i]
  {
    var w := Word(v);
    WordBytes(v);
    var r := buf[off := w[0]][off + 1 := w[1]];
    assert r[off..off + 2] == w;
    r
  }
}
