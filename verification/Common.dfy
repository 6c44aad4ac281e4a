/** Shared vocabulary: bytes, optional values, results, and little-endian numbers. */
module Common {

  type Byte = b: int | 0 <= b < 256
  type Bytes = seq<Byte>

  datatype Option<+T> = None | Some(value: T)

  datatype Result<+T, +E> = Ok(value: T) | Err(error: E)

  /** Content digests. A digest is modelled by the content it was computed from, so both
      hash functions are injective and their key spaces are disjoint by construction. */
  datatype Digest = Sha256(content: Bytes) | Sha1(content: Bytes)

  function Pow256(k: nat): (r: nat)
    ensures r >= 1
  {
    if k == 0 then 1 else 256 * Pow256(k - 1)
  }

  /** The number whose little-endian bytes are b. */
  function LittleEndian(b: Bytes): (n: nat)
    ensures n < Pow256(|b|)
  {
    if b == [] then 0 else b[0] + 256 * LittleEndian(b[1..])
  }

  /** The k low-order bytes of n, least significant first. */
  function ToLittleEndian(n: nat, k: nat): (b: Bytes)
    ensures |b| == k
  {
    if k == 0 then [] else [n % 256] + ToLittleEndian(n / 256, k - 1)
  }

  lemma {:induction false} LittleEndianRoundTrip(n: nat, k: nat)
    requires n < Pow256(k)
    ensures LittleEndian(ToLittleEndian(n, k)) == n
  {
    if k > 0 {
      LittleEndianRoundTrip(n / 256, k - 1);
      assert ToLittleEndian(n, k)[1..] == ToLittleEndian(n / 256, k - 1);
    }
  }

  lemma {:induction false} ToLittleEndianInverts(b: Bytes)
    ensures ToLittleEndian(LittleEndian(b), |b|) == b
  {
    if b != [] {
      ToLittleEndianInverts(b[1..]);
      var first: int, more := b[0], LittleEndian(b[1..]);
      var n := LittleEndian(b);
      assert n == first + 256 * more;
      assert ToLittleEndian(n, |b|) == [n % 256] + ToLittleEndian(n / 256, |b| - 1);
      hide LittleEndian, ToLittleEndian;
      assert n % 256 == first && n / 256 == more;
      assert b == [b[0]] + b[1..];
    }
  }

  /** The bytes after the first k count 256^k times as much. */
  lemma {:induction false} LittleEndianAppend(a: Bytes, b: Bytes)
    ensures LittleEndian(a + b) == LittleEndian(a) + Pow256(|a|) * LittleEndian(b)
  {
    if a == [] {
      assert a + b == b;
    } else {
      LittleEndianAppend(a[1..], b);
      assert (a + b)[1..] == a[1..] + b && (a + b)[0] == a[0];
      var p, x, low := Pow256(|a| - 1), LittleEndian(b), LittleEndian(a[1..]);
      assert LittleEndian(a + b) == a[0] + 256 * (low + p * x) && LittleEndian(a) == a[0] + 256 * low && Pow256(|a|) == 256 * p;
      hide LittleEndian, Pow256;
      ShiftedSum(low, p, x);
    }
  }

  lemma ShiftedSum(low: nat, p: nat, x: nat)
    ensures 256 * (low + p * x) == 256 * low + (256 * p) * x
  {
  }

  /** Three little-endian bytes, the width of the lengths in a chunk header. */
  function U24(lo: Byte, mid: Byte, hi: Byte): (n: nat)
    ensures n < 0x100_0000
  {
    var l: int, m: int, h: int := lo, mid, hi;
    l + 256 * m + 65536 * h
  }

  function ToU24(n: nat): (b: Bytes)
    ensures |b| == 3
  {
    [n % 256, n / 256 % 256, n / 65536 % 256]
  }

  lemma U24IsLittleEndian(lo: Byte, mid: Byte, hi: Byte)
    ensures U24(lo, mid, hi) == LittleEndian([lo, mid, hi])
  {
    var b: Bytes := [lo, mid, hi];
    assert b[1..] == [mid, hi] && b[1..][1..] == [hi] && b[1..][1..][1..] == [];
    assert LittleEndian(b[1..][1..]) == hi && LittleEndian(b[1..]) == mid + 256 * LittleEndian(b[1..][1..]);
  }

  lemma U24RoundTrip(n: nat)
    requires n < 0x100_0000
    ensures U24(ToU24(n)[0], ToU24(n)[1], ToU24(n)[2]) == n
  {
    assert n / 65536 == n / 256 / 256 && n / 65536 < 256;
  }

  lemma ToU24Inverts(lo: Byte, mid: Byte, hi: Byte)
    ensures ToU24(U24(lo, mid, hi)) == [lo, mid, hi]
  {
    var n := U24(lo, mid, hi);
    var l: int, m: int, h: int := lo, mid, hi;
    assert n / 256 == m + 256 * h;
  }

  /** Concatenation of a sequence of byte strings. */
  function Concat(parts: seq<Bytes>): Bytes {
    if parts == [] then [] else parts[0] + Concat(parts[1..])
  }

  lemma {:induction false} ConcatAppend(a: seq<Bytes>, b: seq<Bytes>)
    ensures Concat(a + b) == Concat(a) + Concat(b)
  {
    if a == [] {
      assert a + b == b;
    } else {
      assert (a + b)[1..] == a[1..] + b;
      ConcatAppend(a[1..], b);
    }
  }

  predicate IsHex(c: char) { '0' <= c <= '9' || 'a' <= c <= 'f' }

  /** A full commit id: forty lower-case hex digits. */
  predicate IsCommitSHA(revision: string) {
    |revision| == 40 && forall i :: 0 <= i < 40 ==> IsHex(revision[i])
  }
}
