/** Byte strings, their big-endian reading, and where a chunk lies inside a longer byte string. */
module Bytes {

  type byte = b: int | 0 <= b < 256

  type Bytes = seq<byte>

  function Pow256(n: nat): (p: nat)
    ensures p >= 1
  {
    if n == 0 then 1 else 256 * Pow256(n - 1)
  }

  /** The number spelled by b[lo..hi], most significant byte first. */
  function Number(b: Bytes, lo: nat, hi: nat): (v: nat)
    requires lo <= hi <= |b|
    ensures v < Pow256(hi - lo)
  {
    if lo == hi then 0 else 256 * Number(b, lo, hi - 1) + b[hi - 1]
  }

  function BigEndian(b: Bytes): (v: nat) {
    Number(b, 0, |b|)
  }

  /** The big-endian reading of a slice is the number spelled in place. */
  lemma {:induction false} NumberAt(s: Bytes, off: int, chunk: Bytes, k: nat)
    requires At(s, off, chunk) && k <= |chunk|
    ensures Number(s, off, off + k) == Number(chunk, 0, k)
  {
    if k > 0 {
      NumberAt(s, off, chunk, k - 1);
      assert s[off..off + |chunk|][k - 1] == s[off + k - 1];
    }
  }

  lemma {:induction false} NumberSub(s: Bytes, off: int, chunk: Bytes, lo: nat, hi: nat)
    requires At(s, off, chunk) && lo <= hi <= |chunk|
    ensures Number(s, off + lo, off + hi) == Number(chunk, lo, hi)
  {
    if lo < hi {
      NumberSub(s, off, chunk, lo, hi - 1);
      assert s[off..off + |chunk|][hi - 1] == s[off + hi - 1];
    }
  }

  function Zeros(n: nat): (z: Bytes)
    ensures |z| == n && forall i :: 0 <= i < n ==> z[i] == 0
  {
    seq(n, i => 0)
  }

  /** The last n base-256 digits of v, most significant first. */
  function ToBytes(v: nat, n: nat): (b: Bytes)
    ensures |b| == n
  {
    if n == 0 then [] else ToBytes(v / 256, n - 1) + [v % 256]
  }

  lemma {:induction false} ReadBack(v: nat, n: nat)
    requires v < Pow256(n)
    ensures BigEndian(ToBytes(v, n)) == v
  {
    if n > 0 {
      ReadBack(v / 256, n - 1);
      var high, b := ToBytes(v / 256, n - 1), ToBytes(v, n);
      assert At(b, 0, high);
      NumberAt(b, 0, high, n - 1);
    }
  }

  /** The other way round. */
  lemma {:induction false} WriteBack(b: Bytes)
    ensures ToBytes(BigEndian(b), |b|) == b && BigEndian(b) < Pow256(|b|)
  {
    var n := |b|;
    if n > 0 {
      var high := b[..n - 1];
      WriteBack(high);
      assert At(b, 0, high);
      NumberAt(b, 0, high, n - 1);
      assert BigEndian(b) / 256 == BigEndian(high) && BigEndian(b) % 256 == b[n - 1];
      assert b == high + [b[n - 1]];
    }
  }

  lemma ShiftDigit(high: nat, weight: nat, low: nat, digit: nat)
    ensures 256 * (high * weight + low) + digit == high * (256 * weight) + (256 * low + digit)
  {
  }

  lemma {:induction false} NumberSplit(b: Bytes, lo: nat, mid: nat, hi: nat)
    requires lo <= mid <= hi <= |b|
    ensures Number(b, lo, hi) == Number(b, lo, mid) * Pow256(hi - mid) + Number(b, mid, hi)
  {
    if mid < hi {
      NumberSplit(b, lo, mid, hi - 1);
      ShiftDigit(Number(b, lo, mid), Pow256(hi - 1 - mid), Number(b, mid, hi - 1), b[hi - 1]);
    } else {
      assert Number(b, lo, mid) * 1 == Number(b, lo, mid);
    }
  }

  lemma {:induction false} NumberZero(b: Bytes, lo: nat, hi: nat)
    requires lo <= hi <= |b|
    ensures Number(b, lo, hi) == 0 <==> forall k :: lo <= k < hi ==> b[k] == 0
  {
    if lo < hi {
      NumberZero(b, lo, hi - 1);
    }
  }

  lemma {:induction false} Pow256Monotonic(m: nat, n: nat)
    requires m <= n
    ensures Pow256(m) <= Pow256(n)
  {
    if m < n {
      Pow256Monotonic(m, n - 1);
    }
  }

  /** `chunk` lies in `s` at byte offset `off`. */
  predicate At(s: Bytes, off: int, chunk: Bytes) {
    0 <= off && off + |chunk| <= |s| && s[off..off + |chunk|] == chunk
  }

  /** `chunk` is a contiguous part of `s`. */
  ghost predicate Inside(s: Bytes, chunk: Bytes) {
    exists off :: At(s, off, chunk)
  }

  lemma AtNested(s: Bytes, off: int, mid: Bytes, inner: int, chunk: Bytes)
    requires At(s, off, mid) && At(mid, inner, chunk)
    ensures At(s, off + inner, chunk)
  {
    forall k | 0 <= k < |chunk|
      ensures s[off + inner + k] == chunk[k]
    {
      assert mid[inner + k] == chunk[k];
      assert s[off..off + |mid|][inner + k] == s[off + inner + k];
    }
  }

  lemma AtSplit(s: Bytes, off: int, a: Bytes, b: Bytes)
    requires At(s, off, a + b)
    ensures At(s, off, a) && At(s, off + |a|, b)
  {
    assert At(a + b, 0, a) && At(a + b, |a|, b);
    AtNested(s, off, a + b, 0, a);
    AtNested(s, off, a + b, |a|, b);
  }

  lemma AtWhole(s: Bytes)
    ensures At(s, 0, s)
  {
  }

  lemma AtAppended(a: Bytes, b: Bytes)
    ensures At(a + b, |a|, b)
  {
  }

  lemma AtIndex(s: Bytes, off: int, chunk: Bytes, k: nat)
    requires At(s, off, chunk) && k < |chunk|
    ensures s[off + k] == chunk[k]
  {
    assert s[off..off + |chunk|][k] == s[off + k];
  }

  lemma AtExtended(s: Bytes, off: int, chunk: Bytes, junk: Bytes)
    requires At(s, off, chunk)
    ensures At(s + junk, off, chunk)
  {
    assert (s + junk)[off..off + |chunk|] == s[off..off + |chunk|];
  }

  /** Concatenation of a list of lists, in order. */
  function Concat<T>(parts: seq<seq<T>>): seq<T> {
    if |parts| == 0 then [] else Concat(parts[..|parts| - 1]) + parts[|parts| - 1]
  }

  lemma ConcatSnoc<T>(parts: seq<seq<T>>, k: nat)
    requires k < |parts|
    ensures Concat(parts[..k + 1]) == Concat(parts[..k]) + parts[k]
  {
    assert parts[..k + 1][..k] == parts[..k];
  }

  lemma {:induction false} ConcatAt(parts: seq<Bytes>, k: nat)
    requires k < |parts|
    ensures At(Concat(parts), |Concat(parts[..k])|, parts[k])
  {
    var n := |parts| - 1;
    if k < n {
      ConcatAt(parts[..n], k);
      assert parts[..n][..k] == parts[..k];
      AtExtended(Concat(parts[..n]), |Concat(parts[..k])|, parts[k], parts[n]);
    } else {
      assert parts[..k] == parts[..n];
    }
  }

  lemma {:induction false} ConcatUniform<T>(parts: seq<seq<T>>, size: nat)
    requires forall i :: 0 <= i < |parts| ==> |parts[i]| == size
    ensures |Concat(parts)| == size * |parts|
  {
    if |parts| > 0 {
      ConcatUniform(parts[..|parts| - 1], size);
      assert size * |parts| == size * (|parts| - 1) + size;
    }
  }
}
