/** ABI readers (evm-lib/parser/codecs/abi.go). The functions say what is read; the methods are the
    code, on 64-bit integers, and are proved to agree with the functions. */
module Abi {
  import opened Wrappers
  import opened Bytes
  import opened Types

  const MAX_ARRAY: int := 10_000

  function WordAt(params: Bytes, off: int): (r: Option<nat>) {
    if 0 <= off && off + 32 <= |params| then Some(Number(params, off, off + 32)) else None
  }

  function AddressAt(params: Bytes, off: int): (r: Option<Address>) {
    if 0 <= off && off + 32 <= |params| then Some(params[off + 12..off + 32]) else None
  }

  function AtMost(r: Option<nat>, cap: int): Option<nat> {
    if r.Some? && r.value <= cap then r else None
  }

  function OffsetAt(params: Bytes, off: int): (r: Option<nat>) {
    AtMost(WordAt(params, off), MAX_INT32)
  }

  function ArrayLengthAt(params: Bytes, off: int): (r: Option<nat>) {
    AtMost(WordAt(params, off), MAX_ARRAY)
  }

  function DynBytesAt(params: Bytes, off: int): (r: Option<Bytes>)
  {
    match OffsetAt(params, off)
    case None => None
    case Some(n) =>
      if off + 32 + n <= |params| then Some(params[off + 32..off + 32 + n]) else None
  }

  /** The results f(0), ..., f(n-1), or nothing when one of them fails. */
  function Collect<T>(f: nat -> Option<T>, n: nat): (r: Option<seq<T>>) {
    if n == 0 then Some([])
    else if f(n - 1).None? then None
    else
      match Collect(f, n - 1)
      case None => None
      case Some(xs) => Some(xs + [f(n - 1).value])
  }

  lemma {:induction false} CollectMeans<T>(f: nat -> Option<T>, n: nat)
    ensures Collect(f, n).Some? <==> forall i: nat :: i < n ==> f(i).Some?
    ensures Collect(f, n).Some? ==>
              |Collect(f, n).value| == n && forall i: nat :: i < n ==> f(i) == Some(Collect(f, n).value[i])
  {
    if n > 0 {
      CollectMeans(f, n - 1);
    }
  }

  lemma {:induction false} CollectIs<T>(f: nat -> Option<T>, xs: seq<T>)
    requires forall i: nat :: i < |xs| ==> f(i) == Some(xs[i])
    ensures Collect(f, |xs|) == Some(xs)
  {
    if |xs| > 0 {
      CollectIs(f, xs[..|xs| - 1]);
      assert xs == xs[..|xs| - 1] + [xs[|xs| - 1]];
    }
  }

  /** Where two readers agree as long as the first succeeds, so do the lists they collect. */
  lemma {:induction false} CollectSame<T>(f: nat -> Option<T>, f': nat -> Option<T>, n: nat)
    requires forall i: nat :: i < n && f(i).Some? ==> f'(i) == f(i)
    ensures Collect(f, n).Some? ==> Collect(f', n) == Collect(f, n)
  {
    if n > 0 {
      CollectSame(f, f', n - 1);
    }
  }

  lemma {:induction false} CollectFails<T>(f: nat -> Option<T>, k: nat, n: nat)
    requires k < n && f(k).None?
    ensures Collect(f, n).None?
  {
    if k < n - 1 {
      CollectFails(f, k, n - 1);
    }
  }

  /** Element i of an array of dynamic bytes whose pointers, relative to `base`, start at `base`. */
  function ElementAt(params: Bytes, base: int, i: int): (r: Option<Bytes>) {
    match OffsetAt(params, base + i * 32)
    case None => None
    case Some(rel) => DynBytesAt(params, base + rel)
  }

  /** The elements of the bytes[] whose length word is at `off`. */
  function BytesArrayAt(params: Bytes, off: int): (r: Option<seq<Bytes>>) {
    match ArrayLengthAt(params, off)
    case None => None
    case Some(n) => Collect(i => ElementAt(params, off + 32, i), n)
  }

  // ----- appending bytes never disturbs a successful read -----

  lemma WordExtended(params: Bytes, off: int, junk: Bytes)
    ensures WordAt(params, off).Some? ==> WordAt(params + junk, off) == WordAt(params, off)
    ensures AddressAt(params, off).Some? ==> AddressAt(params + junk, off) == AddressAt(params, off)
  {
    if WordAt(params, off).Some? {
      assert At(params + junk, off, params[off..]);
      NumberAt(params + junk, off, params[off..], 32);
      NumberAt(params, off, params[off..], 32);
      assert (params + junk)[off + 12..off + 32] == params[off + 12..off + 32];
    }
  }

  lemma DynBytesExtended(params: Bytes, off: int, junk: Bytes)
    ensures DynBytesAt(params, off).Some? ==> DynBytesAt(params + junk, off) == DynBytesAt(params, off)
  {
    WordExtended(params, off, junk);
    var r := DynBytesAt(params, off);
    if r.Some? {
      AtExtended(params, off + 32, r.value, junk);
    }
  }

  // ----- what the bounds test means in 64 bits -----

  /** Go's wrap-around on a 64-bit int. */
  function Wrap(x: int): (r: int)
    ensures -0x8000_0000_0000_0000 <= r < 0x8000_0000_0000_0000 && (x - r) % 0x1_0000_0000_0000_0000 == 0
  {
    (x + 0x8000_0000_0000_0000) % 0x1_0000_0000_0000_0000 - 0x8000_0000_0000_0000
  }

  /** The test every reader begins with, as the machine computes it. */
  predicate TestPasses(offset: Int64, length: nat) {
    !(offset < 0 || Wrap(offset as int + 32) > length)
  }

  /** The test means that a word fits exactly for offsets up to 2^63 - 33. Above, the sum wraps, the test passes
      and the slice expression panics, so the readers require such an offset. */
  lemma TestMeansFits(offset: Int64, length: nat)
    requires length <= MAX_INT64
    ensures (TestPasses(offset, length) <==> 0 <= offset as int && offset as int + 32 <= length)
            <==> offset as int <= 0x7fff_ffff_ffff_ffdf
  {
    var sum := offset as int + 32;
    if sum > MAX_INT64 {
      assert sum + 0x8000_0000_0000_0000 - 0x1_0000_0000_0000_0000 == sum - 0x8000_0000_0000_0000;
      assert Wrap(sum) == sum - 0x1_0000_0000_0000_0000;
    } else {
      assert Wrap(sum) == sum;
    }
  }

  // ----- the readers -----

  method ReadWordAt(params: Bytes, offset: Int64) returns (r: Option<Bytes>)
    requires |params| <= MAX_CALLDATA && offset as int <= MAX_INT64 - 32
    ensures r.Some? <==> WordAt(params, offset as int).Some?
    ensures r.Some? ==> |r.value| == 32 && At(params, offset as int, r.value)
  {
    if offset < 0 || offset + 32 > |params| as Int64 {
      return None;
    }
    r := Some(params[offset..offset + 32]);
  }

  method ReadAddressAt(params: Bytes, offset: Int64) returns (r: Option<Address>)
    requires |params| <= MAX_CALLDATA && offset as int <= MAX_INT64 - 32
    ensures r == AddressAt(params, offset as int)
  {
    var word := ReadWordAt(params, offset);
    if word.None? {
      return None;
    }
    r := Some(word.value[12..32]);
    assert word.value[12..32] == params[offset as int + 12..offset as int + 32];
  }

  method ReadUint256At(params: Bytes, offset: Int64) returns (r: Option<nat>)
    requires |params| <= MAX_CALLDATA && offset as int <= MAX_INT64 - 32
    ensures r == WordAt(params, offset as int)
  {
    var word := ReadWordAt(params, offset);
    if word.None? {
      return None;
    }
    NumberAt(params, offset as int, word.value, 32);
    r := Some(BigEndian(word.value));
  }

  method ReadOffsetAt(params: Bytes, offset: Int64) returns (r: Option<Int64>)
    requires |params| <= MAX_CALLDATA && offset as int <= MAX_INT64 - 32
    ensures r.Some? <==> WordAt(params, offset as int).Some? && WordAt(params, offset as int).value <= 0x7fff_ffff
    ensures r.Some? ==> WordAt(params, offset as int) == Some(r.value as int)
    ensures OffsetAt(params, offset as int) == if r.Some? then Some(r.value as int) else None
  {
    var v := ReadUint256At(params, offset);
    if v.None? {
      return None;
    }
    if v.value > MAX_INT64 || v.value as Int64 > 0x7fff_ffff {
      return None;
    }
    r := Some(v.value as Int64);
  }

  method ReadDynamicBytesAt(params: Bytes, offset: Int64) returns (r: Option<Bytes>)
    requires |params| <= MAX_CALLDATA && offset as int <= MAX_INT64 - 32
    ensures r.Some? <==>
              var length := WordAt(params, offset as int);
              length.Some? && length.value <= 0x7fff_ffff && offset as int + 32 + length.value <= |params|
    ensures r.Some? ==>
              At(params, offset as int + 32, r.value) && WordAt(params, offset as int) == Some(|r.value|)
    ensures r == DynBytesAt(params, offset as int)
  {
    if offset < 0 || offset + 32 > |params| as Int64 {
      return None;
    }
    NumberAt(params, offset as int, params[offset..offset + 32], 32);
    var length := BigEndian(params[offset..offset + 32]);
    if length > MAX_INT64 || length as Int64 > 0x7fff_ffff {
      return None;
    }
    var dataStart := offset + 32;
    var dataEnd := dataStart + length as Int64;
    if dataEnd < dataStart || dataEnd > |params| as Int64 {
      return None;
    }
    r := Some(params[dataStart..dataEnd]);
  }

  method ReadDynamicBytes(params: Bytes, wordIdx: Int64) returns (r: Option<Bytes>)
    requires |params| <= MAX_CALLDATA && -0x400_0000_0000_0000 <= wordIdx <= 0x3ff_ffff_ffff_fffe
    ensures r == match OffsetAt(params, wordIdx as int * 32)
                 case None => None
                 case Some(off) => DynBytesAt(params, off)
  {
    var offset := ReadOffsetAt(params, wordIdx * 32);
    if offset.None? {
      return None;
    }
    r := ReadDynamicBytesAt(params, offset.value);
  }

  method ReadArrayLength(params: Bytes, offset: Int64) returns (r: Option<Int64>)
    requires |params| <= MAX_CALLDATA && offset as int <= MAX_INT64 - 32
    ensures r.Some? <==> WordAt(params, offset as int).Some? && WordAt(params, offset as int).value <= 10_000
    ensures r.Some? ==> WordAt(params, offset as int) == Some(r.value as int)
    ensures ArrayLengthAt(params, offset as int) == if r.Some? then Some(r.value as int) else None
  {
    if offset < 0 || offset + 32 > |params| as Int64 {
      return None;
    }
    NumberAt(params, offset as int, params[offset..offset + 32], 32);
    var n := BigEndian(params[offset..offset + 32]);
    if n > MAX_INT64 || n as Int64 > 10_000 {
      return None;
    }
    r := Some(n as Int64);
  }

  lemma LengthFits(params: Bytes, off: int)
    ensures ArrayLengthAt(params, off).Some? ==> 0 <= off && off + 32 <= |params|
  {
  }

  method ReadBytesArrayElements(params: Bytes, arrayOffset: Int64) returns (r: Option<seq<Bytes>>)
    requires |params| <= MAX_CALLDATA && arrayOffset as int <= MAX_INT64 - 32
    ensures r == BytesArrayAt(params, arrayOffset as int)
  {
    hide WordAt, DynBytesAt;
    var count := ReadArrayLength(params, arrayOffset);
    if count.None? {
      return None;
    }
    LengthFits(params, arrayOffset as int);
    var elemBase := arrayOffset + 32;
    var elements := [];
    ghost var f := (i: nat) => ElementAt(params, elemBase as int, i);
    for i: Int64 := 0 to count.value
      invariant Collect(f, i as nat) == Some(elements)
    {
      var ptrOffset := elemBase + i * 32;
      var relOffset := ReadOffsetAt(params, ptrOffset);
      if relOffset.None? {
        CollectFails(f, i as nat, count.value as nat);
        return None;
      }
      var data := ReadDynamicBytesAt(params, elemBase + relOffset.value);
      if data.None? {
        CollectFails(f, i as nat, count.value as nat);
        return None;
      }
      elements := elements + [data.value];
    }
    r := Some(elements);
  }
}
