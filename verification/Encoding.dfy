/** The encoding side of the Solidity Contract ABI Specification ("Formal Specification of the
    Encoding"), as far as the codecs read it back. */
module Encoding {
  import opened Wrappers
  import opened Bytes
  import opened Types
  import opened Abi

  ghost predicate IsWord(v: int) {
    0 <= v < Pow256(32)
  }

  /** A uint256 word; numbers that are not words wrap around. */
  function Word(v: nat): (w: Bytes)
    ensures |w| == 32
  {
    ToBytes(v, 32)
  }

  function AddressWord(a: Address): (w: Bytes)
    ensures |w| == 32
  {
    Zeros(12) + a
  }

  function Flag(b: bool): nat {
    if b then 1 else 0
  }

  lemma SmallIsWord(v: int)
    requires 0 <= v <= 0xffff_ffff
    ensures IsWord(v)
  {
    assert Pow256(4) == 0x1_0000_0000;
    Pow256Monotonic(4, 32);
  }

  /** Zero bytes up to a multiple of 32. */
  function Padding(n: nat): (z: Bytes)
    ensures (n + |z|) % 32 == 0 && |z| < 32
  {
    Zeros((32 - n % 32) % 32)
  }

  /** bytes: the length, the data, the padding. */
  function DynBytes(data: Bytes): (b: Bytes) {
    Word(|data|) + data + Padding(|data|)
  }

  // ----- reading back -----

  lemma ReadWord(params: Bytes, off: int, v: nat)
    requires IsWord(v) && At(params, off, Word(v))
    ensures WordAt(params, off) == Some(v)
  {
    hide ToBytes, Pow256, Number;
    ReadBack(v, 32);
    NumberAt(params, off, Word(v), 32);
  }

  lemma ReadAddress(params: Bytes, off: int, a: Address)
    requires At(params, off, AddressWord(a))
    ensures AddressAt(params, off) == Some(a)
  {
    hide Number;
    assert At(AddressWord(a), 12, a);
    AtNested(params, off, AddressWord(a), 12, a);
  }

  /** A bytes field that lies in the parameters is read back, or rejected for its length alone. */
  lemma ReadDynBytes(params: Bytes, off: int, data: Bytes)
    requires IsWord(|data|) && At(params, off, DynBytes(data))
    ensures DynBytesAt(params, off) == if |data| <= 0x7fff_ffff then Some(data) else None
  {
    hide Number, WordAt, Word, Pow256;
    AtSplit(params, off, Word(|data|) + data, Padding(|data|));
    AtSplit(params, off, Word(|data|), data);
    ReadWord(params, off, |data|);
  }

  /** Part k of a run of 32-byte words. */
  lemma NthWord(params: Bytes, off: int, parts: seq<Bytes>, k: nat)
    requires forall i :: 0 <= i < |parts| ==> |parts[i]| == 32
    requires k < |parts| && At(params, off, Concat(parts))
    ensures At(params, off + 32 * k, parts[k])
  {
    hide At;
    ConcatAt(parts, k);
    ConcatUniform(parts[..k], 32);
    AtNested(params, off, Concat(parts), 32 * k, parts[k]);
  }

  // ----- arrays of dynamic elements: length, pointers, elements -----

  /** Where element k starts, relative to the first pointer. */
  function Pointer(elements: seq<Bytes>, k: nat): nat
    requires k <= |elements|
  {
    32 * |elements| + |Concat(elements[..k])|
  }

  function Pointers(elements: seq<Bytes>): (ws: seq<Bytes>)
    ensures |ws| == |elements| && forall i :: 0 <= i < |ws| ==> |ws[i]| == 32
  {
    seq(|elements|, i requires 0 <= i < |elements| => Word(Pointer(elements, i)))
  }

  function DynArray(elements: seq<Bytes>): Bytes {
    Word(|elements|) + (Concat(Pointers(elements)) + Concat(elements))
  }

  lemma {:induction false} PrefixLength(parts: seq<Bytes>, k: nat)
    requires k < |parts|
    ensures |Concat(parts[..k])| + |parts[k]| <= |Concat(parts)|
  {
    hide At;
    ConcatAt(parts, k);
    AtFits(Concat(parts), |Concat(parts[..k])|, parts[k]);
  }

  lemma AtFits(s: Bytes, off: int, chunk: Bytes)
    requires At(s, off, chunk)
    ensures 0 <= off && off + |chunk| <= |s|
  {
  }

  /** The array's length, and where pointer k and element k lie. */
  lemma ArrayLayout(params: Bytes, off: int, elements: seq<Bytes>, k: nat)
    requires At(params, off, DynArray(elements)) && k < |elements|
    ensures At(params, off, Word(|elements|))
    ensures At(params, off + 32 + 32 * k, Word(Pointer(elements, k)))
    ensures At(params, off + 32 + Pointer(elements, k), elements[k])
    ensures Pointer(elements, k) + |elements[k]| + 32 <= |DynArray(elements)|
  {
    hide At, Word;
    var ws := Pointers(elements);
    ConcatUniform(ws, 32);
    AtSplit(params, off, Word(|elements|), Concat(ws) + Concat(elements));
    AtSplit(params, off + 32, Concat(ws), Concat(elements));
    NthWord(params, off + 32, ws, k);
    ConcatAt(elements, k);
    PrefixLength(elements, k);
    AtNested(params, off + 32 + 32 * |elements|, Concat(elements), |Concat(elements[..k])|, elements[k]);
  }

  lemma ArrayLength(params: Bytes, off: int, elements: seq<Bytes>)
    requires At(params, off, DynArray(elements))
    ensures At(params, off, Word(|elements|))
    ensures 32 * |elements| + 32 <= |DynArray(elements)|
  {
    hide At, Word;
    ConcatUniform(Pointers(elements), 32);
    AtSplit(params, off, Word(|elements|), Concat(Pointers(elements)) + Concat(elements));
  }
}
