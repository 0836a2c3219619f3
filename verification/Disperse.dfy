/** disperseEther(address[], uint256[]) (evm-lib/parser/codecs/disperse.go). */
module Disperse {
  import opened Wrappers
  import opened Bytes
  import opened Types
  import opened Abi
  import opened Encoding

  const SELECTOR := Selector(0xe6, 0x3d, 0x38, 0xed)

  /** Payment i of the arrays whose length words are at `to` and `amount`. */
  function PaymentAt(params: Bytes, to: int, amount: int, i: int): Option<Transfer> {
    var a, v := AddressAt(params, to + 32 + i * 32), WordAt(params, amount + 32 + i * 32);
    if a.None? || v.None? then None else Some(Move(a.value, v.value, Deterministic))
  }

  function Payments(params: Bytes, to: int, amount: int): Option<seq<Transfer>> {
    var m, n := ArrayLengthAt(params, to), ArrayLengthAt(params, amount);
    if m.None? || n.None? || m != n then None
    else Collect((i: nat) => PaymentAt(params, to, amount, i), m.value)
  }

  function DecodeSpec(params: Bytes): Option<seq<Transfer>> {
    var to, amount := OffsetAt(params, 0), OffsetAt(params, 32);
    if to.None? || amount.None? then None else Payments(params, to.value, amount.value)
  }

  method Decode(sel: Selector, params: Bytes) returns (r: ParsedInputData?)
    requires |params| <= MAX_CALLDATA
    ensures r != null ==> fresh(r)
    ensures Holds(r, if sel != SELECTOR then None else AsParsed(sel, DecodeSpec(params)))
  {
    hide WordAt, AddressAt, OffsetAt, ArrayLengthAt;
    if sel != SELECTOR {
      return null;
    }
    var recipientsOff := ReadOffsetAt(params, 0);
    if recipientsOff.None? {
      return null;
    }
    var valuesOff := ReadOffsetAt(params, 32);
    if valuesOff.None? {
      return null;
    }
    var recipientsLen := ReadArrayLength(params, recipientsOff.value);
    if recipientsLen.None? {
      return null;
    }
    var valuesLen := ReadArrayLength(params, valuesOff.value);
    if valuesLen.None? {
      return null;
    }
    if recipientsLen.value != valuesLen.value {
      return null;
    }
    r := Pay(sel, params, recipientsOff.value, valuesOff.value, recipientsLen.value);
  }

  /** The loop over both arrays. */
  method Pay(sel: Selector, params: Bytes, recipientsOff: Int64, valuesOff: Int64, count: Int64)
    returns (out: ParsedInputData?)
    requires |params| <= MAX_CALLDATA && 0 <= count <= 10_000
    requires 0 <= recipientsOff as int <= MAX_INT32 && 0 <= valuesOff as int <= MAX_INT32
    ensures out != null ==> fresh(out)
    ensures Holds(out, AsParsed(sel,
              Collect((i: nat) => PaymentAt(params, recipientsOff as int, valuesOff as int, i), count as nat)))
  {
    hide WordAt, AddressAt;
    var transfers: seq<Transfer> := [];
    ghost var f := (i: nat) => PaymentAt(params, recipientsOff as int, valuesOff as int, i);
    for i: Int64 := 0 to count
      invariant Collect(f, i as nat) == Some(transfers)
    {
      var addr := ReadAddressAt(params, recipientsOff + 32 + i * 32);
      if addr.None? {
        CollectFails(f, i as nat, count as nat);
        return null;
      }
      var val := ReadUint256At(params, valuesOff + 32 + i * 32);
      if val.None? {
        CollectFails(f, i as nat, count as nat);
        return null;
      }
      transfers := transfers + [Move(addr.value, val.value, Deterministic)];
    }
    out := new ParsedInputData(sel);
    out.transfers := transfers;
  }

  // ----- encoding and back -----

  ghost predicate Payable(to: seq<Address>, amounts: seq<nat>) {
    && IsWord(96 + 32 * |to|) && IsWord(|amounts|)
    && forall i :: 0 <= i < |amounts| ==> IsWord(amounts[i])
  }

  function AddressWords(to: seq<Address>): seq<Bytes> {
    seq(|to|, i requires 0 <= i < |to| => AddressWord(to[i]))
  }

  function AmountWords(amounts: seq<nat>): seq<Bytes> {
    seq(|amounts|, i requires 0 <= i < |amounts| => Word(amounts[i]))
  }

  function Encode(to: seq<Address>, amounts: seq<nat>): Bytes {
    Word(64) + (Word(96 + 32 * |to|) +
      (Word(|to|) + (Concat(AddressWords(to)) +
        (Word(|amounts|) + Concat(AmountWords(amounts))))))
  }

  function Zip(to: seq<Address>, amounts: seq<nat>): seq<Transfer>
    requires |to| == |amounts|
  {
    seq(|to|, i requires 0 <= i < |to| =>
      Transfer(ZERO_ADDRESS, to[i], Some(amounts[i]), Deterministic))
  }

  /** Where the offsets, lengths and arrays of the call lie in p. */
  ghost predicate LaidOut(p: Bytes, to: seq<Address>, amounts: seq<nat>) {
    var mid := 96 + 32 * |to|;
    && At(p, 0, Word(64)) && At(p, 32, Word(mid))
    && At(p, 64, Word(|to|)) && At(p, 96, Concat(AddressWords(to)))
    && At(p, mid, Word(|amounts|)) && At(p, mid + 32, Concat(AmountWords(amounts)))
  }

  lemma Layout(to: seq<Address>, amounts: seq<nat>)
    ensures LaidOut(Encode(to, amounts), to, amounts)
  {
    hide Word, At, AddressWords, AmountWords;
    var p := Encode(to, amounts);
    var e := Word(|amounts|) + Concat(AmountWords(amounts));
    var d := Concat(AddressWords(to)) + e;
    var c := Word(|to|) + d;
    var b := Word(96 + 32 * |to|) + c;
    AddressBlock(to);
    AtWhole(p);
    AtSplit(p, 0, Word(64), b);
    AtSplit(p, 32, Word(96 + 32 * |to|), c);
    AtSplit(p, 64, Word(|to|), d);
    AtSplit(p, 96, Concat(AddressWords(to)), e);
    AtSplit(p, 96 + 32 * |to|, Word(|amounts|), Concat(AmountWords(amounts)));
  }

  lemma AddressBlock(to: seq<Address>)
    ensures |Concat(AddressWords(to))| == 32 * |to|
  {
    ConcatUniform(AddressWords(to), 32);
  }

  /** Decoding the encoding of two arrays gives their payments in order, exactly when the arrays have
      the same length and at most 10 000 elements. */
  lemma RoundTrip(to: seq<Address>, amounts: seq<nat>)
    requires Payable(to, amounts)
    ensures DecodeSpec(Encode(to, amounts)) ==
            if |to| == |amounts| <= 10_000 then Some(Zip(to, amounts)) else None
  {
    hide Encode, WordAt, AddressAt, Pow256, At, Word, Collect;
    var p, mid := Encode(to, amounts), 96 + 32 * |to|;
    Layout(to, amounts);
    SmallIsWord(64);
    ReadWord(p, 0, 64);
    ReadWord(p, 32, mid);
    ReadWord(p, 64, |to|);
    ReadWord(p, mid, |amounts|);
    if |to| == |amounts| <= MAX_ARRAY {
      var f := (i: nat) => PaymentAt(p, 64, mid, i);
      forall i: nat | i < |to|
        ensures f(i) == Some(Zip(to, amounts)[i])
      {
        ReadPayment(to, amounts, i);
      }
      CollectIs(f, Zip(to, amounts));
    }
  }

  lemma ReadPayment(to: seq<Address>, amounts: seq<nat>, i: nat)
    requires Payable(to, amounts) && i < |to| == |amounts|
    ensures PaymentAt(Encode(to, amounts), 64, 96 + 32 * |to|, i) ==
            Some(Move(to[i], amounts[i], Deterministic))
  {
    hide Encode, WordAt, AddressAt, Pow256, At, Word;
    var p, mid := Encode(to, amounts), 96 + 32 * |to|;
    Layout(to, amounts);
    NthWord(p, 96, AddressWords(to), i);
    NthWord(p, mid + 32, AmountWords(amounts), i);
    ReadAddress(p, 96 + 32 * i, to[i]);
    ReadWord(p, mid + 32 + 32 * i, amounts[i]);
  }

  /** The reported ETH is the sum of the amounts. */
  lemma {:induction false} ZipConserves(to: seq<Address>, amounts: seq<nat>)
    requires |to| == |amounts|
    ensures Total(Zip(to, amounts)) == Sum(amounts)
  {
    var n := |to|;
    if n > 0 {
      ZipConserves(to[..n - 1], amounts[..n - 1]);
      assert Zip(to, amounts)[..n - 1] == Zip(to[..n - 1], amounts[..n - 1]);
    }
  }
}
