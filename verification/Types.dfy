/** The values the codecs exchange (evm-lib/parser/types/types.go) and Go's machine integers. */
module Types {
  import opened Wrappers
  import opened Bytes

  /** Go's `int` on a 64-bit platform: Dafny checks that no expression of this type leaves its range. */
  newtype Int64 = x: int | -0x8000_0000_0000_0000 <= x < 0x8000_0000_0000_0000

  newtype UInt64 = x: int | 0 <= x < 0x1_0000_0000_0000_0000

  /** binary.BigEndian.Uint64 */
  function Uint64(b: Bytes): (v: UInt64)
    requires |b| == 8
    ensures v as int == BigEndian(b)
  {
    assert Pow256(8) == 0x1_0000_0000_0000_0000;
    BigEndian(b) as UInt64
  }

  const MAX_INT64: int := 0x7fff_ffff_ffff_ffff
  const MAX_INT32: int := 0x7fff_ffff

  /** The longest calldata the index arithmetic is proved for: every index stays below its length
      plus 2^32. It is far beyond any slice a 64-bit address space can hold. */
  const MAX_CALLDATA: int := MAX_INT64 - 0x1_0000_0000

  datatype Confidence = Deterministic | Likely | Possible

  const ZERO_ADDRESS: Bytes := [0, 0, 0, 0, 0, 0, 0, 0, 0, 0, 0, 0, 0, 0, 0, 0, 0, 0, 0, 0]

  type Address = a: Bytes | |a| == 20 witness ZERO_ADDRESS

  datatype Selector = Selector(b0: byte, b1: byte, b2: byte, b3: byte)

  function SelectorFromBytes(b: Bytes): Selector
    requires |b| >= 4
  {
    Selector(b[0], b[1], b[2], b[3])
  }

  /** `from` is never set by a codec; a missing `value` is Go's nil `*big.Int`. */
  datatype Transfer = Transfer(from: Address, to: Address, value: Option<nat>, confidence: Confidence)

  function Move(to: Address, value: nat, confidence: Confidence): Transfer {
    Transfer(ZERO_ADDRESS, to, Some(value), confidence)
  }

  datatype Parsed = Parsed(selector: Selector, transfers: seq<Transfer>)

  function AsParsed(sel: Selector, ts: Option<seq<Transfer>>): Option<Parsed> {
    if ts.Some? then Some(Parsed(sel, ts.value)) else None
  }

  /** The result object the wrapper decoders grow through a pointer. */
  class ParsedInputData {
    const selector: Selector
    var transfers: seq<Transfer>

    constructor (selector: Selector)
      ensures this.selector == selector && transfers == []
    {
      this.selector := selector;
      transfers := [];
    }

    function View(): Parsed
      reads this
    {
      Parsed(selector, transfers)
    }
  }

  /** A returned pointer, nil on error, holds exactly the specified outcome. */
  ghost predicate Holds(r: ParsedInputData?, spec: Option<Parsed>)
    reads r
  {
    if r == null then spec.None? else spec == Some(r.View())
  }

  /** The ETH a list of transfers reports; a nil value counts as nothing. */
  function Total(ts: seq<Transfer>): nat {
    if |ts| == 0 then 0 else Total(ts[..|ts| - 1]) + Amount(ts[|ts| - 1])
  }

  function Amount(t: Transfer): nat {
    if t.value.Some? then t.value.value else 0
  }

  lemma {:induction false} TotalConcat(a: seq<Transfer>, b: seq<Transfer>)
    ensures Total(a + b) == Total(a) + Total(b)
  {
    if |b| == 0 {
      assert a + b == a;
    } else {
      TotalConcat(a, b[..|b| - 1]);
      assert (a + b)[..|a + b| - 1] == a + b[..|b| - 1];
    }
  }

  function Sum(amounts: seq<nat>): nat {
    if |amounts| == 0 then 0 else Sum(amounts[..|amounts| - 1]) + amounts[|amounts| - 1]
  }
}
