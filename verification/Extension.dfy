/** Bytes appended to calldata never change a successful result of a decoder that knows the selector;
    the fallback decoder may only find more. */
module Extension {
  import opened Wrappers
  import opened Bytes
  import opened Types
  import opened Abi
  import opened Calldata
  import Leaves
  import Disperse
  import MultiSend
  import Heuristic

  /** `after` is the outcome `before`, unless that was a failure. */
  ghost predicate Kept<T>(before: Option<T>, after: Option<T>) {
    before.Some? ==> after == before
  }

  lemma ReadsKept(params: Bytes, off: int, junk: Bytes)
    ensures Kept(WordAt(params, off), WordAt(params + junk, off))
    ensures Kept(AddressAt(params, off), AddressAt(params + junk, off))
    ensures Kept(OffsetAt(params, off), OffsetAt(params + junk, off))
    ensures Kept(ArrayLengthAt(params, off), ArrayLengthAt(params + junk, off))
    ensures Kept(DynBytesAt(params, off), DynBytesAt(params + junk, off))
  {
    hide WordAt, AddressAt, DynBytesAt;
    WordExtended(params, off, junk);
    DynBytesExtended(params, off, junk);
  }

  lemma LeavesKept(leaf: Leaves.Leaf, sel: Selector, params: Bytes, junk: Bytes)
    ensures Kept(Leaves.Decode(leaf, sel, params), Leaves.Decode(leaf, sel, params + junk))
  {
    hide WordAt, AddressAt, Leaves.Claims;
    WordExtended(params, 0, junk);
    WordExtended(params, 32, junk);
    WordExtended(params, 64, junk);
    WordExtended(params, 96, junk);
  }

  lemma DisperseKept(params: Bytes, junk: Bytes)
    ensures Kept(Disperse.DecodeSpec(params), Disperse.DecodeSpec(params + junk))
  {
    hide WordAt, OffsetAt, Disperse.Payments;
    ReadsKept(params, 0, junk);
    ReadsKept(params, 32, junk);
    if OffsetAt(params, 0).Some? && OffsetAt(params, 32).Some? {
      PaymentsKept(params, OffsetAt(params, 0).value, OffsetAt(params, 32).value, junk);
    }
  }

  lemma PaymentsKept(params: Bytes, to: int, amount: int, junk: Bytes)
    ensures Kept(Disperse.Payments(params, to, amount), Disperse.Payments(params + junk, to, amount))
  {
    hide WordAt, AddressAt, ArrayLengthAt, DynBytesAt;
    ReadsKept(params, to, junk);
    ReadsKept(params, amount, junk);
    var n := ArrayLengthAt(params, to);
    if n.Some? {
      var f := (i: nat) => Disperse.PaymentAt(params, to, amount, i);
      var f' := (i: nat) => Disperse.PaymentAt(params + junk, to, amount, i);
      forall i: nat | f(i).Some?
        ensures f'(i) == f(i)
      {
        WordExtended(params, to + 32 + i * 32, junk);
        WordExtended(params, amount + 32 + i * 32, junk);
      }
      CollectSame(f, f', n.value);
    }
  }

  lemma MultiSendKept(params: Bytes, junk: Bytes)
    ensures Kept(MultiSend.DecodeSpec(params), MultiSend.DecodeSpec(params + junk))
  {
    hide WordAt, AddressAt, OffsetAt, ArrayLengthAt, DynBytesAt, MultiSend.Emitted;
    ReadsKept(params, 0, junk);
    if OffsetAt(params, 0).Some? {
      ReadsKept(params, OffsetAt(params, 0).value, junk);
    }
  }

  lemma StepKept(shape: Shape, params: Bytes, base: int, i: nat, junk: Bytes)
    ensures Kept(StepAt(shape, params, base, i), StepAt(shape, params + junk, base, i))
  {
    hide WordAt, AddressAt, OffsetAt, ArrayLengthAt, DynBytesAt;
    ReadsKept(params, base + i * 32, junk);
    var ptr := OffsetAt(params, base + i * 32);
    if ptr.Some? {
      var at := base + ptr.value;
      if shape.Payloads? {
        ReadsKept(params, at, junk);
      } else {
        TupleKept(shape, params, at, junk);
      }
    }
  }

  lemma TupleKept(shape: Shape, params: Bytes, base: int, junk: Bytes)
    requires !shape.Payloads?
    ensures Kept(TupleAt(shape, params, base), TupleAt(shape, params + junk, base))
  {
    hide WordAt, AddressAt, OffsetAt, ArrayLengthAt, DynBytesAt;
    ReadsKept(params, base, junk);
    ReadsKept(params, base + 64, junk);
    var w := if shape.Tuples? then shape.bytesWord else 3;
    ReadsKept(params, base + w * 32, junk);
    var rel := OffsetAt(params, base + w * 32);
    if rel.Some? {
      ReadsKept(params, base + rel.value, junk);
    }
  }

  lemma StepsKept(layout: Layout, params: Bytes, junk: Bytes)
    ensures Kept(Steps(layout, params), Steps(layout, params + junk))
  {
    hide WordAt, AddressAt, OffsetAt, ArrayLengthAt, DynBytesAt, StepAt;
    ReadsKept(params, layout.headWord * 32, junk);
    var off := OffsetAt(params, layout.headWord * 32);
    if off.Some? {
      ReadsKept(params, off.value, junk);
      var n := ArrayLengthAt(params, off.value);
      if n.Some? {
        var f := (i: nat) => StepAt(layout.shape, params, off.value + 32, i);
        var f' := (i: nat) => StepAt(layout.shape, params + junk, off.value + 32, i);
        forall i: nat | f(i).Some?
          ensures f'(i) == f(i)
        {
          StepKept(layout.shape, params, off.value + 32, i, junk);
        }
        CollectSame(f, f', n.value);
      }
    }
  }

  lemma {:induction false} CandidatesKept(params: Bytes, junk: Bytes, n: nat)
    requires n <= Heuristic.Windows(params) <= Heuristic.Windows(params + junk)
    ensures Heuristic.Candidates(params + junk, n) == Heuristic.Candidates(params, n)
  {
    hide Number, Heuristic.PlausibleAddress, Heuristic.PlausibleValue;
    if n > 0 {
      CandidatesKept(params, junk, n - 1);
      var i := 32 * (n - 1);
      assert At(params + junk, 0, params);
      NumberSub(params + junk, 0, params, i, i + 32);
      NumberSub(params + junk, 0, params, i + 32, i + 64);
      assert (params + junk)[i + 12..i + 32] == params[i + 12..i + 32];
    }
  }

  lemma {:induction false} AsTransfersPrefix(ps: seq<Heuristic.Pair>, n: nat)
    requires n <= |ps|
    ensures Heuristic.AsTransfers(ps[..n]) <= Heuristic.AsTransfers(ps)
  {
    if n < |ps| {
      AsTransfersPrefix(ps[..|ps| - 1], n);
      assert ps[..|ps| - 1][..n] == ps[..n];
    } else {
      assert ps[..n] == ps;
    }
  }

  lemma HeuristicGrows(params: Bytes, junk: Bytes)
    ensures Heuristic.DecodeSpec(params) <= Heuristic.DecodeSpec(params + junk)
  {
    hide Heuristic.Candidates, Heuristic.Dedup, Heuristic.AsTransfers;
    var m, n := Heuristic.Windows(params), Heuristic.Windows(params + junk);
    CandidatesKept(params, junk, m);
    Heuristic.DedupGrows(params + junk, m, n);
    var before, after := Heuristic.Guess(params), Heuristic.Guess(params + junk);
    assert after[..|before|] == before;
    AsTransfersPrefix(after, |before|);
  }

  /** Extension stability. For a selector claimed first by a decoder other than the fallback one,
      appended bytes keep every successful result; the fallback's results only grow at the end. */
  lemma ParseExtended<Id>(g: Graph<Id>, id: Id, raw: Bytes, junk: Bytes)
    requires |raw| >= 4 && Parse(g, id, raw).Some?
    ensures var c := FirstMatch(CodecsOf(g, id), SelectorFromBytes(raw));
            && c.Some?
            && Parse(g, id, raw + junk).Some?
            && (!c.value.Guessing? ==> Parse(g, id, raw + junk) == Parse(g, id, raw))
            && Parse(g, id, raw).value.transfers <= Parse(g, id, raw + junk).value.transfers
  {
    hide Decode, FirstMatch;
    ParseIs(g, id, raw);
    ParseIs(g, id, raw + junk);
    var sel := SelectorFromBytes(raw);
    assert SelectorFromBytes(raw + junk) == sel;
    assert (raw + junk)[4..] == raw[4..] + junk;
    DecodeExtended(g, FirstMatch(CodecsOf(g, id), sel).value, sel, raw[4..], junk);
  }

  lemma DecodeExtended<Id>(g: Graph<Id>, c: Codec<Id>, sel: Selector, params: Bytes, junk: Bytes)
    ensures !c.Guessing? ==> Kept(Decode(g, c, sel, params), Decode(g, c, sel, params + junk))
    ensures c.Guessing? ==>
              && Decode(g, c, sel, params).Some? && Decode(g, c, sel, params + junk).Some?
              && Decode(g, c, sel, params).value <= Decode(g, c, sel, params + junk).value
  {
    hide Leaves.Decode, Disperse.DecodeSpec, MultiSend.DecodeSpec, Heuristic.DecodeSpec, Batch, Steps, LayoutOf, Parts;
    match c
    case Simple(leaf) => LeavesKept(leaf, sel, params, junk);
    case DisperseEther => DisperseKept(params, junk);
    case GnosisMultiSend => MultiSendKept(params, junk);
    case Guessing => HeuristicGrows(params, junk);
    case _ =>
      WrapperExtended(g, c, sel, params, junk);
  }

  lemma WrapperExtended<Id>(g: Graph<Id>, c: Codec<Id>, sel: Selector, params: Bytes, junk: Bytes)
    requires c.Multicall? || c.Multicall3Value?
    ensures Kept(Decode(g, c, sel, params), Decode(g, c, sel, params + junk))
  {
    hide Decode, Steps, MulticallLayout, Multicall3Layout, Parts;
    if c.Multicall? && c.sub.None? {
      NotClaimed(g, c, sel, params);
    } else {
      WrapperIs(g, c, sel, params);
      WrapperIs(g, c, sel, params + junk);
      if LayoutOf(c, sel).Some? {
        StepsKept(LayoutOf(c, sel).value, params, junk);
      }
    }
  }
}
