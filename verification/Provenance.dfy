/** Where reported transfers come from: nothing is invented. Every amount is a 32-byte stretch of the
    original calldata read big-endian, every recipient is zero or a 20-byte stretch of it, through any
    nesting of batches and for any graph of chains. */
module Provenance {
  import opened Wrappers
  import opened Bytes
  import opened Types
  import opened Abi
  import opened Calldata
  import Leaves
  import Disperse
  import MultiSend
  import Heuristic

  /** v is the big-endian reading of 32 contiguous bytes of raw. */
  ghost predicate Spelled(raw: Bytes, v: nat) {
    exists k :: WordAt(raw, k) == Some(v)
  }

  ghost predicate Sourced(raw: Bytes, t: Transfer) {
    && t.from == ZERO_ADDRESS
    && (t.value.Some? ==> Spelled(raw, t.value.value))
    && (t.to == ZERO_ADDRESS || Inside(raw, t.to))
    && (t.confidence == Deterministic ==> t.value.Some? && Inside(raw, t.to))
  }

  ghost predicate AllSourced(raw: Bytes, ts: seq<Transfer>) {
    forall i :: 0 <= i < |ts| ==> Sourced(raw, ts[i])
  }

  lemma WordInside(s: Bytes, off: int, part: Bytes, k: int)
    requires At(s, off, part) && WordAt(part, k).Some?
    ensures WordAt(s, off + k) == WordAt(part, k)
  {
    NumberSub(s, off, part, k, k + 32);
  }

  /** What is sourced in a part is sourced in the whole. */
  lemma SourcedInside(s: Bytes, part: Bytes, ts: seq<Transfer>)
    requires Inside(s, part) && AllSourced(part, ts)
    ensures AllSourced(s, ts)
  {
    hide WordAt, At;
    var off :| At(s, off, part);
    forall i | 0 <= i < |ts|
      ensures Sourced(s, ts[i])
    {
      var t := ts[i];
      assert Sourced(part, t);
      if t.value.Some? {
        var k :| WordAt(part, k) == Some(t.value.value);
        WordInside(s, off, part, k);
      }
      if Inside(part, t.to) {
        var k :| At(part, k, t.to);
        AtNested(s, off, part, k, t.to);
      }
    }
  }

  lemma {:induction false} ConcatSourced(raw: Bytes, parts: seq<seq<Transfer>>)
    requires forall i :: 0 <= i < |parts| ==> AllSourced(raw, parts[i])
    ensures AllSourced(raw, Concat(parts))
  {
    if |parts| > 0 {
      ConcatSourced(raw, parts[..|parts| - 1]);
      assert AllSourced(raw, parts[|parts| - 1]);
    }
  }

  lemma AddressInside(raw: Bytes, off: int)
    ensures AddressAt(raw, off).Some? ==> Inside(raw, AddressAt(raw, off).value)
  {
    if AddressAt(raw, off).Some? {
      assert At(raw, off + 12, AddressAt(raw, off).value);
    }
  }

  lemma OneSourced(raw: Bytes, a: int, v: int, c: Confidence)
    requires AddressAt(raw, a).Some? && WordAt(raw, v).Some?
    ensures Sourced(raw, Move(AddressAt(raw, a).value, WordAt(raw, v).value, c))
  {
    hide WordAt, AddressAt;
    AddressInside(raw, a);
  }

  lemma LeavesSourced(leaf: Leaves.Leaf, sel: Selector, params: Bytes)
    ensures Leaves.Decode(leaf, sel, params).Some? ==>
              AllSourced(params, Leaves.Decode(leaf, sel, params).value)
  {
    hide WordAt, AddressAt, Inside, Leaves.Claims;
    AddressInside(params, 0);
    AddressInside(params, 32);
    AddressInside(params, 64);
    AddressInside(params, 96);
  }

  lemma DisperseSourced(params: Bytes)
    ensures Disperse.DecodeSpec(params).Some? ==> AllSourced(params, Disperse.DecodeSpec(params).value)
  {
    hide WordAt, AddressAt;
    var to, amount := OffsetAt(params, 0), OffsetAt(params, 32);
    if to.Some? && amount.Some? && ArrayLengthAt(params, to.value).Some? {
      var f := (i: nat) => Disperse.PaymentAt(params, to.value, amount.value, i);
      CollectMeans(f, ArrayLengthAt(params, to.value).value);
      forall i: nat | f(i).Some?
        ensures Sourced(params, f(i).value)
      {
        OneSourced(params, to.value + 32 + i * 32, amount.value + 32 + i * 32, Deterministic);
      }
    }
  }

  lemma {:induction false} TilesSourced(blob: Bytes)
    ensures MultiSend.Tiles(blob).Some? ==> AllSourced(blob, MultiSend.Transfers(MultiSend.Tiles(blob).value))
    decreases |blob|
  {
    if blob != [] && MultiSend.Head(blob).Some? {
      var t := MultiSend.Head(blob).value;
      var n := 85 + |t.data|;
      var rest := blob[n..];
      TilesSourced(rest);
      if MultiSend.Tiles(rest).Some? {
        var ts := MultiSend.Tiles(rest).value;
        assert ([t] + ts)[1..] == ts;
        assert At(blob, n, rest);
        SourcedInside(blob, rest, MultiSend.Transfers(ts));
        TileSourced(blob, t);
      }
    }
  }

  lemma TileSourced(blob: Bytes, t: MultiSend.Tile)
    requires MultiSend.Head(blob) == Some(t)
    ensures AllSourced(blob, MultiSend.TileTransfers(t))
  {
    hide Number;
    assert At(blob, 0, t.header);
    assert At(t.header, 1, t.header[1..21]);
    AtNested(blob, 0, t.header, 1, t.header[1..21]);
    assert WordAt(t.header, 21) == Some(Number(t.header, 21, 53));
    WordInside(blob, 0, t.header, 21);
  }

  lemma MultiSendSourced(params: Bytes)
    ensures MultiSend.DecodeSpec(params).Some? ==> AllSourced(params, MultiSend.DecodeSpec(params).value)
  {
    hide WordAt, MultiSend.Tiles, AllSourced;
    var off := OffsetAt(params, 0);
    if off.Some? && DynBytesAt(params, off.value).Some? {
      var blob := DynBytesAt(params, off.value).value;
      TilesSourced(blob);
      assert At(params, off.value + 32, blob);
      if MultiSend.Tiles(blob).Some? {
        SourcedInside(params, blob, MultiSend.Transfers(MultiSend.Tiles(blob).value));
      }
    }
  }

  ghost predicate PairSourced(params: Bytes, p: Heuristic.Pair) {
    Spelled(params, p.value) && Inside(params, p.to)
  }

  lemma {:induction false} CandidatesSourced(params: Bytes, n: nat)
    requires n <= Heuristic.Windows(params)
    ensures forall p :: p in Heuristic.Candidates(params, n) ==> PairSourced(params, p)
  {
    hide Number, Heuristic.PlausibleAddress, Heuristic.PlausibleValue;
    if n > 0 {
      CandidatesSourced(params, n - 1);
      var i := 32 * (n - 1);
      assert At(params, i + 12, params[i + 12..i + 32]);
      assert WordAt(params, i + 32) == Some(Number(params, i + 32, i + 64));
    }
  }

  lemma {:induction false} AsTransfersSourced(params: Bytes, ps: seq<Heuristic.Pair>)
    requires forall i :: 0 <= i < |ps| ==> PairSourced(params, ps[i])
    ensures AllSourced(params, Heuristic.AsTransfers(ps))
  {
    hide WordAt, At;
    if |ps| > 0 {
      AsTransfersSourced(params, ps[..|ps| - 1]);
      assert PairSourced(params, ps[|ps| - 1]);
    }
  }

  lemma HeuristicSourced(params: Bytes)
    ensures AllSourced(params, Heuristic.DecodeSpec(params))
  {
    hide Heuristic.Candidates, Heuristic.Dedup, PairSourced, AllSourced;
    var cs := Heuristic.Candidates(params, Heuristic.Windows(params));
    CandidatesSourced(params, Heuristic.Windows(params));
    Heuristic.DedupMeans(cs);
    var guess := Heuristic.Guess(params);
    forall i | 0 <= i < |guess|
      ensures PairSourced(params, guess[i])
    {
      assert guess[i] in Heuristic.Dedup(cs);
    }
    AsTransfersSourced(params, guess);
  }

  lemma StepSourced(shape: Shape, params: Bytes, base: int, i: nat)
    ensures StepAt(shape, params, base, i).Some? ==> AllSourced(params, StepAt(shape, params, base, i).value.emit)
  {
    hide WordAt, AddressAt, DynBytesAt, Sourced;
    var ptr := OffsetAt(params, base + i * 32);
    if ptr.Some? && shape.ValueTuples? {
      var sb := base + ptr.value;
      if AddressAt(params, sb).Some? && WordAt(params, sb + 64).Some? {
        OneSourced(params, sb, sb + 64, Deterministic);
      }
    }
  }

  lemma StepsSourced(layout: Layout, params: Bytes)
    ensures Steps(layout, params).Some? ==>
              forall i :: 0 <= i < |Steps(layout, params).value| ==>
                AllSourced(params, Steps(layout, params).value[i].emit)
  {
    hide WordAt, StepAt, AllSourced;
    var off := OffsetAt(params, layout.headWord * 32);
    if off.Some? && ArrayLengthAt(params, off.value).Some? {
      var f := (i: nat) => StepAt(layout.shape, params, off.value + 32, i);
      CollectMeans(f, ArrayLengthAt(params, off.value).value);
      forall i: nat | f(i).Some?
        ensures AllSourced(params, f(i).value.emit)
      {
        StepSourced(layout.shape, params, off.value + 32, i);
      }
    }
  }

  /** Provenance through all nesting: for any graph of chains and any calldata. */
  lemma {:induction false} ParseSourced<Id>(g: Graph<Id>, id: Id, raw: Bytes)
    ensures Parse(g, id, raw).Some? ==> AllSourced(raw, Parse(g, id, raw).value.transfers)
    decreases |raw| / 68, 2
  {
    hide Decode, AllSourced, FirstMatch;
    if |raw| >= 4 {
      ParseIs(g, id, raw);
      var sel := SelectorFromBytes(raw);
      var c := FirstMatch(CodecsOf(g, id), sel);
      if c.Some? {
        DecodeSourced(g, c.value, sel, raw[4..]);
        assert At(raw, 4, raw[4..]);
        if Decode(g, c.value, sel, raw[4..]).Some? {
          SourcedInside(raw, raw[4..], Decode(g, c.value, sel, raw[4..]).value);
        }
      }
    }
  }

  lemma {:induction false} DecodeSourced<Id>(g: Graph<Id>, c: Codec<Id>, sel: Selector, params: Bytes)
    ensures Decode(g, c, sel, params).Some? ==> AllSourced(params, Decode(g, c, sel, params).value)
    decreases (|params| + 4) / 68, 1
  {
    hide AllSourced, Leaves.Decode, Disperse.DecodeSpec, MultiSend.DecodeSpec, Heuristic.DecodeSpec, Batch, Steps,
      LayoutOf;
    match c
    case Simple(leaf) => LeavesSourced(leaf, sel, params);
    case DisperseEther => DisperseSourced(params);
    case GnosisMultiSend => MultiSendSourced(params);
    case Guessing => HeuristicSourced(params);
    case Multicall(sub) =>
      if sub.Some? && LayoutOf(c, sel).Some? {
        WrapperIs(g, c, sel, params);
        BatchSourced(g, sub, LayoutOf(c, sel).value, params);
      } else {
        NotClaimed(g, c, sel, params);
      }
    case Multicall3Value(sub) =>
      if LayoutOf(c, sel).Some? {
        WrapperIs(g, c, sel, params);
        BatchSourced(g, sub, LayoutOf(c, sel).value, params);
      } else {
        NotClaimed(g, c, sel, params);
      }
  }

  lemma {:induction false} BatchSourced<Id>(g: Graph<Id>, sub: Option<Id>, layout: Layout, params: Bytes)
    ensures Reported(g, sub, Steps(layout, params)).Some? ==>
              AllSourced(params, Reported(g, sub, Steps(layout, params)).value)
    decreases (|params| + 4) / 68, 0
  {
    hide Sourced, Steps, Inner;
    var r := Steps(layout, params);
    if r.Some? {
      StepsShrink(layout, params);
      StepsSourced(layout, params);
      var parts := Parts(g, sub, r.value);
      forall i | 0 <= i < |parts|
        ensures AllSourced(params, parts[i])
      {
        var step := r.value[i];
        InnerSourced(g, sub, step.data);
        var k :| 64 <= k && At(params, k, step.data);
        SourcedInside(params, step.data, Inner(g, sub, step.data));
        assert AllSourced(params, step.emit);
      }
      ConcatSourced(params, parts);
    }
  }

  lemma {:induction false} InnerSourced<Id>(g: Graph<Id>, sub: Option<Id>, data: Bytes)
    ensures AllSourced(data, Inner(g, sub, data))
    decreases |data| / 68, 3
  {
    hide Parse, Sourced;
    if sub.Some? {
      ParseSourced(g, sub.value, data);
    }
  }
}
