/** How much a chain can report and how deep it can recurse. Batch pointers may alias the same payload
    any number of times, so the output is not linear in the calldata; it is still bounded. */
module OutputBound {
  import opened Wrappers
  import opened Bytes
  import opened Types
  import opened Abi
  import opened Calldata
  import opened Powers
  import Leaves
  import Disperse
  import MultiSend
  import Heuristic

  lemma {:induction false} Pow2Monotonic(m: nat, n: nat)
    requires m <= n
    ensures Pow2(m) <= Pow2(n)
  {
    if m < n {
      Pow2Monotonic(m, n - 1);
    }
  }

  /** 17 doublings, one for each 4 of the 68 bytes a level of nesting costs. */
  lemma Pow2Shift(m: nat)
    ensures Pow2(m + 17) == 131072 * Pow2(m)
  {
    Pow2Five(m);
    Pow2Five(m + 5);
    Pow2Five(m + 10);
  }

  lemma Pow2Five(m: nat)
    ensures Pow2(m + 5) == 32 * Pow2(m)
  {
    assert Pow2(m + 2) == 4 * Pow2(m);
    assert Pow2(m + 4) == 4 * Pow2(m + 2);
  }

  /** The bound for parameters that follow a selector. */
  function Cap(params: Bytes): nat {
    Pow2((|params| + 4) / 4)
  }

  lemma {:induction false} ConcatBounded<T>(parts: seq<seq<T>>, b: nat)
    requires forall i :: 0 <= i < |parts| ==> |parts[i]| <= b
    ensures |Concat(parts)| <= |parts| * b
  {
    if |parts| > 0 {
      ConcatBounded(parts[..|parts| - 1], b);
      assert |parts| * b == (|parts| - 1) * b + b;
    }
  }

  lemma DisperseBounded(params: Bytes)
    ensures Disperse.DecodeSpec(params).Some? ==> |Disperse.DecodeSpec(params).value| <= |params| / 4
  {
    hide Number;
    var to, amount := OffsetAt(params, 0), OffsetAt(params, 32);
    if to.Some? && amount.Some? && ArrayLengthAt(params, to.value).Some? {
      var n := ArrayLengthAt(params, to.value).value;
      var f := (i: nat) => Disperse.PaymentAt(params, to.value, amount.value, i);
      CollectMeans(f, n);
      if n > 0 && f(n - 1).Some? {
        assert AddressAt(params, to.value + 32 + (n - 1) * 32).Some?;
      }
    }
  }

  lemma {:induction false} TilesBounded(ts: seq<MultiSend.Tile>)
    requires forall t :: t in ts ==> |t.header| == 85
    ensures 85 * |MultiSend.Transfers(ts)| <= |MultiSend.Glue(ts)|
  {
    hide Number;
    if ts != [] {
      TilesBounded(ts[1..]);
      assert ts[0] in ts;
    }
  }

  lemma MultiSendBounded(params: Bytes)
    ensures MultiSend.DecodeSpec(params).Some? ==> |MultiSend.DecodeSpec(params).value| <= |params| / 4
  {
    hide WordAt, Number, MultiSend.Tiles, MultiSend.Transfers, MultiSend.Glue;
    var off := OffsetAt(params, 0);
    if off.Some? && DynBytesAt(params, off.value).Some? {
      var blob := DynBytesAt(params, off.value).value;
      if MultiSend.Tiles(blob).Some? {
        MultiSend.Tiling(blob, MultiSend.Tiles(blob).value);
        TilesBounded(MultiSend.Tiles(blob).value);
      }
    }
  }

  lemma {:induction false} DedupBounded(params: Bytes, n: nat)
    requires n <= Heuristic.Windows(params)
    ensures |Heuristic.Dedup(Heuristic.Candidates(params, n))| <= n
  {
    hide Heuristic.Candidates, Heuristic.Dedup, Heuristic.PairAt, Heuristic.AsTransfers;
    Heuristic.GuessShort(params);
    if n > 0 {
      DedupBounded(params, n - 1);
      Heuristic.Seen(params, n - 1);
    } else {
      NoCandidates(params);
    }
  }

  lemma NoCandidates(params: Bytes)
    ensures Heuristic.Dedup(Heuristic.Candidates(params, 0)) == []
  {
  }

  lemma HeuristicBounded(params: Bytes)
    ensures |Heuristic.DecodeSpec(params)| <= 64
    ensures |Heuristic.DecodeSpec(params)| <= |params| / 4
  {
    hide Heuristic.Candidates, Heuristic.Dedup;
    DedupBounded(params, Heuristic.Windows(params));
  }

  lemma StepsBounded(layout: Layout, params: Bytes)
    ensures Steps(layout, params).Some? ==>
              && |Steps(layout, params).value| <= MAX_ARRAY
              && forall i :: 0 <= i < |Steps(layout, params).value| ==> |Steps(layout, params).value[i].emit| <= 1
  {
    hide WordAt, StepAt;
    var off := OffsetAt(params, layout.headWord * 32);
    if off.Some? && ArrayLengthAt(params, off.value).Some? {
      var f := (i: nat) => StepAt(layout.shape, params, off.value + 32, i);
      CollectMeans(f, ArrayLengthAt(params, off.value).value);
      forall i: nat | f(i).Some?
        ensures |f(i).value.emit| <= 1
      {
        StepEmitsOnce(layout.shape, params, off.value + 32, i);
      }
    }
  }

  lemma StepEmitsOnce(shape: Shape, params: Bytes, base: int, i: nat)
    ensures StepAt(shape, params, base, i).Some? ==> |StepAt(shape, params, base, i).value.emit| <= 1
  {
    hide WordAt, AddressAt, DynBytesAt, ElementAt;
  }

  /** The output bound: at most 2^(|raw| / 4) transfers, for any graph and any calldata. */
  lemma {:induction false} ParseBounded<Id>(g: Graph<Id>, id: Id, raw: Bytes)
    ensures Parse(g, id, raw).Some? ==> |Parse(g, id, raw).value.transfers| <= Pow2(|raw| / 4)
    decreases |raw| / 68, 2
  {
    hide Decode, FirstMatch, Pow2;
    if |raw| >= 4 {
      ParseIs(g, id, raw);
      var sel := SelectorFromBytes(raw);
      var c := FirstMatch(CodecsOf(g, id), sel);
      if c.Some? {
        DecodeBounded(g, c.value, sel, raw[4..]);
      }
    }
  }

  lemma {:induction false} DecodeBounded<Id>(g: Graph<Id>, c: Codec<Id>, sel: Selector, params: Bytes)
    ensures Decode(g, c, sel, params).Some? ==> |Decode(g, c, sel, params).value| <= Cap(params)
    decreases (|params| + 4) / 68, 1
  {
    hide Leaves.Claims, WordAt, AddressAt, Disperse.DecodeSpec, MultiSend.DecodeSpec, Heuristic.DecodeSpec,
      Batch, Steps, Parts, Pow2, MulticallLayout, Multicall3Layout;
    match c
    case Simple(leaf) => AtLeastTwo((|params| + 4) / 4);
    case DisperseEther => DisperseBounded(params);
    case GnosisMultiSend => MultiSendBounded(params);
    case Guessing => HeuristicBounded(params);
    case _ => WrapperBounded(g, c, sel, params);
  }

  lemma AtLeastTwo(n: nat)
    requires n >= 1
    ensures Pow2(n) >= 2
  {
  }

  lemma {:induction false} WrapperBounded<Id>(g: Graph<Id>, c: Codec<Id>, sel: Selector, params: Bytes)
    requires c.Multicall? || c.Multicall3Value?
    ensures Decode(g, c, sel, params).Some? ==> |Decode(g, c, sel, params).value| <= Cap(params)
    decreases (|params| + 4) / 68, 0
  {
    hide Decode, Steps, MulticallLayout, Multicall3Layout, Parse, Pow2, Inner;
    if LayoutOf(c, sel).None? || (c.Multicall? && c.sub.None?) {
      NotClaimed(g, c, sel, params);
    } else {
      WrapperIs(g, c, sel, params);
      var steps := Steps(LayoutOf(c, sel).value, params);
      if steps.Some? && |steps.value| > 0 {
        StepsShrink(LayoutOf(c, sel).value, params);
        StepsBounded(LayoutOf(c, sel).value, params);
        var parts := Parts(g, c.sub, steps.value);
        var m := (|params| - 64) / 4;
        forall i | 0 <= i < |parts|
          ensures |parts[i]| <= 1 + Pow2(m)
        {
          InnerBounded(g, c.sub, steps.value[i].data);
          Pow2Monotonic(|steps.value[i].data| / 4, m);
        }
        ConcatBounded(parts, 1 + Pow2(m));
        Pow2Shift(m);
        Product(|parts|, Pow2(m));
        assert (|params| + 4) / 4 == m + 17;
      }
    }
  }

  lemma Product(n: nat, p: nat)
    requires n <= MAX_ARRAY && p >= 1
    ensures n * (1 + p) <= 131072 * p
  {
    assert n * (1 + p) <= MAX_ARRAY * (1 + p);
  }

  lemma {:induction false} InnerBounded<Id>(g: Graph<Id>, sub: Option<Id>, data: Bytes)
    ensures |Inner(g, sub, data)| <= Pow2(|data| / 4)
    decreases |data| / 68, 3
  {
    hide Parse, Pow2;
    if sub.Some? {
      ParseBounded(g, sub.value, data);
    }
  }

  // ----- nesting depth: a parser with a depth budget -----

  /** Chain.ParseBytes if it gave up, as on a failing payload, at nesting depth d. */
  function ParseTo<Id(==)>(g: Graph<Id>, id: Id, raw: Bytes, d: nat): Option<Parsed>
    decreases d, 0
  {
    if d == 0 || |raw| < 4 then None
    else
      var sel := SelectorFromBytes(raw);
      match FirstMatch(CodecsOf(g, id), sel)
      case None => None
      case Some(c) =>
        if (c.Multicall? && c.sub.Some?) || c.Multicall3Value?
        then AsParsed(sel, BatchTo(g, c, sel, raw[4..], d - 1))
        else AsParsed(sel, Decode(g, c, sel, raw[4..]))
  }

  function BatchTo<Id(==)>(g: Graph<Id>, c: Codec<Id>, sel: Selector, params: Bytes, d: nat): Option<seq<Transfer>>
    requires c.Multicall? || c.Multicall3Value?
    decreases d, 2
  {
    var layout := LayoutOf(c, sel);
    if layout.None? || Steps(layout.value, params).None? then None
    else
      var steps := Steps(layout.value, params).value;
      Some(Concat(seq(|steps|, i requires 0 <= i < |steps| => steps[i].emit + InnerTo(g, c.sub, steps[i].data, d))))
  }

  function InnerTo<Id(==)>(g: Graph<Id>, sub: Option<Id>, data: Bytes, d: nat): seq<Transfer>
    decreases d, 1
  {
    if sub.None? || ParseTo(g, sub.value, data, d).None? then [] else ParseTo(g, sub.value, data, d).value.transfers
  }

  lemma InnerIs<Id>(g: Graph<Id>, sub: Option<Id>, data: Bytes, d: nat)
    requires sub.Some? ==> ParseTo(g, sub.value, data, d) == Parse(g, sub.value, data)
    ensures InnerTo(g, sub, data, d) == Inner(g, sub, data)
  {
    hide ParseTo;
  }

  lemma {:induction false} BatchWithin<Id>(g: Graph<Id>, c: Codec<Id>, sel: Selector, params: Bytes, d: nat)
    requires c.Multicall? || c.Multicall3Value?
    requires (|params| + 4) / 68 <= d
    ensures BatchTo(g, c, sel, params, d) ==
            if LayoutOf(c, sel).None? then None else Reported(g, c.sub, Steps(LayoutOf(c, sel).value, params))
    decreases (|params| + 4) / 68, 0
  {
    hide ParseTo, Parse, Steps, LayoutOf, Inner, InnerTo;
    var layout := LayoutOf(c, sel);
    if layout.Some? && Steps(layout.value, params).Some? {
      var steps := Steps(layout.value, params).value;
      StepsShrink(layout.value, params);
      forall i | 0 <= i < |steps|
        ensures InnerTo(g, c.sub, steps[i].data, d) == Inner(g, c.sub, steps[i].data)
      {
        if c.sub.Some? {
          DepthSuffices(g, c.sub.value, steps[i].data, d);
        }
        InnerIs(g, c.sub, steps[i].data, d);
      }
      assert seq(|steps|, i requires 0 <= i < |steps| => steps[i].emit + InnerTo(g, c.sub, steps[i].data, d))
        == Parts(g, c.sub, steps);
    }
  }

  /** Recursion measure: no call nests deeper than |raw| / 68 + 1, since giving up there changes nothing, for any
      graph and any calldata. */
  lemma {:induction false} DepthSuffices<Id>(g: Graph<Id>, id: Id, raw: Bytes, d: nat)
    requires |raw| < 4 || |raw| / 68 + 1 <= d
    ensures ParseTo(g, id, raw, d) == Parse(g, id, raw)
    decreases |raw| / 68, 1
  {
    hide BatchTo, Decode, FirstMatch, LayoutOf, Steps, Reported;
    if |raw| >= 4 {
      var sel := SelectorFromBytes(raw);
      ParseIs(g, id, raw);
      var c := FirstMatch(CodecsOf(g, id), sel);
      if c.Some? && ((c.value.Multicall? && c.value.sub.Some?) || c.value.Multicall3Value?) {
        WrapperIs(g, c.value, sel, raw[4..]);
        BatchWithin(g, c.value, sel, raw[4..], d - 1);
      }
    }
  }
}
