/** What a chain of decoders reports for calldata (evm-lib/parser/codecs/chain.go, multicall.go and
    multicall3.go). Wrapper decoders hold a sub-parser, which is again a chain, possibly the one that
    contains them; a graph maps every chain to its decoders. */
module Calldata {
  import opened Wrappers
  import opened Bytes
  import opened Types
  import opened Abi
  import Leaves
  import Disperse
  import MultiSend
  import Heuristic

  const MULTICALL_BYTES := Selector(0xac, 0x96, 0x50, 0xd8)
  const MULTICALL_DEADLINE := Selector(0x5a, 0xe4, 0x01, 0xdc)
  const MULTICALL_PREV_HASH := Selector(0x1f, 0x04, 0x64, 0xd1)
  const AGGREGATE3 := Selector(0x82, 0xad, 0x56, 0xcb)
  const TRY_AGGREGATE := Selector(0xbc, 0xe3, 0x8b, 0xd7)
  const AGGREGATE := Selector(0x25, 0x2d, 0xba, 0x42)
  const AGGREGATE3_VALUE := Selector(0x17, 0x4d, 0xea, 0x71)

  datatype Codec<Id> =
    | Simple(leaf: Leaves.Leaf)
    | DisperseEther
    | GnosisMultiSend
    | Guessing
    | Multicall(sub: Option<Id>)
    | Multicall3Value(sub: Option<Id>)

  type Graph<Id> = map<Id, seq<Codec<Id>>>

  function CodecsOf<Id(==)>(g: Graph<Id>, id: Id): seq<Codec<Id>> {
    if id in g then g[id] else []
  }

  /** How a batch call lays out its elements: bytes[], or tuples whose bytes field is a given word. */
  datatype Shape = Payloads | Tuples(bytesWord: nat) | ValueTuples

  /** The element shape of a batch selector and the head word holding the array offset. */
  datatype Layout = Layout(shape: Shape, headWord: nat)

  function MulticallLayout(sel: Selector): (r: Option<Layout>) {
    if sel == MULTICALL_BYTES then Some(Layout(Payloads, 0))
    else if sel == MULTICALL_DEADLINE || sel == MULTICALL_PREV_HASH then Some(Layout(Payloads, 1))
    else if sel == AGGREGATE3 then Some(Layout(Tuples(2), 0))
    else if sel == TRY_AGGREGATE then Some(Layout(Tuples(1), 1))
    else if sel == AGGREGATE then Some(Layout(Tuples(1), 0))
    else None
  }

  function Multicall3Layout(sel: Selector): (r: Option<Layout>) {
    if sel == AGGREGATE3_VALUE then Some(Layout(ValueTuples, 0)) else None
  }

  function LayoutOf<Id>(c: Codec<Id>, sel: Selector): Option<Layout> {
    match c
    case Multicall(_) => MulticallLayout(sel)
    case Multicall3Value(_) => Multicall3Layout(sel)
    case _ => None
  }

  predicate CanDecode<Id>(c: Codec<Id>, sel: Selector) {
    match c
    case Simple(leaf) => Leaves.Claims(leaf, sel)
    case DisperseEther => sel == Disperse.SELECTOR
    case GnosisMultiSend => sel == MultiSend.SELECTOR
    case Guessing => true
    case Multicall(_) => MulticallLayout(sel).Some?
    case Multicall3Value(_) => Multicall3Layout(sel).Some?
  }

  function FirstMatch<Id>(cs: seq<Codec<Id>>, sel: Selector): (r: Option<Codec<Id>>)
    ensures r.Some? ==> r.value in cs && CanDecode(r.value, sel)
    ensures r.None? ==> forall c :: c in cs ==> !CanDecode(c, sel)
  {
    if cs == [] then None
    else if CanDecode(cs[0], sel) then Some(cs[0])
    else FirstMatch(cs[1..], sel)
  }

  /** First-match dispatch: the chosen decoder claims the selector and no earlier one does. */
  lemma {:induction false} FirstMatchIs<Id>(cs: seq<Codec<Id>>, sel: Selector, c: Codec<Id>)
    ensures FirstMatch(cs, sel) == Some(c) <==>
            exists i :: 0 <= i < |cs| && cs[i] == c && CanDecode(c, sel)
                        && forall j :: 0 <= j < i ==> !CanDecode(cs[j], sel)
  {
    hide CanDecode;
    if cs != [] && !CanDecode(cs[0], sel) {
      FirstMatchIs(cs[1..], sel, c);
      if FirstMatch(cs, sel) == Some(c) {
        var i :| 0 <= i < |cs| - 1 && cs[1..][i] == c && forall j :: 0 <= j < i ==> !CanDecode(cs[1..][j], sel);
        forall j | 0 <= j < i + 1
          ensures !CanDecode(cs[j], sel)
        {
          assert j > 0 ==> cs[j] == cs[1..][j - 1];
        }
        assert cs[i + 1] == c;
      }
      if i: nat :| i < |cs| && cs[i] == c && CanDecode(c, sel) && forall j :: 0 <= j < i ==> !CanDecode(cs[j], sel) {
        assert cs[1..][i - 1] == c;
      }
    }
  }

  // ----- the elements of a batch -----

  /** One batch element: the transfer the element itself makes, and the calldata it wraps. */
  datatype Step = Step(emit: seq<Transfer>, data: Bytes)

  /** The bytes field of the tuple at `base` whose offset is the tuple's word w. */
  function TupleBytes(params: Bytes, base: int, w: nat): Option<Bytes> {
    match OffsetAt(params, base + w * 32)
    case None => None
    case Some(rel) => DynBytesAt(params, base + rel)
  }

  function TupleAt(shape: Shape, params: Bytes, base: int): Option<Step>
    requires !shape.Payloads?
  {
    match shape
    case Tuples(w) =>
      (match TupleBytes(params, base, w)
       case None => None
       case Some(data) => Some(Step([], data)))
    case ValueTuples =>
      var target, value, data := AddressAt(params, base), WordAt(params, base + 64), TupleBytes(params, base, 3);
      if target.None? || value.None? || data.None? then None
      else Some(Step(if value.value > 0 then [Move(target.value, value.value, Deterministic)] else [], data.value))
  }

  /** Element i of the array whose pointers start at `base`. */
  function StepAt(shape: Shape, params: Bytes, base: int, i: nat): Option<Step> {
    if shape.Payloads? then
      match ElementAt(params, base, i)
      case None => None
      case Some(data) => Some(Step([], data))
    else
      match OffsetAt(params, base + i * 32)
      case None => None
      case Some(rel) => TupleAt(shape, params, base + rel)
  }

  /** The elements of the array whose length word is at `off`. */
  function StepsAt(shape: Shape, params: Bytes, off: int): Option<seq<Step>> {
    match ArrayLengthAt(params, off)
    case None => None
    case Some(n) => Collect((i: nat) => StepAt(shape, params, off + 32, i), n)
  }

  function Steps(layout: Layout, params: Bytes): Option<seq<Step>> {
    match OffsetAt(params, layout.headWord * 32)
    case None => None
    case Some(off) => StepsAt(layout.shape, params, off)
  }

  /** The wrapped calldata lies in the parameters, at byte 64 or later. */
  ghost predicate Wrapped(params: Bytes, data: Bytes) {
    exists k :: 64 <= k && At(params, k, data)
  }

  lemma DynBytesWrapped(params: Bytes, off: int)
    requires off >= 32
    ensures DynBytesAt(params, off).Some? ==> Wrapped(params, DynBytesAt(params, off).value)
  {
    var r := DynBytesAt(params, off);
    if r.Some? {
      assert At(params, off + 32, r.value);
    }
  }

  lemma DynBytesShrink(params: Bytes, off: int)
    requires off >= 32
    ensures DynBytesAt(params, off).Some? ==> |DynBytesAt(params, off).value| + 64 <= |params|
  {
    hide OffsetAt;
  }

  lemma StepWrapped(shape: Shape, params: Bytes, base: int, i: nat)
    requires base >= 32
    ensures StepAt(shape, params, base, i).Some? ==> Wrapped(params, StepAt(shape, params, base, i).value.data)
  {
    hide DynBytesAt, WordAt, Wrapped, AddressAt;
    var ptr := OffsetAt(params, base + i * 32);
    if ptr.Some? {
      DynBytesWrapped(params, base + ptr.value);
      if !shape.Payloads? {
        var w := if shape.Tuples? then shape.bytesWord else 3;
        var rel := OffsetAt(params, base + ptr.value + w * 32);
        if rel.Some? {
          DynBytesWrapped(params, base + ptr.value + rel.value);
        }
      }
    }
  }

  /** Every payload handed to the sub-parser is at least 64 bytes shorter than the parameters, so at
      least 68 bytes shorter than the calldata with its selector. */
  ghost predicate Shrinks(params: Bytes, steps: seq<Step>) {
    forall i :: 0 <= i < |steps| ==> Wrapped(params, steps[i].data) && |steps[i].data| + 64 <= |params|
  }

  lemma StepsAtShrink(shape: Shape, params: Bytes, off: nat)
    ensures StepsAt(shape, params, off).Some? ==> Shrinks(params, StepsAt(shape, params, off).value)
  {
    hide WordAt, StepAt;
    var n := ArrayLengthAt(params, off);
    if n.Some? {
      var f := (i: nat) => StepAt(shape, params, off + 32, i);
      CollectMeans(f, n.value);
      forall i: nat | i < n.value
        ensures f(i).Some? ==> Wrapped(params, f(i).value.data)
      {
        StepWrapped(shape, params, off + 32, i);
      }
    }
  }

  lemma StepsShrink(layout: Layout, params: Bytes)
    ensures Steps(layout, params).Some? ==> Shrinks(params, Steps(layout, params).value)
  {
    hide WordAt, StepsAt, Shrinks;
    var off := OffsetAt(params, layout.headWord * 32);
    if off.Some? {
      StepsAtShrink(layout.shape, params, off.value);
    }
  }

  // ----- the decoders -----

  function Parse<Id(==)>(g: Graph<Id>, id: Id, raw: Bytes): Option<Parsed>
    decreases |raw| / 68, 2
  {
    if |raw| < 4 then None
    else
      var sel := SelectorFromBytes(raw);
      match FirstMatch(CodecsOf(g, id), sel)
      case None => None
      case Some(c) => AsParsed(sel, Decode(g, c, sel, raw[4..]))
  }

  function Decode<Id(==)>(g: Graph<Id>, c: Codec<Id>, sel: Selector, params: Bytes): Option<seq<Transfer>>
    decreases (|params| + 4) / 68, 1
  {
    match c
    case Simple(leaf) => Leaves.Decode(leaf, sel, params)
    case DisperseEther => if sel == Disperse.SELECTOR then Disperse.DecodeSpec(params) else None
    case GnosisMultiSend => if sel == MultiSend.SELECTOR then MultiSend.DecodeSpec(params) else None
    case Guessing => Some(Heuristic.DecodeSpec(params))
    case Multicall(sub) => if sub.None? then None else Batch(g, sub, MulticallLayout(sel), params)
    case Multicall3Value(sub) => Batch(g, sub, Multicall3Layout(sel), params)
  }

  /** A batch reports its elements in order; each reports its own transfer, then its inner ones. */
  function Batch<Id(==)>(g: Graph<Id>, sub: Option<Id>, layout: Option<Layout>, params: Bytes): Option<seq<Transfer>>
    decreases (|params| + 4) / 68, 0
  {
    if layout.None? then None
    else
      StepsShrink(layout.value, params);
      match Steps(layout.value, params)
      case None => None
      case Some(steps) =>
        Some(Concat(seq(|steps|, i requires 0 <= i < |steps| => steps[i].emit + Inner(g, sub, steps[i].data))))
  }

  /** A payload that is too short or does not parse contributes nothing. */
  function Inner<Id(==)>(g: Graph<Id>, sub: Option<Id>, data: Bytes): seq<Transfer>
    decreases |data| / 68, 3
  {
    if sub.None? || |data| < 4 then []
    else
      match Parse(g, sub.value, data)
      case None => []
      case Some(p) => p.transfers
  }

  lemma ParseIs<Id>(g: Graph<Id>, id: Id, raw: Bytes)
    requires |raw| >= 4
    ensures var sel := SelectorFromBytes(raw);
            Parse(g, id, raw) == match FirstMatch(CodecsOf(g, id), sel)
                                 case None => None
                                 case Some(c) => AsParsed(sel, Decode(g, c, sel, raw[4..]))
  {
    hide Decode, FirstMatch;
  }

  lemma FirstMatchStep<Id>(cs: seq<Codec<Id>>, sel: Selector, i: nat)
    requires i < |cs|
    ensures FirstMatch(cs[i..], sel) == if CanDecode(cs[i], sel) then Some(cs[i]) else FirstMatch(cs[i + 1..], sel)
  {
    assert cs[i..][1..] == cs[i + 1..];
  }

  /** What each element of a batch reports. */
  function Parts<Id(==)>(g: Graph<Id>, sub: Option<Id>, steps: seq<Step>): seq<seq<Transfer>> {
    seq(|steps|, i requires 0 <= i < |steps| => steps[i].emit + Inner(g, sub, steps[i].data))
  }

  function Reported<Id(==)>(g: Graph<Id>, sub: Option<Id>, steps: Option<seq<Step>>): Option<seq<Transfer>> {
    match steps
    case None => None
    case Some(ss) => Some(Concat(Parts(g, sub, ss)))
  }

  lemma PartsSnoc<Id>(g: Graph<Id>, sub: Option<Id>, steps: seq<Step>, s: Step)
    ensures Concat(Parts(g, sub, steps + [s])) == Concat(Parts(g, sub, steps)) + (s.emit + Inner(g, sub, s.data))
  {
    hide Inner;
    var parts := Parts(g, sub, steps + [s]);
    assert parts[..|steps|] == Parts(g, sub, steps);
  }

  lemma BatchIs<Id>(g: Graph<Id>, sub: Option<Id>, layout: Layout, params: Bytes)
    ensures Batch(g, sub, Some(layout), params) == Reported(g, sub, Steps(layout, params))
  {
    hide Inner, Steps;
    StepsShrink(layout, params);
    var r := Steps(layout, params);
    if r.Some? {
      var steps := r.value;
      assert seq(|steps|, i requires 0 <= i < |steps| => steps[i].emit + Inner(g, sub, steps[i].data))
        == Parts(g, sub, steps);
    }
  }

  /** A wrapper decoder with a sub-parser reports what its elements report. */
  lemma WrapperIs<Id>(g: Graph<Id>, c: Codec<Id>, sel: Selector, params: Bytes)
    requires (c.Multicall? && c.sub.Some?) || c.Multicall3Value?
    ensures Decode(g, c, sel, params) ==
            if LayoutOf(c, sel).None? then None else Reported(g, c.sub, Steps(LayoutOf(c, sel).value, params))
  {
    hide Batch, Reported, Steps, MulticallLayout, Multicall3Layout;
    if LayoutOf(c, sel).Some? {
      BatchIs(g, c.sub, LayoutOf(c, sel).value, params);
    } else {
      NoLayout(g, c.sub, params);
    }
  }

  lemma NotClaimed<Id>(g: Graph<Id>, c: Codec<Id>, sel: Selector, params: Bytes)
    requires c.Multicall? || c.Multicall3Value?
    requires LayoutOf(c, sel).None? || (c.Multicall? && c.sub.None?)
    ensures Decode(g, c, sel, params) == None
  {
  }

  lemma NoLayout<Id>(g: Graph<Id>, sub: Option<Id>, params: Bytes)
    ensures Batch(g, sub, None, params) == None
  {
  }
}
