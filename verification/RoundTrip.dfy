/** Encoding whole trees of batch calls, and decoding them back: all seven batch functions of the
    Uniswap routers and Multicall3, nested to any depth. */
module RoundTrip {
  import opened Wrappers
  import opened Bytes
  import opened Types
  import opened Abi
  import opened Encoding
  import opened Calldata

  datatype Kind =
    | BytesBatch
    | DeadlineBatch(deadline: nat)
    | PrevHashBatch(hash: nat)
    | Aggregate3
    | TryAggregate(requireSuccess: bool)
    | Aggregate
    | Aggregate3Value

  /** Calldata as its author sees it: a call of its own, or a batch of calls. */
  datatype Tree = Leaf(raw: Bytes) | Node(kind: Kind, calls: seq<Call>)

  /** One element of a batch; bytes[] batches use only `inner`, and only aggregate3Value uses `value`. */
  datatype Call = Call(target: Address, allowFailure: bool, value: nat, inner: Tree)

  function SelectorOf(kind: Kind): Selector {
    match kind
    case BytesBatch => Selector(0xac, 0x96, 0x50, 0xd8)
    case DeadlineBatch(_) => Selector(0x5a, 0xe4, 0x01, 0xdc)
    case PrevHashBatch(_) => Selector(0x1f, 0x04, 0x64, 0xd1)
    case Aggregate3 => Selector(0x82, 0xad, 0x56, 0xcb)
    case TryAggregate(_) => Selector(0xbc, 0xe3, 0x8b, 0xd7)
    case Aggregate => Selector(0x25, 0x2d, 0xba, 0x42)
    case Aggregate3Value => Selector(0x17, 0x4d, 0xea, 0x71)
  }

  function SelectorBytes(s: Selector): Bytes {
    [s.b0, s.b1, s.b2, s.b3]
  }

  // ----- the encoding, function by function -----

  /** The word some functions take before the array. */
  function Leading(kind: Kind): (w: Bytes) {
    match kind
    case DeadlineBatch(d) => Word(d)
    case PrevHashBatch(h) => Word(h)
    case TryAggregate(b) => Word(Flag(b))
    case _ => []
  }

  /** The head words before the array: the leading word, if any, then the array's offset. */
  function Head(kind: Kind): Bytes {
    Leading(kind) + Word(32 + |Leading(kind)|)
  }

  /** One array element; its bytes field holds the encoded inner call. */
  function Element(kind: Kind, c: Call, data: Bytes): Bytes {
    match kind
    case Aggregate3 => AddressWord(c.target) + (Word(Flag(c.allowFailure)) + (Word(96) + DynBytes(data)))
    case TryAggregate(_) => AddressWord(c.target) + (Word(64) + DynBytes(data))
    case Aggregate => AddressWord(c.target) + (Word(64) + DynBytes(data))
    case Aggregate3Value =>
      AddressWord(c.target) + (Word(Flag(c.allowFailure)) + (Word(c.value) + (Word(128) + DynBytes(data))))
    case _ => DynBytes(data)
  }

  function Encode(t: Tree): Bytes {
    match t
    case Leaf(raw) => raw
    case Node(kind, calls) =>
      var elements := seq(|calls|, i requires 0 <= i < |calls| => Element(kind, calls[i], Encode(calls[i].inner)));
      SelectorBytes(SelectorOf(kind)) + (Head(kind) + DynArray(elements))
  }

  function Elements(kind: Kind, calls: seq<Call>): (es: seq<Bytes>)
    ensures |es| == |calls|
  {
    seq(|calls|, i requires 0 <= i < |calls| => Element(kind, calls[i], Encode(calls[i].inner)))
  }

  /** Every number the encoding writes is a uint256. */
  ghost predicate Encodable(t: Tree) {
    && IsWord(|Encode(t)|)
    && (t.Node? ==> forall i :: 0 <= i < |t.calls| ==>
          Encodable(t.calls[i].inner) && (t.kind.Aggregate3Value? ==> IsWord(t.calls[i].value)))
  }

  // ----- what a tree means -----

  predicate IsBatch(sel: Selector) {
    MulticallLayout(sel).Some? || Multicall3Layout(sel).Some?
  }

  /** Every chain sends every batch selector to a wrapper decoder with a sub-parser of the graph. */
  ghost predicate WellRouted<Id>(g: Graph<Id>) {
    forall id, sel :: id in g && IsBatch(sel) ==> Routed(g, id, sel)
  }

  ghost predicate Routed<Id>(g: Graph<Id>, id: Id, sel: Selector) {
    var c := FirstMatch(CodecsOf(g, id), sel);
    c.Some? && LayoutOf(c.value, sel).Some? && c.value.sub.Some? && c.value.sub.value in g
  }

  ghost function Route<Id>(g: Graph<Id>, id: Id, kind: Kind): (sub: Id)
    requires WellRouted(g) && id in g
    ensures sub in g
  {
    assert IsBatch(SelectorOf(kind));
    assert Routed(g, id, SelectorOf(kind));
    FirstMatch(CodecsOf(g, id), SelectorOf(kind)).value.sub.value
  }

  /** The caps of the readers: 10 000 elements, pointers and payload lengths below 2^31. */
  predicate WithinCaps(kind: Kind, calls: seq<Call>) {
    && |calls| <= 10_000
    && forall i :: 0 <= i < |calls| ==> ElementWithinCaps(kind, calls, i)
  }

  predicate ElementWithinCaps(kind: Kind, calls: seq<Call>, i: nat)
    requires i < |calls|
  {
    Pointer(Elements(kind, calls), i) <= 0x7fff_ffff && |Encode(calls[i].inner)| <= 0x7fff_ffff
  }

  /** The transfer a call makes itself: only aggregate3Value carries a value. */
  function Emits(kind: Kind, c: Call): seq<Transfer> {
    if kind.Aggregate3Value? && c.value > 0 then [Transfer(ZERO_ADDRESS, c.target, Some(c.value), Deterministic)]
    else []
  }

  function OrNothing(r: Option<seq<Transfer>>): seq<Transfer> {
    if r.Some? then r.value else []
  }

  function TransfersOf(r: Option<Parsed>): Option<seq<Transfer>> {
    if r.Some? then Some(r.value.transfers) else None
  }

  /** A leaf means whatever the chain makes of it. A batch within the caps means its calls in order,
      each contributing its own transfer, then what its inner call means, if anything. */
  ghost function Meaning<Id>(g: Graph<Id>, id: Id, t: Tree): Option<seq<Transfer>>
    requires WellRouted(g) && id in g
    decreases t
  {
    match t
    case Leaf(raw) => TransfersOf(Parse(g, id, raw))
    case Node(kind, calls) =>
      if !WithinCaps(kind, calls) then None
      else
        var sub := Route(g, id, kind);
        Some(Concat(seq(|calls|, i requires 0 <= i < |calls| =>
          Emits(kind, calls[i]) + OrNothing(Meaning(g, sub, calls[i].inner)))))
  }

  // ----- reading one element -----

  function ShapeOf(kind: Kind): Shape {
    match kind
    case Aggregate3 => Tuples(2)
    case TryAggregate(_) => Tuples(1)
    case Aggregate => Tuples(1)
    case Aggregate3Value => ValueTuples
    case _ => Payloads
  }

  /** The word of the tuple that holds the offset of its bytes field. */
  function OffsetWord(kind: Kind): nat {
    match kind
    case Aggregate3 => 2
    case Aggregate3Value => 3
    case _ => 1
  }

  lemma ElementLayout(kind: Kind, c: Call, data: Bytes, params: Bytes, at: int)
    requires At(params, at, Element(kind, c, data))
    ensures !ShapeOf(kind).Payloads? ==>
              && At(params, at, AddressWord(c.target))
              && At(params, at + 32 * OffsetWord(kind), Word(32 * (OffsetWord(kind) + 1)))
              && At(params, at + 32 * (OffsetWord(kind) + 1), DynBytes(data))
    ensures ShapeOf(kind).Payloads? ==> At(params, at, DynBytes(data))
    ensures kind.Aggregate3Value? ==> At(params, at + 64, Word(c.value))
  {
    hide At, Word, AddressWord, DynBytes;
    var flag := Word(Flag(c.allowFailure));
    match kind
    case Aggregate3 =>
      AtSplit(params, at, AddressWord(c.target), flag + (Word(96) + DynBytes(data)));
      AtSplit(params, at + 32, flag, Word(96) + DynBytes(data));
      AtSplit(params, at + 64, Word(96), DynBytes(data));
    case TryAggregate(_) =>
      AtSplit(params, at, AddressWord(c.target), Word(64) + DynBytes(data));
      AtSplit(params, at + 32, Word(64), DynBytes(data));
    case Aggregate =>
      AtSplit(params, at, AddressWord(c.target), Word(64) + DynBytes(data));
      AtSplit(params, at + 32, Word(64), DynBytes(data));
    case Aggregate3Value =>
      AtSplit(params, at, AddressWord(c.target), flag + (Word(c.value) + (Word(128) + DynBytes(data))));
      AtSplit(params, at + 32, flag, Word(c.value) + (Word(128) + DynBytes(data)));
      AtSplit(params, at + 64, Word(c.value), Word(128) + DynBytes(data));
      AtSplit(params, at + 96, Word(128), DynBytes(data));
    case _ =>
  }

  /** An element that lies in the parameters is read back, or rejected for the size of its payload. */
  lemma ReadElement(kind: Kind, c: Call, data: Bytes, params: Bytes, at: int)
    requires At(params, at, Element(kind, c, data))
    requires IsWord(|data|) && (kind.Aggregate3Value? ==> IsWord(c.value))
    ensures !ShapeOf(kind).Payloads? ==>
              TupleAt(ShapeOf(kind), params, at) ==
              if |data| <= 0x7fff_ffff then Some(Step(Emits(kind, c), data)) else None
    ensures ShapeOf(kind).Payloads? ==>
              DynBytesAt(params, at) == if |data| <= 0x7fff_ffff then Some(data) else None
  {
    hide At, Word, AddressWord, DynBytes, Element, WordAt, AddressAt, DynBytesAt, Pow256;
    ElementLayout(kind, c, data, params, at);
    if ShapeOf(kind).Payloads? {
      ReadDynBytes(params, at, data);
    } else {
      var w := OffsetWord(kind);
      SmallIsWord(32 * (w + 1));
      ReadWord(params, at + 32 * w, 32 * (w + 1));
      ReadDynBytes(params, at + 32 * (w + 1), data);
      ReadAddress(params, at, c.target);
      if kind.Aggregate3Value? {
        ReadWord(params, at + 64, c.value);
      }
    }
  }

  // ----- reading the array -----

  function StepOf(kind: Kind, c: Call): Step {
    Step(Emits(kind, c), Encode(c.inner))
  }

  /** The sizes the encoding of a node writes are bounded by its own size. */
  lemma SizesAreWords(kind: Kind, calls: seq<Call>, i: nat)
    requires Encodable(Node(kind, calls)) && i < |calls|
    ensures IsWord(Pointer(Elements(kind, calls), i)) && IsWord(|Encode(calls[i].inner)|)
  {
    hide Pointer, DynArray, Pow256, Head;
    EncodeIs(kind, calls);
    var es := Elements(kind, calls);
    var d := DynArray(es);
    AtWhole(d);
    ArrayLayout(d, 0, es, i);
  }

  lemma EncodeIs(kind: Kind, calls: seq<Call>)
    ensures Encode(Node(kind, calls)) ==
            SelectorBytes(SelectorOf(kind)) + (Head(kind) + DynArray(Elements(kind, calls)))
    ensures |Encode(Node(kind, calls))| >= |DynArray(Elements(kind, calls))|
  {
    hide DynArray, Element, Head;
    assert Elements(kind, calls) ==
      seq(|calls|, i requires 0 <= i < |calls| => Element(kind, calls[i], Encode(calls[i].inner)));
  }

  lemma ReadStep(kind: Kind, calls: seq<Call>, params: Bytes, off: int, i: nat)
    requires At(params, off, DynArray(Elements(kind, calls))) && i < |calls|
    requires Encodable(Node(kind, calls))
    ensures StepAt(ShapeOf(kind), params, off + 32, i) ==
            if ElementWithinCaps(kind, calls, i) then Some(StepOf(kind, calls[i])) else None
  {
    hide At, Word, WordAt, DynBytesAt, Pow256, Pointer, DynArray, Encode, Element, TupleAt;
    var es := Elements(kind, calls);
    var p := Pointer(es, i);
    ArrayLayout(params, off, es, i);
    SizesAreWords(kind, calls, i);
    ReadWord(params, off + 32 + 32 * i, p);
    ReadElement(kind, calls[i], Encode(calls[i].inner), params, off + 32 + p);
  }

  lemma ReadSteps(kind: Kind, calls: seq<Call>, params: Bytes, off: int)
    requires At(params, off, DynArray(Elements(kind, calls)))
    requires Encodable(Node(kind, calls))
    ensures StepsAt(ShapeOf(kind), params, off) ==
            if WithinCaps(kind, calls)
            then Some(seq(|calls|, i requires 0 <= i < |calls| => StepOf(kind, calls[i]))) else None
  {
    hide At, Word, WordAt, StepAt, Pow256, DynArray, Encode, Elements, ElementWithinCaps, StepOf, Collect;
    var es := Elements(kind, calls);
    EncodeIs(kind, calls);
    ArrayLength(params, off, es);
    ReadWord(params, off, |calls|);
    if |calls| <= MAX_ARRAY {
      var f := (i: nat) => StepAt(ShapeOf(kind), params, off + 32, i);
      var steps := seq(|calls|, i requires 0 <= i < |calls| => StepOf(kind, calls[i]));
      forall i: nat | i < |calls|
        ensures f(i) == if ElementWithinCaps(kind, calls, i) then Some(steps[i]) else None
      {
        ReadStep(kind, calls, params, off, i);
      }
      if WithinCaps(kind, calls) {
        CollectIs(f, steps);
      } else {
        var i :| 0 <= i < |calls| && !ElementWithinCaps(kind, calls, i);
        CollectFails(f, i, |calls|);
      }
    }
  }

  function LayoutFor(kind: Kind): Layout {
    Layout(ShapeOf(kind), if kind.DeadlineBatch? || kind.PrevHashBatch? || kind.TryAggregate? then 1 else 0)
  }

  lemma HeadLayout(kind: Kind, body: Bytes, params: Bytes)
    requires params == Head(kind) + body
    ensures var w := LayoutFor(kind).headWord;
            At(params, 32 * w, Word(32 * (w + 1))) && At(params, 32 * (w + 1), body)
  {
    hide Word, At;
    AtWhole(params);
    AtSplit(params, 0, Head(kind), body);
    AtSplit(params, 0, Leading(kind), Word(32 + |Leading(kind)|));
  }

  /** The wrapper decoder finds exactly the encoded calls, unless a cap is exceeded. */
  lemma ReadNode(kind: Kind, calls: seq<Call>)
    requires Encodable(Node(kind, calls))
    ensures Steps(LayoutFor(kind), Encode(Node(kind, calls))[4..]) ==
            if WithinCaps(kind, calls)
            then Some(seq(|calls|, i requires 0 <= i < |calls| => StepOf(kind, calls[i]))) else None
  {
    hide At, Word, WordAt, StepsAt, Pow256, DynArray, Encode, Elements, StepOf, Head, WithinCaps;
    EncodeIs(kind, calls);
    var body := DynArray(Elements(kind, calls));
    var params := Head(kind) + body;
    assert Encode(Node(kind, calls))[4..] == params;
    HeadLayout(kind, body, params);
    var w := LayoutFor(kind).headWord;
    SmallIsWord(32 * (w + 1));
    ReadWord(params, 32 * w, 32 * (w + 1));
    ReadSteps(kind, calls, params, 32 * (w + 1));
  }

  // ----- the theorem -----

  lemma RoutedLayout<Id>(g: Graph<Id>, id: Id, kind: Kind)
    requires WellRouted(g) && id in g
    ensures var c := FirstMatch(CodecsOf(g, id), SelectorOf(kind));
            && c.Some? && (c.value.Multicall? || c.value.Multicall3Value?)
            && c.value.sub == Some(Route(g, id, kind))
            && LayoutOf(c.value, SelectorOf(kind)) == Some(LayoutFor(kind))
  {
    assert IsBatch(SelectorOf(kind));
    assert Routed(g, id, SelectorOf(kind));
  }

  /** Nested round trip: decoding the encoding of any tree of batch calls gives exactly what the tree
      means, including when it exceeds a cap. */
  lemma {:induction false} TreeRoundTrip<Id>(g: Graph<Id>, id: Id, t: Tree)
    requires WellRouted(g) && id in g && Encodable(t)
    ensures TransfersOf(Parse(g, id, Encode(t))) == Meaning(g, id, t)
    ensures t.Node? && Meaning(g, id, t).Some? ==> Parse(g, id, Encode(t)).value.selector == SelectorOf(t.kind)
    decreases t
  {
    hide Parse, WellRouted, Encodable, WithinCaps, Route;
    if t.Node? {
      NodeRoundTrip(g, id, t.kind, t.calls);
    }
  }

  lemma {:induction false} NodeRoundTrip<Id>(g: Graph<Id>, id: Id, kind: Kind, calls: seq<Call>)
    requires WellRouted(g) && id in g && Encodable(Node(kind, calls))
    ensures Parse(g, id, Encode(Node(kind, calls))) == AsParsed(SelectorOf(kind), Meaning(g, id, Node(kind, calls)))
    decreases Node(kind, calls), 0
  {
    hide Decode, Steps, Encode, WellRouted, WithinCaps, LayoutOf, LayoutFor, Route, Inner, IsWord, FirstMatch;
    var raw := Encode(Node(kind, calls));
    NodeSelector(kind, calls);
    ParseIs(g, id, raw);
    RoutedLayout(g, id, kind);
    var c := FirstMatch(CodecsOf(g, id), SelectorOf(kind)).value;
    WrapperIs(g, c, SelectorOf(kind), raw[4..]);
    ReadNode(kind, calls);
    if WithinCaps(kind, calls) {
      var sub := Route(g, id, kind);
      var steps := seq(|calls|, i requires 0 <= i < |calls| => StepOf(kind, calls[i]));
      var parts := Parts(g, Some(sub), steps);
      var meant := seq(|calls|, i requires 0 <= i < |calls| =>
          Emits(kind, calls[i]) + OrNothing(Meaning(g, sub, calls[i].inner)));
      forall i | 0 <= i < |calls|
        ensures parts[i] == meant[i]
      {
        TreeRoundTrip(g, sub, calls[i].inner);
        InnerIs(g, sub, Encode(calls[i].inner));
      }
      assert parts == meant;
    }
  }

  lemma NodeSelector(kind: Kind, calls: seq<Call>)
    ensures |Encode(Node(kind, calls))| >= 4
    ensures SelectorFromBytes(Encode(Node(kind, calls))) == SelectorOf(kind)
  {
    hide Head, DynArray, SelectorOf;
  }

  lemma InnerIs<Id>(g: Graph<Id>, sub: Id, data: Bytes)
    ensures Inner(g, Some(sub), data) == OrNothing(TransfersOf(Parse(g, sub, data)))
  {
  }

  // ----- conservation of value -----

  /** The ETH a tree moves: what its leaves report plus the values of its aggregate3Value calls. */
  ghost function Value<Id>(g: Graph<Id>, id: Id, t: Tree): nat
    requires WellRouted(g) && id in g
    decreases t
  {
    match t
    case Leaf(raw) => Total(OrNothing(TransfersOf(Parse(g, id, raw))))
    case Node(kind, calls) =>
      if !WithinCaps(kind, calls) then 0
      else
        var sub := Route(g, id, kind);
        Sum(seq(|calls|, i requires 0 <= i < |calls| =>
          (if kind.Aggregate3Value? then calls[i].value else 0) + Value(g, sub, calls[i].inner)))
  }

  lemma {:induction false} TotalOfParts(parts: seq<seq<Transfer>>, amounts: seq<nat>)
    requires |parts| == |amounts| && forall i :: 0 <= i < |parts| ==> Total(parts[i]) == amounts[i]
    ensures Total(Concat(parts)) == Sum(amounts)
  {
    var n := |parts|;
    if n > 0 {
      TotalOfParts(parts[..n - 1], amounts[..n - 1]);
      TotalConcat(Concat(parts[..n - 1]), parts[n - 1]);
    }
  }

  lemma {:induction false} MeaningConserves<Id>(g: Graph<Id>, id: Id, t: Tree)
    requires WellRouted(g) && id in g
    ensures Total(OrNothing(Meaning(g, id, t))) == Value(g, id, t)
    decreases t
  {
    hide Parse, WellRouted, WithinCaps, Route, Concat, Sum, Encode, OrNothing, Total;
    match t
    case Leaf(_) =>
    case Node(kind, calls) =>
      if WithinCaps(kind, calls) {
        var sub := Route(g, id, kind);
        var parts := seq(|calls|, i requires 0 <= i < |calls| =>
          Emits(kind, calls[i]) + OrNothing(Meaning(g, sub, calls[i].inner)));
        var amounts: seq<nat> := seq(|calls|, i requires 0 <= i < |calls| =>
          (if kind.Aggregate3Value? then calls[i].value else 0) + Value(g, sub, calls[i].inner));
        forall i | 0 <= i < |calls|
          ensures Total(parts[i]) == amounts[i]
        {
          MeaningConserves(g, sub, calls[i].inner);
          TotalConcat(Emits(kind, calls[i]), OrNothing(Meaning(g, sub, calls[i].inner)));
          EmitsTotal(kind, calls[i]);
        }
        TotalOfParts(parts, amounts);
        SomeOrNothing(Concat(parts));
      } else {
        NothingTotal();
      }
  }

  lemma EmitsTotal(kind: Kind, c: Call)
    ensures Total(Emits(kind, c)) == if kind.Aggregate3Value? then c.value else 0
  {
    assert Total([]) == 0;
    var t := Move(c.target, c.value, Deterministic);
    assert [t][..0] == [];
  }

  lemma NothingTotal()
    ensures Total(OrNothing(None)) == 0
  {
  }

  lemma SomeOrNothing(ts: seq<Transfer>)
    ensures OrNothing(Some(ts)) == ts
  {
  }

  /** Value conservation: decoding an encoded tree reports exactly the ETH the tree moves. */
  lemma DecodedValue<Id>(g: Graph<Id>, id: Id, t: Tree)
    requires WellRouted(g) && id in g && Encodable(t)
    ensures Total(OrNothing(TransfersOf(Parse(g, id, Encode(t))))) == Value(g, id, t)
  {
    hide Parse, Encode, Meaning, Value;
    TreeRoundTrip(g, id, t);
    MeaningConserves(g, id, t);
  }
}
