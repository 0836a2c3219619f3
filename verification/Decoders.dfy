/** The decoder objects (evm-lib/parser/codecs/chain.go, multicall.go, multicall3.go). A chain holds
    decoders, wrapper decoders hold a sub-parser chain; both fields are updated in place, so the
    objects may form cycles. Every method is proved to compute what Calldata says for the graph the
    objects currently form. */
module Decoders {
  import opened Wrappers
  import opened Bytes
  import opened Types
  import opened Abi
  import opened Calldata
  import Leaves
  import Disperse
  import MultiSend
  import Heuristic

  datatype Decoder =
    | SimpleDecoder(leaf: Leaves.Leaf)
    | DisperseDecoder
    | GnosisMultiSendDecoder
    | HeuristicDecoder
    | Multi(m: MulticallDecoder)
    | Multi3(m3: Multicall3ValueDecoder)
  {
    predicate CanDecode(sel: Selector) {
      match this
      case SimpleDecoder(leaf) => Leaves.Claims(leaf, sel)
      case DisperseDecoder => sel == Disperse.SELECTOR
      case GnosisMultiSendDecoder => sel == MultiSend.SELECTOR
      case HeuristicDecoder => true
      case Multi(_) => MulticallLayout(sel).Some?
      case Multi3(_) => Multicall3Layout(sel).Some?
    }
  }

  /** The objects a run may reach. */
  datatype World = World(chains: set<Chain>, multis: set<MulticallDecoder>, multi3s: set<Multicall3ValueDecoder>) {

    ghost predicate Knows(d: Decoder) {
      (d.Multi? ==> d.m in multis) && (d.Multi3? ==> d.m3 in multi3s)
    }

    ghost predicate Closed()
      reads chains, multis, multi3s
    {
      && (forall c :: c in chains ==> forall i :: 0 <= i < |c.decoders| ==> Knows(c.decoders[i]))
      && (forall m :: m in multis ==> m.sub == null || m.sub in chains)
      && (forall m :: m in multi3s ==> m.sub == null || m.sub in chains)
    }

    ghost function CodecOf(d: Decoder): Codec<Chain>
      requires Knows(d)
      reads multis, multi3s
    {
      match d
      case SimpleDecoder(leaf) => Simple(leaf)
      case DisperseDecoder => DisperseEther
      case GnosisMultiSendDecoder => GnosisMultiSend
      case HeuristicDecoder => Guessing
      case Multi(m) => Multicall(SubOf(m.sub))
      case Multi3(m3) => Multicall3Value(SubOf(m3.sub))
    }

    lemma SameClaims(d: Decoder, sel: Selector)
      requires Knows(d)
      ensures d.CanDecode(sel) == CanDecode(CodecOf(d), sel)
    {
      hide MulticallLayout, Multicall3Layout, Leaves.Claims;
    }

    ghost function CodecList(ds: seq<Decoder>): (cs: seq<Codec<Chain>>)
      requires forall i :: 0 <= i < |ds| ==> Knows(ds[i])
      reads multis, multi3s
      ensures |cs| == |ds| && forall i :: 0 <= i < |ds| ==> cs[i] == CodecOf(ds[i])
    {
      if ds == [] then [] else [CodecOf(ds[0])] + CodecList(ds[1..])
    }

    lemma NetAt(c: Chain)
      requires Closed() && c in chains
      ensures forall i :: 0 <= i < |c.decoders| ==> Knows(c.decoders[i])
      ensures CodecsOf(Net(), c) == CodecList(c.decoders)
    {
    }

    /** The graph of chains the objects form at the moment. */
    ghost function Net(): Graph<Chain>
      requires Closed()
      reads chains, multis, multi3s
    {
      map c | c in chains :: CodecList(c.decoders)
    }
  }

  function SubOf(c: Chain?): Option<Chain> {
    if c == null then None else Some(c)
  }

  class Chain {
    var decoders: seq<Decoder>

    constructor (decoders: seq<Decoder>)
      ensures this.decoders == decoders
    {
      this.decoders := decoders;
    }

    method Add(d: Decoder)
      modifies this
      ensures decoders == old(decoders) + [d]
    {
      decoders := decoders + [d];
    }

    method ParseBytes(raw: Bytes, ghost w: World) returns (r: ParsedInputData?)
      requires w.Closed() && this in w.chains && |raw| <= MAX_CALLDATA
      ensures r != null ==> fresh(r)
      ensures w.Closed() && Holds(r, Parse(w.Net(), this, raw))
      decreases |raw| / 68, 4
    {
      hide Parse, FirstMatch, Calldata.Decode, CanDecode, Decoder.CanDecode, World.Closed, World.Net, World.CodecOf,
        World.CodecList;
      w.NetAt(this);
      if |raw| < 4 {
        TooShort(w.Net(), this, raw);
        return null;
      }
      var sel := SelectorFromBytes(raw[..4]);
      var params := raw[4..];
      ghost var cs := w.CodecList(decoders);
      ParseIs(w.Net(), this, raw);
      assert cs[0..] == cs;
      for i := 0 to |decoders|
        invariant FirstMatch(cs, sel) == FirstMatch(cs[i..], sel)
      {
        var dec := decoders[i];
        FirstMatchStep(cs, sel, i);
        w.SameClaims(dec, sel);
        if !dec.CanDecode(sel) {
          continue;
        }
        r := Dispatch(dec, sel, params, w);
        return;
      }
      NoMatch<Chain>(sel);
      assert cs[|cs|..] == [];
      r := null;
    }
  }

  lemma TooShort<Id>(g: Graph<Id>, id: Id, raw: Bytes)
    requires |raw| < 4
    ensures Parse(g, id, raw) == None
  {
  }

  lemma NoMatch<Id>(sel: Selector)
    ensures FirstMatch<Id>([], sel) == None
  {
  }

  /** The call through the Decoder interface. */
  method Dispatch(d: Decoder, sel: Selector, params: Bytes, ghost w: World) returns (r: ParsedInputData?)
    requires w.Closed() && w.Knows(d) && |params| <= MAX_CALLDATA
    ensures r != null ==> fresh(r)
    ensures w.Closed() && Holds(r, AsParsed(sel, Calldata.Decode(w.Net(), w.CodecOf(d), sel, params)))
    decreases (|params| + 4) / 68, 3
  {
    match d
    case SimpleDecoder(leaf) =>
      var ts := Leaves.Decode(leaf, sel, params);
      if ts.None? {
        return null;
      }
      r := new ParsedInputData(sel);
      r.transfers := ts.value;
    case DisperseDecoder =>
      r := Disperse.Decode(sel, params);
    case GnosisMultiSendDecoder =>
      r := MultiSend.Decode(sel, params);
    case HeuristicDecoder =>
      r := Heuristic.Decode(sel, params);
    case Multi(m) =>
      r := m.Decode(sel, params, w);
    case Multi3(m3) =>
      r := m3.Decode(sel, params, w);
  }

  class MulticallDecoder {
    var sub: Chain?

    constructor (sub: Chain?)
      ensures this.sub == sub
    {
      this.sub := sub;
    }

    method SetSubParser(sub: Chain?)
      modifies this
      ensures this.sub == sub
    {
      this.sub := sub;
    }

    method Decode(sel: Selector, params: Bytes, ghost w: World) returns (r: ParsedInputData?)
      requires w.Closed() && this in w.multis && |params| <= MAX_CALLDATA
      ensures r != null ==> fresh(r)
      ensures w.Closed() && Holds(r, AsParsed(sel, Calldata.Decode(w.Net(), Multicall(SubOf(sub)), sel, params)))
      decreases (|params| + 4) / 68, 2
    {
      hide Calldata.Decode, Parts, StepsAt, WordAt, Concat, World.Closed, World.Net;
      if sub == null {
        Unconfigured(w.Net(), sel, params);
        return null;
      }
      WrapperIs(w.Net(), Multicall(SubOf(sub)), sel, params);
      var out := new ParsedInputData(sel);
      if sel == MULTICALL_BYTES {
        var arrOff := ReadOffsetAt(params, 0);
        if arrOff.None? {
          return null;
        }
        r := RecurseBytesArray(out, params, arrOff.value, w);
      } else if sel == MULTICALL_DEADLINE || sel == MULTICALL_PREV_HASH {
        var arrOff := ReadOffsetAt(params, 32);
        if arrOff.None? {
          return null;
        }
        r := RecurseBytesArray(out, params, arrOff.value, w);
      } else if sel == AGGREGATE3 {
        r := RecurseTupleArray(out, params, 0, 2, w);
      } else if sel == TRY_AGGREGATE {
        r := RecurseTupleArray(out, params, 1, 1, w);
      } else if sel == AGGREGATE {
        r := RecurseTupleArray(out, params, 0, 1, w);
      } else {
        r := null;
      }
    }

    method RecurseBytesArray(out: ParsedInputData, params: Bytes, arrOff: Int64, ghost w: World)
      returns (r: ParsedInputData?)
      requires w.Closed() && this in w.multis && |params| <= MAX_CALLDATA
      requires sub != null && 0 <= arrOff as int <= MAX_INT32 && out.transfers == []
      modifies out
      ensures r == null || r == out
      ensures w.Closed()
      ensures Holds(r, AsParsed(out.selector, Reported(w.Net(), SubOf(sub), StepsAt(Payloads, params, arrOff as int))))
      decreases (|params| + 4) / 68, 1
    {
      hide DynBytesAt, WordAt, Inner, World.Closed, World.Net, ElementAt, StepsAt, BytesArrayAt, Concat, Parts;
      PayloadSteps(params, arrOff as int);
      StepsAtShrink(Payloads, params, arrOff as int);
      var elems := ReadBytesArrayElements(params, arrOff);
      if elems.None? {
        return null;
      }
      ghost var steps := StepsAt(Payloads, params, arrOff as int).value;
      ghost var parts := Parts(w.Net(), SubOf(sub), steps);
      PartsAre(w.Net(), SubOf(sub), steps);
      assert parts[..0] == [];
      for i := 0 to |elems.value|
        invariant w.Closed() && w.Net() == old(w.Net())
        invariant out.transfers == Concat(parts[..i])
      {
        assert steps[i].data == elems.value[i];
        AppendSub(out, elems.value[i], w);
        ConcatSnoc(parts, i);
        assert parts[i] == [] + Inner(w.Net(), SubOf(sub), elems.value[i]);
      }
      assert parts[..|parts|] == parts;
      r := out;
    }

    /** One word index instead of the code's list of them: every caller passes exactly one. */
    method RecurseTupleArray(out: ParsedInputData, params: Bytes, arrayHeadWord: Int64, wIdx: Int64, ghost w: World)
      returns (r: ParsedInputData?)
      requires w.Closed() && this in w.multis && |params| <= MAX_CALLDATA
      requires sub != null && 0 <= arrayHeadWord <= 0x3ff_ffff_ffff_fffe && 0 <= wIdx <= 0x1ff_ffff_ffff_ffff
      requires out.transfers == []
      modifies out
      ensures r == null || r == out
      ensures w.Closed()
      ensures Holds(r, AsParsed(out.selector, Reported(w.Net(), SubOf(sub),
                Steps(Layout(Tuples(wIdx as nat), arrayHeadWord as nat), params))))
      decreases (|params| + 4) / 68, 1
    {
      hide StepAt, WordAt, Inner, Parts, Concat, World.Closed, World.Net;
      var arrOff := ReadOffsetAt(params, arrayHeadWord * 32);
      if arrOff.None? {
        return null;
      }
      var count := ReadArrayLength(params, arrOff.value);
      if count.None? {
        return null;
      }
      var headBase := arrOff.value + 32;
      ghost var f := (i: nat) => StepAt(Tuples(wIdx as nat), params, headBase as int, i);
      ghost var steps: seq<Step> := [];
      NoParts(w.Net(), SubOf(sub));
      for i: Int64 := 0 to count.value
        invariant w.Closed() && w.Net() == old(w.Net())
        invariant Collect(f, i as nat) == Some(steps)
        invariant out.transfers == Concat(Parts(w.Net(), SubOf(sub), steps))
      {
        var data := ReadTupleBytes(params, headBase, i, wIdx);
        if data.None? {
          CollectFails(f, i as nat, count.value as nat);
          return null;
        }
        AppendSub(out, data.value, w);
        PartsSnoc(w.Net(), SubOf(sub), steps, Step([], data.value));
        AppendNothing(Inner(w.Net(), SubOf(sub), data.value));
        steps := steps + [Step([], data.value)];
      }
      r := out;
    }

    method AppendSub(out: ParsedInputData, raw: Bytes, ghost w: World)
      requires w.Closed() && this in w.multis && |raw| <= MAX_CALLDATA && sub != null
      modifies out
      ensures w.Closed()
      ensures out.transfers == old(out.transfers) + Inner(w.Net(), SubOf(sub), raw)
      decreases |raw| / 68, 5
    {
      hide Parse;
      if |raw| < 4 {
        return;
      }
      var inner := sub.ParseBytes(raw, w);
      if inner == null {
        return;
      }
      out.transfers := out.transfers + inner.transfers;
    }
  }

  class Multicall3ValueDecoder {
    var sub: Chain?

    constructor (sub: Chain?)
      ensures this.sub == sub
    {
      this.sub := sub;
    }

    method SetSubParser(sub: Chain?)
      modifies this
      ensures this.sub == sub
    {
      this.sub := sub;
    }

    method Decode(sel: Selector, params: Bytes, ghost w: World) returns (r: ParsedInputData?)
      requires w.Closed() && this in w.multi3s && |params| <= MAX_CALLDATA
      ensures r != null ==> fresh(r)
      ensures w.Closed() && Holds(r, AsParsed(sel, Calldata.Decode(w.Net(), Multicall3Value(SubOf(sub)), sel, params)))
      decreases (|params| + 4) / 68, 2
    {
      hide Calldata.Decode, StepAt, WordAt, Inner, Parts, Concat, World.Closed, World.Net;
      WrapperIs(w.Net(), Multicall3Value(SubOf(sub)), sel, params);
      if sel != AGGREGATE3_VALUE {
        return null;
      }
      var arrOff := ReadOffsetAt(params, 0);
      if arrOff.None? {
        return null;
      }
      var count := ReadArrayLength(params, arrOff.value);
      if count.None? {
        return null;
      }
      var out := new ParsedInputData(sel);
      r := Calls(out, params, arrOff.value + 32, count.value, w);
    }

    /** The loop over the calls. */
    method Calls(out: ParsedInputData, params: Bytes, headBase: Int64, count: Int64, ghost w: World)
      returns (r: ParsedInputData?)
      requires w.Closed() && this in w.multi3s && |params| <= MAX_CALLDATA
      requires 32 <= headBase as int <= MAX_INT32 + 32 && 0 <= count <= 10_000 && out.transfers == []
      modifies out
      ensures r == null || r == out
      ensures w.Closed()
      ensures Holds(r, AsParsed(out.selector, Reported(w.Net(), SubOf(sub),
                Collect((i: nat) => StepAt(ValueTuples, params, headBase as int, i), count as nat))))
      decreases (|params| + 4) / 68, 1
    {
      hide StepAt, WordAt, Inner, Parts, Concat, World.Closed, World.Net;
      ghost var f := (i: nat) => StepAt(ValueTuples, params, headBase as int, i);
      ghost var steps: seq<Step> := [];
      NoParts(w.Net(), SubOf(sub));
      for i: Int64 := 0 to count
        invariant w.Closed() && w.Net() == old(w.Net())
        invariant Collect(f, i as nat) == Some(steps)
        invariant out.transfers == Concat(Parts(w.Net(), SubOf(sub), steps))
      {
        var call := ReadCall(params, headBase, i);
        if call.None? {
          CollectFails(f, i as nat, count as nat);
          return null;
        }
        ghost var step := StepOf(call.value);
        PartsSnoc(w.Net(), SubOf(sub), steps, step);
        steps := steps + [step];
        ghost var before := out.transfers;
        if call.value.value > 0 {
          out.transfers := out.transfers + [Move(call.value.target, call.value.value, Deterministic)];
        }
        assert out.transfers == before + step.emit;
        AppendInner(out, call.value.data, w);
        assert before + step.emit + Inner(w.Net(), SubOf(sub), step.data)
            == before + (step.emit + Inner(w.Net(), SubOf(sub), step.data));
      }
      r := out;
    }

    /** Lines 94-99 of multicall3.go. */
    method AppendInner(out: ParsedInputData, callData: Bytes, ghost w: World)
      requires w.Closed() && this in w.multi3s && |callData| <= MAX_CALLDATA
      modifies out
      ensures w.Closed()
      ensures out.transfers == old(out.transfers) + Inner(w.Net(), SubOf(sub), callData)
      decreases |callData| / 68, 5
    {
      hide Parse;
      if sub != null && |callData| >= 4 {
        var inner := sub.ParseBytes(callData, w);
        if inner != null {
          out.transfers := out.transfers + inner.transfers;
        }
      }
    }
  }

  /** The fields of an aggregate3Value call the decoder looks at. */
  datatype Call = Call(target: Address, value: nat, data: Bytes)

  function StepOf(c: Call): Step {
    Step(if c.value > 0 then [Move(c.target, c.value, Deterministic)] else [], c.data)
  }

  /** Call i of the array (lines 54-84 of multicall3.go). */
  method ReadCall(params: Bytes, headBase: Int64, i: Int64) returns (r: Option<Call>)
    requires |params| <= MAX_CALLDATA && 32 <= headBase as int <= MAX_INT32 + 32 && 0 <= i <= 10_000
    ensures StepAt(ValueTuples, params, headBase as int, i as nat) ==
            if r.None? then None else Some(StepOf(r.value))
    ensures r.Some? ==> |r.value.data| + 64 <= |params|
  {
    hide DynBytesAt, WordAt, AddressAt;
    var relOff := ReadOffsetAt(params, headBase + i * 32);
    if relOff.None? {
      return None;
    }
    var structBase := headBase + relOff.value;
    var target := ReadAddressAt(params, structBase);
    if target.None? {
      return None;
    }
    var value := ReadUint256At(params, structBase + 64);
    if value.None? {
      return None;
    }
    var bytesRelOff := ReadOffsetAt(params, structBase + 96);
    if bytesRelOff.None? {
      return None;
    }
    DynBytesShrink(params, (structBase + bytesRelOff.value) as int);
    var callData := ReadDynamicBytesAt(params, structBase + bytesRelOff.value);
    if callData.None? {
      return None;
    }
    r := Some(Call(target.value, value.value, callData.value));
  }

  /** The bytes field of tuple i (lines 132-152 of multicall.go). */
  method ReadTupleBytes(params: Bytes, headBase: Int64, i: Int64, wIdx: Int64) returns (data: Option<Bytes>)
    requires |params| <= MAX_CALLDATA && 32 <= headBase as int <= MAX_INT32 + 32
    requires 0 <= i <= 10_000 && 0 <= wIdx <= 0x1ff_ffff_ffff_ffff
    ensures StepAt(Tuples(wIdx as nat), params, headBase as int, i as nat) ==
            if data.None? then None else Some(Step([], data.value))
    ensures data.Some? ==> |data.value| + 64 <= |params|
  {
    hide DynBytesAt, WordAt;
    var relOff := ReadOffsetAt(params, headBase + i * 32);
    if relOff.None? {
      return None;
    }
    var structBase := headBase + relOff.value;
    var bytesRelOff := ReadOffsetAt(params, structBase + wIdx * 32);
    if bytesRelOff.None? {
      return None;
    }
    DynBytesShrink(params, (structBase + bytesRelOff.value) as int);
    data := ReadDynamicBytesAt(params, structBase + bytesRelOff.value);
  }

  lemma NoParts<Id>(g: Graph<Id>, sub: Option<Id>)
    ensures Concat(Parts(g, sub, [])) == []
  {
  }

  lemma PartsAre<Id>(g: Graph<Id>, sub: Option<Id>, steps: seq<Step>)
    ensures |Parts(g, sub, steps)| == |steps|
    ensures forall i :: 0 <= i < |steps| ==> Parts(g, sub, steps)[i] == steps[i].emit + Inner(g, sub, steps[i].data)
    ensures Concat(Parts(g, sub, steps)[..0]) == []
  {
  }

  lemma AppendNothing(ts: seq<Transfer>)
    ensures [] + ts == ts
  {
  }

  lemma Unconfigured<Id>(g: Graph<Id>, sel: Selector, params: Bytes)
    ensures Calldata.Decode(g, Multicall(None), sel, params) == None
  {
  }

  lemma PayloadSteps(params: Bytes, off: int)
    ensures match BytesArrayAt(params, off)
            case None => StepsAt(Payloads, params, off) == None
            case Some(xs) =>
              && StepsAt(Payloads, params, off).Some?
              && StepsAt(Payloads, params, off).value == seq(|xs|, i requires 0 <= i < |xs| => Step([], xs[i]))
  {
    hide ElementAt, WordAt, Collect;
    var n := ArrayLengthAt(params, off);
    if n.Some? {
      var f := (i: nat) => ElementAt(params, off + 32, i);
      var h := (i: nat) => StepAt(Payloads, params, off + 32, i);
      CollectMeans(f, n.value);
      CollectMeans(h, n.value);
      assert forall i: nat :: h(i) == if f(i).None? then None else Some(Step([], f(i).value));
    }
  }
}
