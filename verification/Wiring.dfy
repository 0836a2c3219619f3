/** Building chains: registration order, late binding of sub-parsers, and the round trip on objects. */
module Wiring {
  import opened Wrappers
  import opened Types
  import opened Calldata
  import opened Decoders
  import opened RoundTrip

  // ----- registration order -----

  /** A decoder added at the end gets exactly the selectors nobody claimed before. */
  lemma {:induction false} AddedLast<Id>(cs: seq<Codec<Id>>, c: Codec<Id>, sel: Selector)
    ensures FirstMatch(cs + [c], sel) ==
            if FirstMatch(cs, sel).Some? then FirstMatch(cs, sel)
            else if Calldata.CanDecode(c, sel) then Some(c) else None
  {
    hide Calldata.CanDecode;
    if cs == [] {
      assert cs + [c] == [c];
    } else {
      AddedLast(cs[1..], c, sel);
      assert (cs + [c])[1..] == cs[1..] + [c];
    }
  }

  /** Nothing behind the fallback decoder is ever reached, whatever the selector. */
  lemma {:induction false} BehindFallback<Id>(cs: seq<Codec<Id>>, rest: seq<Codec<Id>>, sel: Selector)
    requires Guessing in cs
    ensures FirstMatch(cs + rest, sel) == FirstMatch(cs, sel)
  {
    assert (cs + rest)[0] == cs[0];
    if cs[0] != Guessing {
      BehindFallback(cs[1..], rest, sel);
      assert (cs + rest)[1..] == cs[1..] + rest;
    }
  }

  // ----- a chain that contains its own wrapper decoders -----

  predicate IsPlain<Id>(c: Codec<Id>) {
    c.Simple? || c.DisperseEther? || c.GnosisMultiSend?
  }

  function Wired<Id>(before: seq<Codec<Id>>, id: Id): seq<Codec<Id>> {
    before + [Multicall(Some(id)), Multicall3Value(Some(id)), Guessing]
  }

  lemma PlainNeverBatches<Id>(c: Codec<Id>, sel: Selector)
    requires IsPlain(c) && IsBatch(sel)
    ensures !Calldata.CanDecode(c, sel)
  {
  }

  lemma {:induction false} WiredMatch<Id>(before: seq<Codec<Id>>, id: Id, sel: Selector)
    requires (forall c :: c in before ==> IsPlain(c)) && IsBatch(sel)
    ensures FirstMatch(Wired(before, id), sel) ==
            Some(if MulticallLayout(sel).Some? then Multicall(Some(id)) else Multicall3Value(Some(id)))
  {
    hide MulticallLayout, Multicall3Layout;
    var cs := Wired(before, id);
    if before == [] {
      assert cs[0] == Multicall(Some(id)) && cs[1..] == [Multicall3Value(Some(id)), Guessing];
      assert cs[1..][0] == Multicall3Value(Some(id));
    } else {
      PlainNeverBatches(before[0], sel);
      WiredMatch(before[1..], id, sel);
      assert cs[1..] == Wired(before[1..], id);
    }
  }

  /** Every batch reaches a wrapper decoder: no plain decoder claims a batch selector. */
  lemma SelfContainedRouted<Id>(g: Graph<Id>, id: Id, before: seq<Codec<Id>>)
    requires g == map[id := Wired(before, id)] && forall c :: c in before ==> IsPlain(c)
    ensures WellRouted(g)
  {
    hide MulticallLayout, Multicall3Layout, FirstMatch, Wired, IsPlain;
    forall j, sel | j in g && IsBatch(sel)
      ensures Routed(g, j, sel)
    {
      WiredMatch(before, id, sel);
    }
  }

  lemma PlainViews(w: World, ds: seq<Decoder>, cs: seq<Codec<Chain>>)
    requires forall i :: 0 <= i < |ds| ==> !ds[i].Multi? && !ds[i].Multi3? && !ds[i].HeuristicDecoder?
    requires |cs| == |ds| && forall i :: 0 <= i < |ds| ==> w.Knows(ds[i]) && cs[i] == w.CodecOf(ds[i])
    ensures forall c :: c in cs ==> IsPlain(c)
  {
  }

  lemma WiredWorld(before: seq<Decoder>, c: Chain, m: MulticallDecoder, m3: Multicall3ValueDecoder)
    requires forall i :: 0 <= i < |before| ==> !before[i].Multi? && !before[i].Multi3? && !before[i].HeuristicDecoder?
    requires c.decoders == before + [Multi(m), Multi3(m3), HeuristicDecoder] && m.sub == c && m3.sub == c
    ensures var w := World({c}, {m}, {m3}); w.Closed() && WellRouted(w.Net())
  {
    hide WellRouted, FirstMatch, Calldata.CanDecode, IsPlain;
    var w := World({c}, {m}, {m3});
    var n := |before|;
    var cs := w.CodecList(c.decoders);
    assert cs == Wired(cs[..n], c);
    PlainViews(w, before, cs[..n]);
    assert w.Net() == map[c := cs];
    SelfContainedRouted(w.Net(), c, cs[..n]);
  }

  /** The usual wiring: the wrapper decoders' sub-parser is the chain that contains them. */
  method SelfContained(before: seq<Decoder>) returns (c: Chain, m: MulticallDecoder, m3: Multicall3ValueDecoder)
    requires forall i :: 0 <= i < |before| ==> !before[i].Multi? && !before[i].Multi3? && !before[i].HeuristicDecoder?
    ensures var w := World({c}, {m}, {m3}); w.Closed() && WellRouted(w.Net())
    ensures c.decoders == before + [Multi(m), Multi3(m3), HeuristicDecoder]
  {
    hide WellRouted, World.Closed, World.Net;
    c := new Chain(before);
    m := new MulticallDecoder(c);
    m3 := new Multicall3ValueDecoder(null);
    m3.SetSubParser(c);
    c.Add(Multi(m));
    c.Add(Multi3(m3));
    c.Add(HeuristicDecoder);
    assert c.decoders == before + [Multi(m), Multi3(m3), HeuristicDecoder];
    WiredWorld(before, c, m, m3);
  }

  /** The round trip on the objects: a self-contained chain decodes any encoded tree to its meaning. */
  method ParseEncoded(before: seq<Decoder>, t: Tree)
    returns (r: ParsedInputData?, c: Chain, m: MulticallDecoder, m3: Multicall3ValueDecoder)
    requires forall i :: 0 <= i < |before| ==> !before[i].Multi? && !before[i].Multi3? && !before[i].HeuristicDecoder?
    requires Encodable(t) && |Encode(t)| <= MAX_CALLDATA
    ensures var w := World({c}, {m}, {m3}); w.Closed() && WellRouted(w.Net()) && c in w.Net()
    ensures (if r == null then None else Some(r.transfers)) == Meaning(World({c}, {m}, {m3}).Net(), c, t)
  {
    hide Parse, Meaning, WellRouted, Encodable, Encode;
    c, m, m3 := SelfContained(before);
    ghost var w := World({c}, {m}, {m3});
    r := c.ParseBytes(Encode(t), w);
    TreeRoundTrip(w.Net(), c, t);
  }
}
