/** Gnosis MultiSend (evm-lib/parser/codecs/gnosis_multisend.go): a blob of tightly packed entries. */
module MultiSend {
  import opened Wrappers
  import opened Bytes
  import opened Types
  import opened Abi
  import opened Encoding

  const SELECTOR := Selector(0x8d, 0x80, 0xff, 0x0a)

  /** One packed entry: operation, to, value and dataLen (1 + 20 + 32 + 32 bytes), then its data. */
  datatype Tile = Tile(header: Bytes, data: Bytes)

  predicate ValidTile(t: Tile) {
    && |t.header| == 85
    && t.header[53] == 0 && t.header[54] == 0
    && Number(t.header, 77, 85) == |t.data|
  }

  /** The bytes the tiles cover. */
  function Glue(ts: seq<Tile>): Bytes {
    if ts == [] then [] else ts[0].header + ts[0].data + Glue(ts[1..])
  }

  function TileTransfers(t: Tile): seq<Transfer>
    requires |t.header| == 85
  {
    var value := Number(t.header, 21, 53);
    if value > 0 then [Move(t.header[1..21], value, Deterministic)] else []
  }

  function Transfers(ts: seq<Tile>): seq<Transfer>
    requires forall t :: t in ts ==> |t.header| == 85
  {
    if ts == [] then [] else TileTransfers(ts[0]) + Transfers(ts[1..])
  }

  /** The first entry of a blob and what is left after it. */
  function Head(blob: Bytes): (r: Option<Tile>)
    ensures r.Some? ==> ValidTile(r.value) && |r.value.header| + |r.value.data| <= |blob|
  {
    if |blob| < 85 then None
    else
      var header := blob[..85];
      var n := Number(header, 77, 85);
      if header[53] != 0 || header[54] != 0 || n > |blob| - 85 then None
      else Some(Tile(header, blob[85..85 + n]))
  }

  /** The entries of a blob, or nothing when it is rejected. */
  function Tiles(blob: Bytes): (r: Option<seq<Tile>>)
    ensures r.Some? ==> forall t :: t in r.value ==> ValidTile(t)
    decreases |blob|
  {
    if blob == [] then Some([])
    else
      match Head(blob)
      case None => None
      case Some(t) =>
        match Tiles(blob[85 + |t.data|..])
        case None => None
        case Some(rest) => Some([t] + rest)
  }

  /** A tile at the front of a blob is what Head finds there. */
  lemma HeadOf(t: Tile, rest: Bytes)
    requires ValidTile(t)
    ensures Head(t.header + t.data + rest) == Some(t)
  {
    var blob := t.header + t.data + rest;
    assert blob[..85] == t.header;
    assert blob[85..85 + |t.data|] == t.data;
  }

  lemma {:induction false} Tiling(blob: Bytes, ts: seq<Tile>)
    ensures Tiles(blob) == Some(ts) <==> (forall t :: t in ts ==> ValidTile(t)) && Glue(ts) == blob
    decreases |ts|
  {
    if ts == [] {
      assert Tiles(blob) == Some([]) ==> blob == [];
    } else {
      if Tiles(blob) == Some(ts) {
        var h := Head(blob).value;
        Tiling(blob[85 + |h.data|..], ts[1..]);
        assert ts == [h] + ts[1..];
        HeadGlues(blob);
      }
      if (forall u :: u in ts ==> ValidTile(u)) && Glue(ts) == blob {
        Tiling(Glue(ts[1..]), ts[1..]);
        HeadOf(ts[0], Glue(ts[1..]));
        assert blob[85 + |ts[0].data|..] == Glue(ts[1..]);
        assert ts == [ts[0]] + ts[1..];
      }
    }
  }

  /** The decoder accepts a blob iff it is an exact tiling by headers of 85 bytes, with two zero bytes where dataLen
      starts, each followed by as many bytes as the low 64 bits of dataLen say; that tiling is the only one. */
  lemma ExactTiling(blob: Bytes, ts: seq<Tile>)
    ensures Tiles(blob) == Some(ts) <==>
            && (forall t :: t in ts ==>
                  && |t.header| == 85 && t.header[53] == 0 && t.header[54] == 0
                  && Number(t.header, 77, 85) == |t.data|)
            && Glue(ts) == blob
  {
    hide Tiles, Glue, Number;
    Tiling(blob, ts);
    assert forall t :: t in ts ==> (ValidTile(t) <==>
      |t.header| == 85 && t.header[53] == 0 && t.header[54] == 0 && Number(t.header, 77, 85) == |t.data|);
  }

  lemma HeadGlues(blob: Bytes)
    requires Head(blob).Some?
    ensures var h := Head(blob).value;
            h.header + h.data + blob[85 + |h.data|..] == blob
  {
    var h := Head(blob).value;
    assert h.header + h.data == blob[..85 + |h.data|];
  }

  /** What a wallet packs; the data length word is a uint256 with a value below 2^64. */
  datatype Entry = Entry(operation: byte, to: Address, value: nat, data: Bytes)

  predicate Packable(e: Entry) {
    e.value < Pow256(32) && |e.data| < Pow256(8)
  }

  function Pack(e: Entry): (t: Tile)
    requires Packable(e)
    ensures |t.header| == 85 && t.data == e.data
  {
    Tile([e.operation] + e.to + ToBytes(e.value, 32) + Zeros(24) + ToBytes(|e.data|, 8), e.data)
  }

  lemma PackLayout(e: Entry)
    requires Packable(e)
    ensures var h := Pack(e).header;
            && At(h, 1, e.to) && At(h, 21, ToBytes(e.value, 32))
            && At(h, 53, Zeros(24)) && At(h, 77, ToBytes(|e.data|, 8))
  {
    hide At;
    var value, zeros, size := ToBytes(e.value, 32), Zeros(24), ToBytes(|e.data|, 8);
    var a := [e.operation] + e.to;
    var b := a + value;
    var c := b + zeros;
    AtAppended([e.operation], e.to);
    AtAppended(a, value);
    AtAppended(b, zeros);
    AtAppended(c, size);
    AtExtended(a, 1, e.to, value);
    AtExtended(b, 1, e.to, zeros);
    AtExtended(b, 21, value, zeros);
    AtExtended(c, 1, e.to, size);
    AtExtended(c, 21, value, size);
    AtExtended(c, 53, zeros, size);
  }

  lemma PackValid(e: Entry)
    requires Packable(e)
    ensures ValidTile(Pack(e))
    ensures TileTransfers(Pack(e)) == if e.value > 0 then [Move(e.to, e.value, Deterministic)] else []
  {
    hide Number, Pack, Pow256, ToBytes;
    PackLayout(e);
    ReadBack(e.value, 32);
    ReadBack(|e.data|, 8);
    var h := Pack(e).header;
    NumberAt(h, 21, ToBytes(e.value, 32), 32);
    NumberAt(h, 77, ToBytes(|e.data|, 8), 8);
    AtIndex(h, 53, Zeros(24), 0);
    AtIndex(h, 53, Zeros(24), 1);
  }

  function Packed(es: seq<Entry>): seq<Tile>
    requires forall e :: e in es ==> Packable(e)
  {
    if es == [] then [] else [Pack(es[0])] + Packed(es[1..])
  }

  function Sent(es: seq<Entry>): seq<Transfer> {
    if es == [] then []
    else
      (if es[0].value > 0 then [Transfer(ZERO_ADDRESS, es[0].to, Some(es[0].value), Deterministic)] else [])
      + Sent(es[1..])
  }

  /** Unpacking a packed entry list gives its entries with a positive value, in order. */
  lemma {:induction false} PackRoundTrip(es: seq<Entry>)
    requires forall e :: e in es ==> Packable(e)
    ensures Tiles(Glue(Packed(es))) == Some(Packed(es))
    ensures Transfers(Packed(es)) == Sent(es)
  {
    if es == [] {
    } else {
      PackRoundTrip(es[1..]);
      PackValid(es[0]);
      Tiling(Glue(Packed(es[1..])), Packed(es[1..]));
      Tiling(Glue(Packed(es)), Packed(es));
    }
  }

  function Emitted(blob: Bytes): Option<seq<Transfer>> {
    match Tiles(blob)
    case None => None
    case Some(ts) => Some(Transfers(ts))
  }

  /** multiSend(bytes): the transfers of the blob its first parameter points to. */
  function DecodeSpec(params: Bytes): Option<seq<Transfer>> {
    match OffsetAt(params, 0)
    case None => None
    case Some(off) =>
      match DynBytesAt(params, off)
      case None => None
      case Some(blob) => Emitted(blob)
  }

  /** The parameters of multiSend(bytes). */
  function Encode(blob: Bytes): Bytes {
    Word(32) + DynBytes(blob)
  }

  /** Decoding an encoded multiSend call gives its entries with a positive value, in order, unless the blob is
      too long for the reader. */
  lemma RoundTrip(es: seq<Entry>)
    requires (forall e :: e in es ==> Packable(e)) && IsWord(|Glue(Packed(es))|)
    ensures DecodeSpec(Encode(Glue(Packed(es)))) ==
            if |Glue(Packed(es))| <= 0x7fff_ffff then Some(Sent(es)) else None
  {
    hide At, Word, DynBytes, WordAt, DynBytesAt, Pow256, Tiles, Packed, Glue;
    var blob := Glue(Packed(es));
    var params := Encode(blob);
    AtWhole(params);
    AtSplit(params, 0, Word(32), DynBytes(blob));
    SmallIsWord(32);
    ReadWord(params, 0, 32);
    ReadDynBytes(params, 32, blob);
    PackRoundTrip(es);
  }

  /** The outcome when `done` has been appended to the output and `blob` is still to be read. */
  function Continue(done: seq<Transfer>, blob: Bytes): Option<seq<Transfer>> {
    match Emitted(blob)
    case None => None
    case Some(ts) => Some(done + ts)
  }

  lemma ContinueEnds(blob: Bytes, done: seq<Transfer>)
    ensures Continue([], blob) == Emitted(blob)
    ensures Continue(done, blob[|blob|..]) == Some(done)
  {
    if Emitted(blob).Some? {
      assert [] + Emitted(blob).value == Emitted(blob).value;
    }
    assert done + [] == done;
  }

  lemma ContinueStep(done: seq<Transfer>, blob: Bytes)
    requires blob != []
    ensures match Head(blob)
            case None => Continue(done, blob) == None
            case Some(t) => Continue(done, blob) == Continue(done + TileTransfers(t), blob[85 + |t.data|..])
  {
    if Head(blob).Some? {
      var t := Head(blob).value;
      var rest := Tiles(blob[85 + |t.data|..]);
      if rest.Some? {
        assert ([t] + rest.value)[1..] == rest.value;
        assert done + (TileTransfers(t) + Transfers(rest.value)) == done + TileTransfers(t) + Transfers(rest.value);
      }
    }
  }

  /** The entry at byte i fits: its header, its reserved bytes and its data. */
  predicate Fits(blob: Bytes, i: nat) {
    && i + 85 <= |blob| && blob[i + 53] == 0 && blob[i + 54] == 0
    && Number(blob, i + 77, i + 85) <= |blob| - i - 85
  }

  /** What the entry at byte i emits. */
  function EmittedAt(blob: Bytes, i: nat): seq<Transfer>
    requires i + 85 <= |blob|
  {
    var value := Number(blob, i + 21, i + 53);
    if value > 0 then [Move(blob[i + 1..i + 21], value, Deterministic)] else []
  }

  lemma HeadAt(blob: Bytes, i: nat)
    requires i < |blob|
    ensures Head(blob[i..]).Some? <==> Fits(blob, i)
    ensures Fits(blob, i) ==>
              && |Head(blob[i..]).value.data| == Number(blob, i + 77, i + 85)
              && TileTransfers(Head(blob[i..]).value) == EmittedAt(blob, i)
  {
    hide Number;
    if i + 85 <= |blob| {
      var header := blob[i..][..85];
      assert blob[i..i + 85] == header;
      NumberSub(blob, i, header, 77, 85);
      NumberSub(blob, i, header, 21, 53);
      assert header[1..21] == blob[i..i + 85][1..21] == blob[i + 1..i + 21];
    }
  }

  /** One turn of the loop at byte i. */
  lemma Turn(done: seq<Transfer>, blob: Bytes, i: nat)
    requires i < |blob|
    ensures Continue(done, blob[i..]) ==
            if !Fits(blob, i) then None
            else Continue(done + EmittedAt(blob, i), blob[i + 85 + Number(blob, i + 77, i + 85)..])
  {
    hide Head, Continue, Fits, EmittedAt;
    HeadAt(blob, i);
    ContinueStep(done, blob[i..]);
    if Fits(blob, i) {
      var n := Number(blob, i + 77, i + 85);
      assert blob[i..][85 + n..] == blob[i + 85 + n..];
    }
  }

  /** The loop over the blob. */
  method DecodeBlob(sel: Selector, blob: Bytes) returns (out: ParsedInputData?)
    requires |blob| <= MAX_CALLDATA
    ensures out != null ==> fresh(out)
    ensures Holds(out, AsParsed(sel, Emitted(blob)))
  {
    hide Continue, Emitted, Number;
    out := new ParsedInputData(sel);
    var i: Int64 := 0;
    assert blob[0..] == blob;
    ContinueEnds(blob, []);
    while i < |blob| as Int64
      invariant 0 <= i as int <= |blob|
      invariant out != null && fresh(out) && out.selector == sel
      invariant Continue(out.transfers, blob[i..]) == Emitted(blob)
      decreases |blob| - i as int
    {
      ghost var before := out.transfers;
      Turn(before, blob, i as int);
      if i + 85 > |blob| as Int64 {
        return null;
      }
      var addr := blob[i + 1..i + 21];
      NumberAt(blob, (i + 21) as int, blob[i + 21..i + 53], 32);
      var value := BigEndian(blob[i + 21..i + 53]);
      if blob[i + 53] != 0 || blob[i + 54] != 0 {
        return null;
      }
      NumberAt(blob, (i + 77) as int, blob[i + 77..i + 85], 8);
      var dataLen := Uint64(blob[i + 77..i + 85]);
      var remaining := (|blob| as Int64 - i - 85) as UInt64;
      if dataLen > remaining {
        return null;
      }
      var dataSize := dataLen as Int64;
      if value > 0 {
        out.transfers := out.transfers + [Move(addr, value, Deterministic)];
      }
      assert out.transfers == before + EmittedAt(blob, i as int);
      i := i + 85 + dataSize;
    }
    ContinueEnds(blob, out.transfers);
  }

  method Decode(sel: Selector, params: Bytes) returns (r: ParsedInputData?)
    requires |params| <= MAX_CALLDATA
    ensures r != null ==> fresh(r)
    ensures Holds(r, if sel != SELECTOR then None else AsParsed(sel, DecodeSpec(params)))
  {
    if sel != SELECTOR {
      return null;
    }
    var read := ReadDynamicBytes(params, 0);
    if read.None? {
      return null;
    }
    r := DecodeBlob(sel, read.value);
  }
}
