/** Whole calls through a chain, from the selector's four bytes to the transfers: the decoders of fixed words,
    disperseEther and multiSend. The batch functions are in RoundTrip. */
module Dispatch {
  import opened Wrappers
  import opened Bytes
  import opened Types
  import opened Abi
  import opened Encoding
  import opened Calldata
  import Leaves
  import Disperse
  import MultiSend

  /** c is the i-th decoder of the chain, and the fallback decoder is not before it. */
  ghost predicate Registered<Id>(g: Graph<Id>, id: Id, i: nat, c: Codec<Id>) {
    id in g && i < |g[id]| && g[id][i] == c && forall j :: 0 <= j < i ==> g[id][j] != Guessing
  }

  lemma {:induction false} OnlyClaimant<Id>(cs: seq<Codec<Id>>, i: nat, sel: Selector, c: Codec<Id>)
    requires i < |cs| && cs[i] == c && CanDecode(c, sel)
    requires forall j :: 0 <= j < i ==> cs[j] == c || !CanDecode(cs[j], sel)
    ensures FirstMatch(cs, sel) == Some(c)
  {
    hide CanDecode;
    if i > 0 && cs[0] != c {
      OnlyClaimant(cs[1..], i - 1, sel, c);
    }
  }

  /** No two decoders but the fallback one claim the same selector. */
  lemma ClaimsAlone<Id>(c: Codec<Id>, d: Codec<Id>, sel: Selector)
    requires c.Simple? || c.DisperseEther? || c.GnosisMultiSend?
    requires CanDecode(c, sel) && CanDecode(d, sel)
    ensures d == c || d == Guessing
  {
  }

  /** A registered decoder that claims the selector gets the call. */
  lemma Reaches<Id>(g: Graph<Id>, id: Id, i: nat, c: Codec<Id>, sel: Selector, params: Bytes)
    requires Registered(g, id, i, c) && CanDecode(c, sel) && (c.Simple? || c.DisperseEther? || c.GnosisMultiSend?)
    ensures Parse(g, id, [sel.b0, sel.b1, sel.b2, sel.b3] + params) == AsParsed(sel, Decode(g, c, sel, params))
  {
    hide CanDecode, Decode, Parse;
    var raw := [sel.b0, sel.b1, sel.b2, sel.b3] + params;
    assert raw[4..] == params && SelectorFromBytes(raw) == sel;
    forall j | 0 <= j < i
      ensures g[id][j] == c || !CanDecode(g[id][j], sel)
    {
      if CanDecode(g[id][j], sel) {
        ClaimsAlone(c, g[id][j], sel);
      }
    }
    OnlyClaimant(g[id], i, sel, c);
    ParseIs(g, id, raw);
  }

  /** disperseEther: the payments of both arrays, through the chain. */
  lemma DisperseCall<Id>(g: Graph<Id>, id: Id, i: nat, to: seq<Address>, amounts: seq<nat>)
    requires Registered(g, id, i, DisperseEther) && Disperse.Payable(to, amounts)
    ensures Parse(g, id, [0xe6, 0x3d, 0x38, 0xed] + Disperse.Encode(to, amounts)) ==
            if |to| == |amounts| <= 10_000
            then Some(Parsed(Selector(0xe6, 0x3d, 0x38, 0xed), Disperse.Zip(to, amounts))) else None
  {
    hide Parse, Disperse.Encode, Disperse.DecodeSpec, Disperse.Payable, Registered;
    Reaches(g, id, i, DisperseEther, Selector(0xe6, 0x3d, 0x38, 0xed), Disperse.Encode(to, amounts));
    Disperse.RoundTrip(to, amounts);
  }

  /** multiSend: the entries of the packed blob that carry a value, through the chain. */
  lemma MultiSendCall<Id>(g: Graph<Id>, id: Id, i: nat, es: seq<MultiSend.Entry>)
    requires Registered(g, id, i, GnosisMultiSend) && forall e :: e in es ==> MultiSend.Packable(e)
    requires IsWord(|MultiSend.Glue(MultiSend.Packed(es))|)
    ensures Parse(g, id, [0x8d, 0x80, 0xff, 0x0a] + MultiSend.Encode(MultiSend.Glue(MultiSend.Packed(es)))) ==
            if |MultiSend.Glue(MultiSend.Packed(es))| <= 0x7fff_ffff
            then Some(Parsed(Selector(0x8d, 0x80, 0xff, 0x0a), MultiSend.Sent(es))) else None
  {
    hide Parse, MultiSend.Encode, MultiSend.DecodeSpec, MultiSend.Glue, MultiSend.Packed, MultiSend.Packable,
      Registered;
    var params := MultiSend.Encode(MultiSend.Glue(MultiSend.Packed(es)));
    Reaches(g, id, i, GnosisMultiSend, Selector(0x8d, 0x80, 0xff, 0x0a), params);
    MultiSend.RoundTrip(es);
  }

  // ----- the decoders of a few fixed words -----

  /** The calls as their author sees them, up to the last word that matters. */
  datatype FixedCall =
    | Withdraw(amount: nat)
    | WithdrawEth(pool: Address, amount: nat, to: Address)
    | SwapExactTokens(amountIn: nat, amountOutMin: nat, path: nat, to: Address)
    | SwapExactEth(amountOut: nat, amountInMax: nat, path: nat, to: Address)
    | SwapExactTokensFee(amountIn: nat, amountOutMin: nat, path: nat, to: Address)
    | Unwrap(minimum: nat, to: Address)
    | UnwrapFee(minimum: nat, to: Address, bips: nat, feeTo: Address)
    | Refund
    | ExecTransaction(to: Address, value: nat)

  function SelectorOf(c: FixedCall): Selector {
    match c
    case Withdraw(_) => Selector(0x2e, 0x1a, 0x7d, 0x4d)
    case WithdrawEth(_, _, _) => Selector(0x80, 0x50, 0x0d, 0x20)
    case SwapExactTokens(_, _, _, _) => Selector(0x18, 0xcb, 0xaf, 0xe5)
    case SwapExactEth(_, _, _, _) => Selector(0x4a, 0x25, 0xd9, 0x4a)
    case SwapExactTokensFee(_, _, _, _) => Selector(0x79, 0x1a, 0xc9, 0x47)
    case Unwrap(_, _) => Selector(0x49, 0x40, 0x4b, 0x7c)
    case UnwrapFee(_, _, _, _) => Selector(0x9b, 0x2c, 0x0a, 0x37)
    case Refund => Selector(0x12, 0x21, 0x0e, 0x8a)
    case ExecTransaction(_, _) => Selector(0x6a, 0x76, 0x12, 0x02)
  }

  function HeadWords(c: FixedCall): (ws: seq<Bytes>)
    ensures forall k :: 0 <= k < |ws| ==> |ws[k]| == 32
  {
    match c
    case Withdraw(amount) => [Word(amount)]
    case WithdrawEth(pool, amount, to) => [AddressWord(pool), Word(amount), AddressWord(to)]
    case SwapExactTokens(a, b, path, to) => [Word(a), Word(b), Word(path), AddressWord(to)]
    case SwapExactEth(a, b, path, to) => [Word(a), Word(b), Word(path), AddressWord(to)]
    case SwapExactTokensFee(a, b, path, to) => [Word(a), Word(b), Word(path), AddressWord(to)]
    case Unwrap(minimum, to) => [Word(minimum), AddressWord(to)]
    case UnwrapFee(minimum, to, bips, feeTo) => [Word(minimum), AddressWord(to), Word(bips), AddressWord(feeTo)]
    case Refund => []
    case ExecTransaction(to, value) => [AddressWord(to), Word(value)]
  }

  /** The amount a call names for its transfer. */
  function AmountOf(c: FixedCall): nat {
    match c
    case Withdraw(amount) => amount
    case WithdrawEth(_, amount, _) => amount
    case SwapExactTokens(_, least, _, _) => least
    case SwapExactEth(exact, _, _, _) => exact
    case SwapExactTokensFee(_, least, _, _) => least
    case Unwrap(minimum, _) => minimum
    case UnwrapFee(minimum, _, _, _) => minimum
    case Refund => 0
    case ExecTransaction(_, value) => value
  }

  function Sends(to: Address, value: nat, confidence: Confidence): Transfer {
    Transfer(ZERO_ADDRESS, to, Some(value), confidence)
  }

  function Hint(to: Address): Transfer {
    Transfer(ZERO_ADDRESS, to, None, Possible)
  }

  /** What the call moves. */
  function Meaning(c: FixedCall): seq<Transfer> {
    var v := AmountOf(c);
    match c
    case Withdraw(_) => [Sends(ZERO_ADDRESS, v, Likely)]
    case WithdrawEth(_, _, to) => [Sends(to, v, Deterministic)]
    case SwapExactTokens(_, _, _, to) => [Sends(to, v, Likely)]
    case SwapExactEth(_, _, _, to) => [Sends(to, v, Likely)]
    case SwapExactTokensFee(_, _, _, to) => [Sends(to, v, Likely)]
    case Unwrap(_, to) => [Sends(to, v, Likely)]
    case UnwrapFee(_, to, _, feeTo) => [Sends(to, v, Likely), Hint(feeTo)]
    case Refund => [Hint(ZERO_ADDRESS)]
    case ExecTransaction(to, _) => if v > 0 then [Sends(to, v, Deterministic)] else []
  }

  function DecoderOf(c: FixedCall): Leaves.Leaf {
    match c
    case Withdraw(_) => Leaves.Weth
    case WithdrawEth(_, _, _) => Leaves.AaveGateway
    case SwapExactTokens(_, _, _, _) => Leaves.UniswapV2
    case SwapExactEth(_, _, _, _) => Leaves.UniswapV2
    case SwapExactTokensFee(_, _, _, _) => Leaves.UniswapV2
    case Unwrap(_, _) => Leaves.UniswapV3
    case UnwrapFee(_, _, _, _) => Leaves.UniswapV3
    case Refund => Leaves.UniswapV3
    case ExecTransaction(_, _) => Leaves.GnosisSafe
  }

  lemma ClaimsFixed(c: FixedCall)
    ensures Leaves.Claims(DecoderOf(c), SelectorOf(c))
  {
  }

  /** The head words lie one after the other. */
  lemma HeadLayout(c: FixedCall, rest: Bytes, k: nat)
    requires k < |HeadWords(c)|
    ensures At(Concat(HeadWords(c)) + rest, 32 * k, HeadWords(c)[k])
  {
    hide At, Word, AddressWord, HeadWords, Concat;
    var ws := HeadWords(c);
    AtWhole(Concat(ws));
    AtExtended(Concat(ws), 0, Concat(ws), rest);
    NthWord(Concat(ws) + rest, 0, ws, k);
  }

  lemma WordRead(c: FixedCall, rest: Bytes, k: nat, v: nat)
    requires k < |HeadWords(c)| && HeadWords(c)[k] == Word(v) && IsWord(v)
    ensures WordAt(Concat(HeadWords(c)) + rest, 32 * k) == Some(v)
  {
    hide At, Word, AddressWord, HeadWords, Concat, WordAt;
    HeadLayout(c, rest, k);
    ReadWord(Concat(HeadWords(c)) + rest, 32 * k, v);
  }

  lemma AddressRead(c: FixedCall, rest: Bytes, k: nat, a: Address)
    requires k < |HeadWords(c)| && HeadWords(c)[k] == AddressWord(a)
    ensures AddressAt(Concat(HeadWords(c)) + rest, 32 * k) == Some(a)
  {
    hide At, Word, AddressWord, HeadWords, Concat, AddressAt;
    HeadLayout(c, rest, k);
    ReadAddress(Concat(HeadWords(c)) + rest, 32 * k, a);
  }

  lemma FixedDecodes(c: FixedCall, rest: Bytes)
    requires IsWord(AmountOf(c))
    ensures Leaves.Decode(DecoderOf(c), SelectorOf(c), Concat(HeadWords(c)) + rest) == Some(Meaning(c))
  {
    hide At, Word, AddressWord, Concat, WordAt, AddressAt, IsWord;
    match c
    case Withdraw(v) => WordRead(c, rest, 0, v);
    case WithdrawEth(_, v, to) => WordRead(c, rest, 1, v); AddressRead(c, rest, 2, to);
    case SwapExactTokens(_, v, _, to) => WordRead(c, rest, 1, v); AddressRead(c, rest, 3, to);
    case SwapExactEth(v, _, _, to) => WordRead(c, rest, 0, v); AddressRead(c, rest, 3, to);
    case SwapExactTokensFee(_, v, _, to) => WordRead(c, rest, 1, v); AddressRead(c, rest, 3, to);
    case Unwrap(v, to) => WordRead(c, rest, 0, v); AddressRead(c, rest, 1, to);
    case UnwrapFee(v, to, _, feeTo) =>
      WordRead(c, rest, 0, v);
      AddressRead(c, rest, 1, to);
      AddressRead(c, rest, 3, feeTo);
      assert [Move(to, v, Likely)] + [Hint(feeTo)] == [Move(to, v, Likely), Hint(feeTo)];
    case Refund =>
    case ExecTransaction(to, v) => AddressRead(c, rest, 0, to); WordRead(c, rest, 1, v);
  }

  /** A call of one of these functions, whatever follows its head words, reports what it moves. */
  lemma FixedCallParsed<Id>(g: Graph<Id>, id: Id, i: nat, c: FixedCall, rest: Bytes)
    requires Registered(g, id, i, Simple(DecoderOf(c))) && IsWord(AmountOf(c))
    ensures var s := SelectorOf(c);
            Parse(g, id, [s.b0, s.b1, s.b2, s.b3] + (Concat(HeadWords(c)) + rest)) == Some(Parsed(s, Meaning(c)))
  {
    hide Parse, HeadWords, Concat, Leaves.Decode, Leaves.Claims, SelectorOf, DecoderOf, Meaning, IsWord, Registered;
    ClaimsFixed(c);
    Reaches(g, id, i, Simple(DecoderOf(c)), SelectorOf(c), Concat(HeadWords(c)) + rest);
    FixedDecodes(c, rest);
  }
}
