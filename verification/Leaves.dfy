/** The decoders that read a few fixed words (weth.go, aave_weth_gateway.go, uniswap_v2_router.go,
    uniswap_v3_payments.go and gnosis_safe.go in evm-lib/parser/codecs). */
module Leaves {
  import opened Wrappers
  import opened Bytes
  import opened Types
  import opened Abi

  const WETH_WITHDRAW := Selector(0x2e, 0x1a, 0x7d, 0x4d)
  const AAVE_WITHDRAW_ETH := Selector(0x80, 0x50, 0x0d, 0x20)
  const V2_EXACT_TOKENS := Selector(0x18, 0xcb, 0xaf, 0xe5)
  const V2_EXACT_ETH := Selector(0x4a, 0x25, 0xd9, 0x4a)
  const V2_EXACT_TOKENS_FOT := Selector(0x79, 0x1a, 0xc9, 0x47)
  const UNWRAP_WETH9 := Selector(0x49, 0x40, 0x4b, 0x7c)
  const UNWRAP_WETH9_FEE := Selector(0x9b, 0x2c, 0x0a, 0x37)
  const REFUND_ETH := Selector(0x12, 0x21, 0x0e, 0x8a)
  const SAFE_EXEC := Selector(0x6a, 0x76, 0x12, 0x02)

  datatype Leaf = Weth | AaveGateway | UniswapV2 | UniswapV3 | GnosisSafe

  predicate Claims(leaf: Leaf, sel: Selector) {
    match leaf
    case Weth => sel == WETH_WITHDRAW
    case AaveGateway => sel == AAVE_WITHDRAW_ETH
    case UniswapV2 => sel == V2_EXACT_TOKENS || sel == V2_EXACT_ETH || sel == V2_EXACT_TOKENS_FOT
    case UniswapV3 => sel == UNWRAP_WETH9 || sel == UNWRAP_WETH9_FEE || sel == REFUND_ETH
    case GnosisSafe => sel == SAFE_EXEC
  }

  function One(to: Option<Address>, value: Option<nat>, confidence: Confidence): Option<seq<Transfer>> {
    if to.None? || value.None? then None else Some([Move(to.value, value.value, confidence)])
  }

  function Decode(leaf: Leaf, sel: Selector, params: Bytes): Option<seq<Transfer>> {
    if !Claims(leaf, sel) then None
    else
      match leaf
      case Weth => One(Some(ZERO_ADDRESS), WordAt(params, 0), Likely)
      case AaveGateway => One(AddressAt(params, 64), WordAt(params, 32), Deterministic)
      case UniswapV2 => One(AddressAt(params, 96), WordAt(params, if sel == V2_EXACT_ETH then 0 else 32), Likely)
      case UniswapV3 =>
        if sel == REFUND_ETH then Some([Transfer(ZERO_ADDRESS, ZERO_ADDRESS, None, Possible)])
        else
          var minimum := One(AddressAt(params, 32), WordAt(params, 0), Likely);
          if sel == UNWRAP_WETH9 || minimum.None? then minimum
          else
            var fee := AddressAt(params, 96);
            if fee.None? then None
            else Some(minimum.value + [Transfer(ZERO_ADDRESS, fee.value, None, Possible)])
      case GnosisSafe =>
        var payment := One(AddressAt(params, 0), WordAt(params, 32), Deterministic);
        if payment.Some? && payment.value[0].value == Some(0) then Some([]) else payment
  }
}
