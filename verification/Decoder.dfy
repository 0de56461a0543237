/** Pool calldata decoding (src/pool/decoder.rs). */
module Decoder {
  import opened Wrappers
  import opened Bytes

  datatype PoolCall =
    | Swap(zeroForOne: bool, amountSpecified: int)
    | Mint
    | Burn
    | Collect
    | Unknown(selector: nat)

  const SEL_SWAP: nat := 0x128acb08
  const SEL_MINT: nat := 0x3c8a7d8d
  const SEL_BURN: nat := 0xa34123a7
  const SEL_COLLECT: nat := 0x4f1eb3d8

  function Selector(input: seq<Byte>): nat
    requires 4 <= |input|
  {
    BigEndian(input[..4])
  }

  function DecodePoolCalldata(input: seq<Byte>): Option<PoolCall> {
    if |input| < 4 then None
    else
      var selector := Selector(input);
      if selector == SEL_SWAP then
        if |input| < 68 then Some(Swap(false, 0))
        else
          BigEndianBound(input[52..68]);
          Pow256Of16();
          Some(Swap(input[35] != 0, Signed128(BigEndian(input[52..68]))))
      else if selector == SEL_MINT then Some(Mint)
      else if selector == SEL_BURN then Some(Burn)
      else if selector == SEL_COLLECT then Some(Collect)
      else Some(Unknown(selector))
  }

  const SWAP_BYTES: seq<Byte> := [0x12, 0x8a, 0xcb, 0x08]
  const MINT_BYTES: seq<Byte> := [0x3c, 0x8a, 0x7d, 0x8d]
  const BURN_BYTES: seq<Byte> := [0xa3, 0x41, 0x23, 0xa7]
  const COLLECT_BYTES: seq<Byte> := [0x4f, 0x1e, 0xb3, 0xd8]

  lemma {:induction false} SelectorIs(input: seq<Byte>, value: nat, bytes: seq<Byte>)
    requires 4 <= |input| && value < 0x1_0000_0000 && ToBytes(value, 4) == bytes
    ensures Selector(input) == value <==> input[..4] == bytes
  {
    assert Pow256(4) == 0x1_0000_0000;
    ToBytesRoundTrip(value, 4);
    BytesRoundTrip(input[..4]);
  }

  lemma {:induction false} SwapAndMintBytes()
    ensures ToBytes(SEL_SWAP, 4) == SWAP_BYTES && ToBytes(SEL_MINT, 4) == MINT_BYTES
  {
    assert ToBytes(0x128a, 2) == [0x12, 0x8a] && ToBytes(0x128acb, 3) == [0x12, 0x8a, 0xcb];
    assert ToBytes(0x3c8a, 2) == [0x3c, 0x8a] && ToBytes(0x3c8a7d, 3) == [0x3c, 0x8a, 0x7d];
  }

  lemma {:induction false} BurnAndCollectBytes()
    ensures ToBytes(SEL_BURN, 4) == BURN_BYTES && ToBytes(SEL_COLLECT, 4) == COLLECT_BYTES
  {
    assert ToBytes(0xa341, 2) == [0xa3, 0x41] && ToBytes(0xa34123, 3) == [0xa3, 0x41, 0x23];
    assert ToBytes(0x4f1e, 2) == [0x4f, 0x1e] && ToBytes(0x4f1eb3, 3) == [0x4f, 0x1e, 0xb3];
  }

  /** The first four bytes alone decide the kind of call; an unknown selector is reported so that it gives them back. */
  lemma {:induction false} SelectorDecides(input: seq<Byte>)
    ensures var call := DecodePoolCalldata(input);
      && (call == None <==> |input| < 4)
      && (call.Some? ==>
        && (call.value.Swap? <==> input[..4] == SWAP_BYTES)
        && (call.value.Mint? <==> input[..4] == MINT_BYTES)
        && (call.value.Burn? <==> input[..4] == BURN_BYTES)
        && (call.value.Collect? <==> input[..4] == COLLECT_BYTES)
        && (call.value.Unknown? ==> ToBytes(call.value.selector, 4) == input[..4])
        && (call.value.Swap? ==> (call.value.zeroForOne <==> |input| >= 68 && input[35] != 0))
        && (call.value.Swap? && |input| < 68 ==> call.value.amountSpecified == 0))
  {
    if |input| >= 4 {
      SwapAndMintBytes();
      BurnAndCollectBytes();
      SelectorIs(input, SEL_SWAP, SWAP_BYTES);
      SelectorIs(input, SEL_MINT, MINT_BYTES);
      SelectorIs(input, SEL_BURN, BURN_BYTES);
      SelectorIs(input, SEL_COLLECT, COLLECT_BYTES);
      BytesRoundTrip(input[..4]);
    }
  }

  /** The 32 bytes from 36 to 68 as one signed word. */
  function WordAt36(input: seq<Byte>): int
    requires 68 <= |input|
  {
    BigEndianBound(input[36..68]);
    WordBound();
    Signed256(BigEndian(input[36..68]))
  }

  lemma {:induction false} WordBound()
    ensures Pow256(32) == TWO_256
  {
    Widths();
  }

  /** It is the two's complement reading: in the signed range, and congruent to the unsigned one modulo 2^256. */
  lemma {:induction false} WordIsSigned(input: seq<Byte>)
    requires 68 <= |input|
    ensures -TWO_255 <= WordAt36(input) < TWO_255
    ensures (WordAt36(input) - BigEndian(input[36..68])) % TWO_256 == 0
  {
    BigEndianBound(input[36..68]);
    WordBound();
  }

  /**
   * The decoded amount is the signed 256-bit word at bytes 36..68 cut to 128 bits: congruent to it modulo 2^128
   * always, and equal to it exactly when the word fits in a signed 128-bit integer.
   */
  lemma {:induction false} AmountIsTruncatedWord(input: seq<Byte>)
    requires 68 <= |input| && Selector(input) == SEL_SWAP
    ensures var call := DecodePoolCalldata(input);
      && call.Some? && call.value.Swap?
      && -TWO_127 <= call.value.amountSpecified < TWO_127
      && (WordAt36(input) - call.value.amountSpecified) % TWO_128 == 0
      && (call.value.amountSpecified == WordAt36(input) <==> -TWO_127 <= WordAt36(input) < TWO_127)
  {
    var high, low := input[36..52], input[52..68];
    assert input[36..68] == high + low;
    BigEndianAppend(high, low);
    BigEndianBound(high);
    BigEndianBound(low);
    Pow256Of16();
    WordBound();
    TruncatedWord(BigEndian(high), BigEndian(low));
  }

  lemma {:induction false} TruncatedWord(high: nat, low: nat)
    requires high < TWO_128 && low < TWO_128
    ensures high * TWO_128 + low < TWO_256
    ensures var word, cut := Signed256(high * TWO_128 + low), Signed128(low);
      && (word - cut) % TWO_128 == 0
      && (cut == word <==> -TWO_127 <= word < TWO_127)
  {
    var word, cut := Signed256(high * TWO_128 + low), Signed128(low);
    var h := if high < TWO_127 then high else high - TWO_128;
    assert word == h * TWO_128 + low;
    var q := if low < TWO_127 then h else h + 1;
    assert word - cut == q * TWO_128;
  }

  /** Nothing past byte 68 matters, and before it only the selector does. */
  lemma {:induction false} OnlyTheHeadMatters(head: seq<Byte>, tail: seq<Byte>)
    requires 68 <= |head|
    ensures DecodePoolCalldata(head + tail) == DecodePoolCalldata(head)
  {
    assert (head + tail)[..4] == head[..4];
    assert (head + tail)[52..68] == head[52..68];
  }

  // ── Against the call's ABI encoding ──

  /** The arguments of swap(address,bool,int256,uint160,bytes). */
  datatype SwapArgs = SwapArgs(
    recipient: nat, zeroForOne: bool, amountSpecified: int, sqrtPriceLimit: nat, data: seq<Byte>)

  /** Each argument lies in the range of its ABI type. */
  predicate Encodable(args: SwapArgs) {
    && args.recipient < TWO_160
    && -TWO_255 <= args.amountSpecified < TWO_255
    && args.sqrtPriceLimit < TWO_160
    && |args.data| < TWO_256
  }

  /** The zero bytes that fill a byte string up to whole words. */
  function Padding(length: nat): (zeros: seq<Byte>)
    ensures |zeros| < 32 && (length + |zeros|) % 32 == 0
  {
    ToBytes(0, (32 - length % 32) % 32)
  }

  const DATA_OFFSET: nat := 0xa0

  /** The selector and the words of the first three arguments. */
  function AbiFront(args: SwapArgs): (front: seq<Byte>)
    requires Encodable(args)
    ensures |front| == 100
  {
    var amount := args.amountSpecified;
    ToBytes(SEL_SWAP, 4)
    + ToBytes(args.recipient, 32)
    + ToBytes(if args.zeroForOne then 1 else 0, 32)
    + ToBytes(if amount < 0 then amount + TWO_256 else amount, 32)
  }

  /**
   * The price limit, the offset of the bytes argument behind the five head words, and its length and padded content.
   */
  function AbiBack(args: SwapArgs): seq<Byte>
    requires Encodable(args)
  {
    ToBytes(args.sqrtPriceLimit, 32) + ToBytes(DATA_OFFSET, 32)
    + ToBytes(|args.data|, 32) + args.data + Padding(|args.data|)
  }

  /** The whole call under the Solidity Contract ABI Specification. */
  function AbiSwap(args: SwapArgs): (input: seq<Byte>)
    requires Encodable(args)
    ensures |input| == 196 + |args.data| + |Padding(|args.data|)|
  {
    AbiFront(args) + AbiBack(args)
  }

  lemma {:induction false} FrontDecoded(args: SwapArgs)
    requires Encodable(args)
    ensures DecodePoolCalldata(AbiFront(args))
         == Some(Swap(args.recipient % 256 != 0, if args.zeroForOne then 1 else 0))
  {
    var front := AbiFront(args);
    var flag := if args.zeroForOne then 1 else 0;
    assert front[..4] == ToBytes(SEL_SWAP, 4);
    ToBytesRoundTrip(SEL_SWAP, 4) by {
      assert Pow256(4) == 0x1_0000_0000;
    }
    assert front[35] == ToBytes(args.recipient, 32)[31];
    assert front[52..68] == ToBytes(flag, 32)[16..];
    SmallWord(flag, 32, 16);
  }

  /**
   * What the decoder makes of an ABI-encoded swap: the recipient's last byte, and the direction flag as the
   * amount.
   */
  lemma {:induction false} AbiSwapDecoded(args: SwapArgs)
    requires Encodable(args)
    ensures DecodePoolCalldata(AbiSwap(args))
         == Some(Swap(args.recipient % 256 != 0, if args.zeroForOne then 1 else 0))
  {
    FrontDecoded(args);
    OnlyTheHeadMatters(AbiFront(args), AbiBack(args));
  }

  /** The decoder recovers an ABI-encoded swap's arguments exactly when two coincidences hold. */
  lemma {:induction false} AbiSwapRecoveredIff(args: SwapArgs)
    requires Encodable(args)
    ensures DecodePoolCalldata(AbiSwap(args)) == Some(Swap(args.zeroForOne, args.amountSpecified))
      <==> ((args.recipient % 256 != 0 <==> args.zeroForOne)
            && args.amountSpecified == if args.zeroForOne then 1 else 0)
  {
    AbiSwapDecoded(args);
  }

  /** A swap of 1000 to an address ending in zero: direction and amount both come out wrong. */
  lemma {:induction false} AbiSwapMisread()
    ensures var args := SwapArgs(0x100, true, 1000, 4295128740, []);
      && Encodable(args)
      && DecodePoolCalldata(AbiSwap(args)) == Some(Swap(false, 1))
  {
    AbiSwapDecoded(SwapArgs(0x100, true, 1000, 4295128740, []));
  }
}
