/** Database rows and their text and integer columns (src/db/models.rs). */
module Models {
  import opened Wrappers
  import opened Bytes
  import opened Radix

  const TWO_31: int := 0x8000_0000
  const TWO_32: int := 0x1_0000_0000
  const TWO_63: int := 0x8000_0000_0000_0000
  const TWO_64: int := 0x1_0000_0000_0000_0000

  type U32 = v: int | 0 <= v < TWO_32
  type U64 = v: int | 0 <= v < TWO_64
  type U128 = v: int | 0 <= v < TWO_128
  type U256 = v: int | 0 <= v < TWO_256
  type I32 = v: int | -TWO_31 <= v < TWO_31
  type I64 = v: int | -TWO_63 <= v < TWO_63
  type I128 = v: int | -TWO_127 <= v < TWO_127
  type Address = v: int | 0 <= v < TWO_160
  type B256 = v: int | 0 <= v < TWO_256

  // ── Text forms ──

  function U256ToHex(v: U256): string {
    "0x" + Print(v, Hex)
  }

  function U128ToHex(v: U128): string {
    "0x" + Print(v, Hex)
  }

  function I128ToStr(v: I128): string {
    if v < 0 then "-" + Print(0 - v, Decimal) else Print(v, Decimal)
  }

  /** Reads a canonical `0x` numeral below `bound`. */
  function FromHex(s: string, bound: nat): Option<nat> {
    if |s| < 2 || s[..2] != "0x" then None
    else
      match Parse(s[2..], Hex)
      case Some(v) => if v < bound then Some(v) else None
      case None => None
  }

  /** Reads a canonical signed decimal in the i128 range; "-0" is not canonical. */
  function FromStr(s: string): Option<int> {
    if s != "" && s[0] == '-' then
      match Parse(s[1..], Decimal)
      case Some(v) => if 0 < v <= TWO_127 then Some(0 - v) else None
      case None => None
    else
      match Parse(s, Decimal)
      case Some(v) => if v < TWO_127 then Some(v) else None
      case None => None
  }

  /**
   * Hex storage is a bijection between the values below 2^256 and the canonical texts: each reads back to itself,
   * and no other text does.
   */
  lemma {:induction false} U256HexLossless(v: U256, s: string)
    ensures FromHex(s, TWO_256) == Some(v) <==> s == U256ToHex(v)
  {
    HexLossless(v, s, TWO_256);
  }

  lemma {:induction false} U128HexLossless(v: U128, s: string)
    ensures FromHex(s, TWO_128) == Some(v) <==> s == U128ToHex(v)
  {
    HexLossless(v, s, TWO_128);
  }

  lemma {:induction false} HexLossless(v: nat, s: string, bound: nat)
    requires v < bound
    ensures FromHex(s, bound) == Some(v) <==> s == "0x" + Print(v, Hex)
  {
    var text := Print(v, Hex);
    assert ("0x" + text)[..2] == "0x" && ("0x" + text)[2..] == text;
    if |s| >= 2 {
      ParsePrint(s[2..], v, Hex);
      assert s == s[..2] + s[2..];
    }
  }

  /**
   * Decimal storage is a bijection between the whole i128 range, minimum included, and the canonical signed
   * decimals.
   */
  lemma {:induction false} I128StrLossless(v: I128, s: string)
    ensures FromStr(s) == Some(v) <==> s == I128ToStr(v)
  {
    if v < 0 {
      var magnitude: nat := 0 - v;
      NegativeLossless(magnitude, s);
      assert v == 0 - magnitude;
      assert I128ToStr(v) == "-" + Print(magnitude, Decimal);
    } else {
      NaturalLossless(v, s);
    }
  }

  lemma {:induction false} NegativeLossless(magnitude: nat, s: string)
    requires 0 < magnitude <= TWO_127
    ensures FromStr(s) == Some(0 - magnitude) <==> s == "-" + Print(magnitude, Decimal)
  {
    MinusText(s, magnitude);
    if s != "" && s[0] == '-' {
      ParsePrint(s[1..], magnitude, Decimal);
    }
  }

  lemma {:induction false} MinusText(s: string, magnitude: nat)
    ensures s == "-" + Print(magnitude, Decimal) <==> s != "" && s[0] == '-' && s[1..] == Print(magnitude, Decimal)
  {
    var text := Print(magnitude, Decimal);
    assert ("-" + text)[1..] == text;
    assert s != "" && s[0] == '-' ==> s == "-" + s[1..];
  }

  lemma {:induction false} NaturalLossless(v: I128, s: string)
    requires v >= 0
    ensures FromStr(s) == Some(v) <==> s == I128ToStr(v)
  {
    ParsePrint(s, v, Decimal);
    PrintStartsWithDigit(v);
  }

  lemma {:induction false} PrintStartsWithDigit(v: nat)
    ensures Print(v, Decimal)[0] != '-'
  {
    if v < 10 {
    } else {
      PrintStartsWithDigit(v / 10);
    }
  }

  /** The texts digit by digit: a lower-case `0x` numeral grows by one literal digit at its end. */
  lemma {:induction false} HexText(v: U256)
    ensures U256ToHex(v) == (if v < 16 then "0x" else U256ToHex(v / 16)) + ["0123456789abcdef"[v % 16]]
    ensures v < TWO_128 ==> U128ToHex(v) == U256ToHex(v)
  {
  }

  /** Likewise a decimal, with a minus sign in front of a negative number's magnitude. */
  lemma {:induction false} DecimalText(v: I128)
    ensures 0 <= v ==> I128ToStr(v) == (if v < 10 then "" else I128ToStr(v / 10)) + ["0123456789"[v % 10]]
    ensures -TWO_127 < v < 0 ==> I128ToStr(v) == "-" + I128ToStr(0 - v)
    ensures v == -TWO_127 ==> I128ToStr(v) == "-" + I128ToStr(TWO_127 / 10) + ["0123456789"[TWO_127 % 10]]
  {
    var digits := "0123456789abcdef";
    if v >= 0 {
      assert digits[v % 10] == "0123456789"[v % 10];
    }
    assert digits[TWO_127 % 10] == "0123456789"[TWO_127 % 10];
  }

  // ── Integer casts ──

  /** Rust's `as i64` on a u64: the same 64 bits, read signed. */
  function AsI64(v: U64): I64 {
    if v < TWO_63 then v else v - TWO_64
  }

  function AsI32(v: U32): I32 {
    if v < TWO_31 then v else v - TWO_32
  }

  // The casts back.
  function AsU64(v: I64): U64 {
    if v < 0 then v + TWO_64 else v
  }

  function AsU32(v: I32): U32 {
    if v < 0 then v + TWO_32 else v
  }

  /**
   * Stored block numbers sort as the blocks do exactly when both lie on the same side of 2^63; each is stored as
   * itself exactly below it.
   */
  lemma {:induction false} StoredOrder(a: U64, b: U64)
    requires a < b
    ensures AsI64(a) < AsI64(b) <==> (a < TWO_63 <==> b < TWO_63)
    ensures AsI64(a) == a <==> a < TWO_63
  {
  }

  /** Likewise log indexes, in 32 bits. */
  lemma {:induction false} StoredLogOrder(a: U32, b: U32)
    requires a < b
    ensures AsI32(a) < AsI32(b) <==> (a < TWO_31 <==> b < TWO_31)
    ensures AsI32(a) == a <==> a < TWO_31
  {
  }

  /** The first numbers that come out of order: each is stored below its predecessor. */
  lemma {:induction false} StoredOutOfOrder()
    ensures AsI64(9223372036854775808) == -9223372036854775808 < AsI64(9223372036854775807)
    ensures AsI32(2147483648) == -2147483648 < AsI32(2147483647)
  {
  }

  /** Both casts keep the bits: what is stored is congruent to the number modulo 2^64, or 2^32. */
  lemma {:induction false} CastKeepsBits(v: U64, w: U32)
    ensures (v - AsI64(v)) % TWO_64 == 0 && -TWO_64 <= 2 * AsI64(v) < TWO_64 == Pow256(8)
    ensures (w - AsI32(w)) % TWO_32 == 0 && -TWO_32 <= 2 * AsI32(w) < TWO_32 == Pow256(4)
  {
    assert Pow256(4) == TWO_32;
    assert Pow256(8) == TWO_64;
  }

  // ── Rows ──

  /** How the address library prints an address and a hash; not part of this repository. */
  datatype TextForms = TextForms(address: Address -> string, hash: B256 -> string)

  /** Readers that undo those texts, where such readers exist. */
  datatype TextReaders = TextReaders(address: string -> Option<Address>, hash: string -> Option<B256>)

  ghost predicate Undo(readers: TextReaders, text: TextForms) {
    && (forall a: Address :: readers.address(text.address(a)) == Some(a))
    && (forall h: B256 :: readers.hash(text.hash(h)) == Some(h))
  }

  datatype SwapEvent = SwapEvent(
    pool: Address, block: U64, ts: U64, tx: B256, logIdx: U32, sender: Address, recipient: Address,
    amount0: I128, amount1: I128, sqrtPrice: U256, liquidity: U128, tick: I32)

  datatype SwapRow = SwapRow(
    poolAddress: string, blockNumber: I64, txHash: string, logIndex: I32, blockTimestamp: I64, sender: string,
    recipient: string, amount0: string, amount1: string, sqrtPriceX96: string, liquidity: string, tick: I32)

  function NewSwapRow(e: SwapEvent, text: TextForms): SwapRow {
    SwapRow(
      poolAddress := text.address(e.pool),
      blockNumber := AsI64(e.block),
      blockTimestamp := AsI64(e.ts),
      txHash := text.hash(e.tx),
      logIndex := AsI32(e.logIdx),
      sender := text.address(e.sender),
      recipient := text.address(e.recipient),
      amount0 := I128ToStr(e.amount0),
      amount1 := I128ToStr(e.amount1),
      sqrtPriceX96 := U256ToHex(e.sqrtPrice),
      liquidity := U128ToHex(e.liquidity),
      tick := e.tick)
  }

  datatype LiquidityChangeKind = Mint | Burn

  function KindAsStr(kind: LiquidityChangeKind): string {
    match kind
    case Mint => "mint"
    case Burn => "burn"
  }

  function KindFromStr(s: string): Option<LiquidityChangeKind> {
    if s == "mint" then Some(Mint) else if s == "burn" then Some(Burn) else None
  }

  lemma {:induction false} KindLossless(kind: LiquidityChangeKind, s: string)
    ensures KindFromStr(s) == Some(kind) <==> s == KindAsStr(kind)
  {
    assert "mint"[0] != "burn"[0];
  }

  datatype LiquidityEvent = LiquidityEvent(
    kind: LiquidityChangeKind, pool: Address, block: U64, ts: U64, tx: B256, logIdx: U32, owner: Address,
    sender: Option<Address>, tickLower: I32, tickUpper: I32, amount: U128, amount0: U128, amount1: U128)

  datatype LiquidityChangeRow = LiquidityChangeRow(
    eventType: string, poolAddress: string, blockNumber: I64, txHash: string, logIndex: I32, blockTimestamp: I64,
    owner: string, sender: Option<string>, tickLower: I32, tickUpper: I32, amount: string, amount0: string,
    amount1: string)

  function NewLiquidityChangeRow(e: LiquidityEvent, text: TextForms): LiquidityChangeRow {
    LiquidityChangeRow(
      eventType := KindAsStr(e.kind),
      poolAddress := text.address(e.pool),
      blockNumber := AsI64(e.block),
      blockTimestamp := AsI64(e.ts),
      txHash := text.hash(e.tx),
      logIndex := AsI32(e.logIdx),
      owner := text.address(e.owner),
      sender := match e.sender case Some(a) => Some(text.address(a)) case None => None,
      tickLower := e.tickLower,
      tickUpper := e.tickUpper,
      amount := U128ToHex(e.amount),
      amount0 := U128ToHex(e.amount0),
      amount1 := U128ToHex(e.amount1))
  }

  ghost predicate InjectiveText(text: TextForms) {
    && (forall a, b :: text.address(a) == text.address(b) ==> a == b)
    && (forall a, b :: text.hash(a) == text.hash(b) ==> a == b)
  }

  /** Every column of a swap row reads back to the event field it stands for. */
  lemma {:induction false} SwapRowReadsBack(e: SwapEvent, text: TextForms, readers: TextReaders)
    requires Undo(readers, text)
    ensures var row := NewSwapRow(e, text);
      && readers.address(row.poolAddress) == Some(e.pool)
      && AsU64(row.blockNumber) == e.block
      && readers.hash(row.txHash) == Some(e.tx)
      && AsU32(row.logIndex) == e.logIdx
      && AsU64(row.blockTimestamp) == e.ts
      && readers.address(row.sender) == Some(e.sender)
      && readers.address(row.recipient) == Some(e.recipient)
      && FromStr(row.amount0) == Some(e.amount0)
      && FromStr(row.amount1) == Some(e.amount1)
      && FromHex(row.sqrtPriceX96, TWO_256) == Some(e.sqrtPrice)
      && FromHex(row.liquidity, TWO_128) == Some(e.liquidity)
      && row.tick == e.tick
  {
    I128StrLossless(e.amount0, I128ToStr(e.amount0));
    I128StrLossless(e.amount1, I128ToStr(e.amount1));
    U256HexLossless(e.sqrtPrice, U256ToHex(e.sqrtPrice));
    U128HexLossless(e.liquidity, U128ToHex(e.liquidity));
  }

  /** Likewise every column of a liquidity row. */
  lemma {:induction false} LiquidityRowReadsBack(e: LiquidityEvent, text: TextForms, readers: TextReaders)
    requires Undo(readers, text)
    ensures var row := NewLiquidityChangeRow(e, text);
      && KindFromStr(row.eventType) == Some(e.kind)
      && readers.address(row.poolAddress) == Some(e.pool)
      && AsU64(row.blockNumber) == e.block
      && readers.hash(row.txHash) == Some(e.tx)
      && AsU32(row.logIndex) == e.logIdx
      && AsU64(row.blockTimestamp) == e.ts
      && readers.address(row.owner) == Some(e.owner)
      && (row.sender.None? <==> e.sender.None?)
      && (row.sender.Some? ==> readers.address(row.sender.value) == e.sender)
      && row.tickLower == e.tickLower && row.tickUpper == e.tickUpper
      && FromHex(row.amount, TWO_128) == Some(e.amount)
      && FromHex(row.amount0, TWO_128) == Some(e.amount0)
      && FromHex(row.amount1, TWO_128) == Some(e.amount1)
  {
    KindLossless(e.kind, KindAsStr(e.kind));
    U128HexLossless(e.amount, U128ToHex(e.amount));
    U128HexLossless(e.amount0, U128ToHex(e.amount0));
    U128HexLossless(e.amount1, U128ToHex(e.amount1));
  }

  lemma {:induction false} U128HexDetermines(a: U128, b: U128)
    requires U128ToHex(a) == U128ToHex(b)
    ensures a == b
  {
    U128HexLossless(a, U128ToHex(a));
    U128HexLossless(b, U128ToHex(b));
  }

  lemma {:induction false} U256HexDetermines(a: U256, b: U256)
    requires U256ToHex(a) == U256ToHex(b)
    ensures a == b
  {
    U256HexLossless(a, U256ToHex(a));
    U256HexLossless(b, U256ToHex(b));
  }

  lemma {:induction false} I128StrDetermines(a: I128, b: I128)
    requires I128ToStr(a) == I128ToStr(b)
    ensures a == b
  {
    I128StrLossless(a, I128ToStr(a));
    I128StrLossless(b, I128ToStr(b));
  }

  lemma {:induction false} SwapRowDetermines(a: SwapEvent, b: SwapEvent, text: TextForms)
    requires InjectiveText(text) && NewSwapRow(a, text) == NewSwapRow(b, text)
    ensures a == b
  {
    I128StrDetermines(a.amount0, b.amount0);
    I128StrDetermines(a.amount1, b.amount1);
    U256HexDetermines(a.sqrtPrice, b.sqrtPrice);
    U128HexDetermines(a.liquidity, b.liquidity);
  }

  /**
   * A swap row determines its event, for every pair of events, exactly when the library's address and hash texts
   * are injective.
   */
  lemma {:induction false} SwapRowInjectiveIff(text: TextForms)
    ensures (forall a, b :: NewSwapRow(a, text) == NewSwapRow(b, text) ==> a == b) <==> InjectiveText(text)
  {
    if InjectiveText(text) {
      forall a, b | NewSwapRow(a, text) == NewSwapRow(b, text) ensures a == b {
        SwapRowDetermines(a, b, text);
      }
    } else {
      var zero := SwapEvent(0, 0, 0, 0, 0, 0, 0, 0, 0, 0, 0, 0);
      if a, b :| text.address(a) == text.address(b) && a != b {
        assert NewSwapRow(zero.(pool := a), text) == NewSwapRow(zero.(pool := b), text);
      } else {
        var a, b :| text.hash(a) == text.hash(b) && a != b;
        assert NewSwapRow(zero.(tx := a), text) == NewSwapRow(zero.(tx := b), text);
      }
    }
  }

  lemma {:induction false} LiquidityRowDetermines(a: LiquidityEvent, b: LiquidityEvent, text: TextForms)
    requires InjectiveText(text) && NewLiquidityChangeRow(a, text) == NewLiquidityChangeRow(b, text)
    ensures a == b
  {
    KindLossless(a.kind, KindAsStr(a.kind));
    KindLossless(b.kind, KindAsStr(a.kind));
    U128HexDetermines(a.amount, b.amount);
    U128HexDetermines(a.amount0, b.amount0);
    U128HexDetermines(a.amount1, b.amount1);
  }

  /** Likewise for liquidity rows, mint and burn kinds and the optional sender included. */
  lemma {:induction false} LiquidityRowInjectiveIff(text: TextForms)
    ensures (forall a, b :: NewLiquidityChangeRow(a, text) == NewLiquidityChangeRow(b, text) ==> a == b)
      <==> InjectiveText(text)
  {
    if InjectiveText(text) {
      forall a, b | NewLiquidityChangeRow(a, text) == NewLiquidityChangeRow(b, text) ensures a == b {
        LiquidityRowDetermines(a, b, text);
      }
    } else {
      var zero := LiquidityEvent(Mint, 0, 0, 0, 0, 0, 0, None, 0, 0, 0, 0, 0);
      if a, b :| text.address(a) == text.address(b) && a != b {
        assert NewLiquidityChangeRow(zero.(pool := a), text) == NewLiquidityChangeRow(zero.(pool := b), text);
      } else {
        var a, b :| text.hash(a) == text.hash(b) && a != b;
        assert NewLiquidityChangeRow(zero.(tx := a), text) == NewLiquidityChangeRow(zero.(tx := b), text);
      }
    }
  }
}
