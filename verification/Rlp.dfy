/**
 * RLP (Yellow Paper, Appendix B) as far as the upgrade message needs it: item headers, one-byte scalars, booleans,
 * and a list holding one boolean. Decoding accepts canonical encodings only.
 */
module Rlp {
  import opened Wrappers
  import opened Bytes

  datatype Error =
    | InputTooShort
    | NonCanonicalSingleByte
    | NonCanonicalSize
    | LeadingZero
    | Overflow
    | UnexpectedList
    | UnexpectedString
    | ListLengthMismatch
    | Custom(message: string)

  /** An item's kind and payload length, and the input from the payload on. */
  datatype Header = Header(list: bool, payload: nat, rest: seq<Byte>)

  /** A decoded value and the input after it. */
  datatype Item<T> = Item(value: T, rest: seq<Byte>)

  function Checked(list: bool, payload: nat, rest: seq<Byte>): Result<Header, Error> {
    if |rest| < payload then Failure(InputTooShort) else Success(Header(list, payload, rest))
  }

  function LongHeader(list: bool, sizeBytes: nat, rest: seq<Byte>): Result<Header, Error> {
    if |rest| < sizeBytes then Failure(InputTooShort)
    else if sizeBytes > 0 && rest[0] == 0 then Failure(LeadingZero)
    else
      var payload := BigEndian(rest[..sizeBytes]);
      if payload < 56 then Failure(NonCanonicalSize) else Checked(list, payload, rest[sizeBytes..])
  }

  function DecodeHeader(input: seq<Byte>): (r: Result<Header, Error>)
    ensures r.Success? ==> r.value.payload <= |r.value.rest|
  {
    if input == [] then Failure(InputTooShort)
    else
      var b, rest := input[0], input[1..];
      if b < 0x80 then Checked(false, 1, input)
      else if b <= 0xb7 then
        if b == 0x81 && rest == [] then Failure(InputTooShort)
        else if b == 0x81 && rest[0] < 0x80 then Failure(NonCanonicalSingleByte)
        else Checked(false, b - 0x80, rest)
      else if b <= 0xbf then LongHeader(false, b - 0xb7, rest)
      else if b <= 0xf7 then Checked(true, b - 0xc0, rest)
      else LongHeader(true, b - 0xf7, rest)
  }

  /** A scalar of one byte: at most one payload byte, and that one not zero. */
  function DecodeU8(input: seq<Byte>): Result<Item<Byte>, Error> {
    match DecodeHeader(input)
    case Failure(e) => Failure(e)
    case Success(Header(list, payload, rest)) =>
      if list then Failure(UnexpectedList)
      else if payload > 1 then Failure(Overflow)
      else if payload == 0 then Success(Item(0, rest))
      else if rest[0] == 0 then Failure(LeadingZero)
      else Success(Item(rest[0], rest[1..]))
  }

  function EncodeU8(v: Byte): seq<Byte> {
    if v == 0 then [0x80] else if v < 0x80 then [v] else [0x81, v]
  }

  function DecodeBool(input: seq<Byte>): Result<Item<bool>, Error> {
    match DecodeU8(input)
    case Failure(e) => Failure(e)
    case Success(Item(v, rest)) =>
      if v > 1 then Failure(Custom("invalid bool value, must be 0 or 1")) else Success(Item(v == 1, rest))
  }

  function EncodeBool(v: bool): seq<Byte> {
    EncodeU8(if v then 1 else 0)
  }

  /**
   * A scalar decodes, to this value and leaving this rest, exactly when the input is its encoding followed by the
   * rest.
   */
  lemma {:induction false} U8RoundTrip(input: seq<Byte>, v: Byte, rest: seq<Byte>)
    ensures DecodeU8(input) == Success(Item(v, rest)) <==> input == EncodeU8(v) + rest
  {
    var whole := EncodeU8(v) + rest;
    assert whole[1..] == if v < 0x80 then rest else [v] + rest;
    assert v >= 0x80 ==> whole[1..][1..] == rest;
    if DecodeU8(input) == Success(Item(v, rest)) {
      if input[0] > 0xb7 {
        LongIsLong(input);
      } else if input[0] == 0x80 {
        assert input == [0x80] + input[1..];
      } else if input[0] < 0x80 {
        assert input == [input[0]] + input[1..];
      } else {
        assert input == [0x81, input[1]] + input[1..][1..];
      }
    }
  }

  /** A long-form string never holds a one-byte scalar. */
  lemma {:induction false} LongIsLong(input: seq<Byte>)
    requires input != [] && input[0] > 0xb7
    ensures DecodeU8(input).Failure?
  {
  }
}
