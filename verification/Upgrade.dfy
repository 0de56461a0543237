/** The BSC upgrade status message (src/network/upgrade.rs). */
module Upgrade {
  import opened Wrappers
  import opened Bytes
  import opened Rlp

  const UPGRADE_STATUS_MESSAGE_ID: Byte := 0x0b

  datatype UpgradeStatusExtension = UpgradeStatusExtension(disablePeerTxBroadcast: bool)
  datatype UpgradeStatus = UpgradeStatus(extension: UpgradeStatusExtension)

  // ── The extension: a list of one boolean ──

  function EncodeExtension(ext: UpgradeStatusExtension): seq<Byte> {
    [0xc0 + |EncodeBool(ext.disablePeerTxBroadcast)|] + EncodeBool(ext.disablePeerTxBroadcast)
  }

  function DecodeExtension(input: seq<Byte>): Result<Item<UpgradeStatusExtension>, Error> {
    match DecodeHeader(input)
    case Failure(e) => Failure(e)
    case Success(Header(list, payload, body)) =>
      if !list then Failure(UnexpectedString)
      else
        match DecodeBool(body)
        case Failure(e) => Failure(e)
        case Success(Item(flag, rest)) =>
          if |body| - |rest| != payload then Failure(ListLengthMismatch)
          else Success(Item(UpgradeStatusExtension(flag), rest))
  }

  lemma {:induction false} BoolRoundTrip(input: seq<Byte>, v: bool, rest: seq<Byte>)
    ensures DecodeBool(input) == Success(Item(v, rest)) <==> input == EncodeBool(v) + rest
  {
    U8RoundTrip(input, if v then 1 else 0, rest);
  }

  lemma {:induction false} ExtensionRoundTrip(input: seq<Byte>, ext: UpgradeStatusExtension, rest: seq<Byte>)
    ensures DecodeExtension(input) == Success(Item(ext, rest)) <==> input == EncodeExtension(ext) + rest
  {
    var flag := EncodeBool(ext.disablePeerTxBroadcast);
    var whole := EncodeExtension(ext) + rest;
    assert |flag| == 1 && whole[1..] == flag + rest;
    BoolRoundTrip(flag + rest, ext.disablePeerTxBroadcast, rest);
    if DecodeExtension(input) == Success(Item(ext, rest)) {
      var body := DecodeHeader(input).value.rest;
      BoolRoundTrip(body, ext.disablePeerTxBroadcast, rest);
      assert |body| - |rest| == 1;
      assert input == [input[0]] + input[1..];
    }
  }

  // ── The message ──

  /** Decoding may also panic: the skip after the id advances past the end of an exhausted buffer. */
  datatype Decoded = Ok(status: UpgradeStatus, rest: seq<Byte>) | Err(error: Error) | Panic

  function Decode(input: seq<Byte>): Decoded {
    match DecodeU8(input)
    case Failure(e) => Err(e)
    case Success(Item(id, rest)) =>
      if id != UPGRADE_STATUS_MESSAGE_ID then Err(Custom("Invalid message ID"))
      else if rest == [] then Panic
      else
        match DecodeExtension(rest[1..])
        case Failure(e) => Err(e)
        case Success(Item(ext, tail)) => Ok(UpgradeStatus(ext), tail)
  }

  function Encode(status: UpgradeStatus): seq<Byte> {
    EncodeU8(UPGRADE_STATUS_MESSAGE_ID) + EncodeExtension(status.extension)
  }

  /** The one payload byte of the extension's list: 1 as itself, 0 as the empty string. */
  function FlagByte(status: UpgradeStatus): Byte {
    if status.extension.disablePeerTxBroadcast then 0x01 else 0x80
  }

  /** The message on the wire: id 11, a list of one byte, the flag. */
  lemma {:induction false} MessageBytes(status: UpgradeStatus)
    ensures EncodeExtension(status.extension) == [0xc1, FlagByte(status)]
    ensures Encode(status) == [0x0b, 0xc1, FlagByte(status)]
  {
  }

  /** The framing the decoder expects: one byte, whatever it is, between the id and the extension. */
  function Framed(skipped: Byte, status: UpgradeStatus): seq<Byte> {
    [UPGRADE_STATUS_MESSAGE_ID, skipped] + EncodeExtension(status.extension)
  }

  lemma {:induction false} IdSplits(input: seq<Byte>, rest: seq<Byte>)
    ensures DecodeU8(input) == Success(Item(UPGRADE_STATUS_MESSAGE_ID, rest))
      <==> input == [UPGRADE_STATUS_MESSAGE_ID] + rest
  {
    U8RoundTrip(input, UPGRADE_STATUS_MESSAGE_ID, rest);
  }

  lemma {:induction false} FramedDecodes(skipped: Byte, status: UpgradeStatus, tail: seq<Byte>)
    ensures Decode(Framed(skipped, status) + tail) == Ok(status, tail)
  {
    var rest := [skipped] + (EncodeExtension(status.extension) + tail);
    assert Framed(skipped, status) + tail == [UPGRADE_STATUS_MESSAGE_ID] + rest;
    IdSplits(Framed(skipped, status) + tail, rest);
    assert rest[1..] == EncodeExtension(status.extension) + tail;
    ExtensionRoundTrip(rest[1..], status.extension, tail);
  }

  /** The two items a successful decode has read, around the skipped byte. */
  lemma {:induction false} DecodedItems(input: seq<Byte>, status: UpgradeStatus, tail: seq<Byte>)
    returns (rest: seq<Byte>)
    requires Decode(input) == Ok(status, tail)
    ensures rest != []
    ensures DecodeU8(input) == Success(Item(UPGRADE_STATUS_MESSAGE_ID, rest))
    ensures DecodeExtension(rest[1..]) == Success(Item(status.extension, tail))
  {
    rest := DecodeU8(input).value.rest;
  }

  lemma {:induction false} DecodedWasFramed(input: seq<Byte>, status: UpgradeStatus, tail: seq<Byte>)
    returns (skipped: Byte)
    requires Decode(input) == Ok(status, tail)
    ensures input == Framed(skipped, status) + tail
  {
    var rest := DecodedItems(input, status, tail);
    IdSplits(input, rest);
    ExtensionRoundTrip(rest[1..], status.extension, tail);
    skipped := rest[0];
    FramedSplits(skipped, rest[1..], status, tail);
    assert rest == [skipped] + rest[1..];
  }

  lemma {:induction false} FramedSplits(skipped: Byte, body: seq<Byte>, status: UpgradeStatus, tail: seq<Byte>)
    requires body == EncodeExtension(status.extension) + tail
    ensures [UPGRADE_STATUS_MESSAGE_ID] + ([skipped] + body) == Framed(skipped, status) + tail
  {
  }

  /**
   * For every skipped byte and tail the framed message decodes to its status and leaves exactly the tail, and
   * nothing else decodes to them.
   */
  lemma {:induction false} DecodesExactlyFramed(input: seq<Byte>, status: UpgradeStatus, tail: seq<Byte>)
    ensures Decode(input) == Ok(status, tail) <==> exists skipped: Byte :: input == Framed(skipped, status) + tail
  {
    if Decode(input) == Ok(status, tail) {
      var skipped := DecodedWasFramed(input, status, tail);
    }
    forall skipped: Byte | input == Framed(skipped, status) + tail ensures Decode(input) == Ok(status, tail) {
      FramedDecodes(skipped, status, tail);
    }
  }

  /** Byte for byte: what decodes is id 11, any one byte, a list of one byte, the flag, and the tail left over. */
  lemma {:induction false} AcceptsExactlyBytes(input: seq<Byte>, status: UpgradeStatus, tail: seq<Byte>)
    ensures Decode(input) == Ok(status, tail)
      <==> exists skipped: Byte :: input == [0x0b, skipped, 0xc1, FlagByte(status)] + tail
  {
    DecodesExactlyFramed(input, status, tail);
    forall skipped: Byte ensures Framed(skipped, status) == [0x0b, skipped, 0xc1, FlagByte(status)] {
      MessageBytes(status);
    }
  }

  /** Any other id is read and refused by name, whatever follows it. */
  lemma {:induction false} WrongIdRejected(id: Byte, rest: seq<Byte>)
    requires id != 0x0b
    ensures Decode(EncodeU8(id) + rest) == Err(Custom("Invalid message ID"))
  {
    U8RoundTrip(EncodeU8(id) + rest, id, rest);
  }

  /**
   * What `into_rlpx` writes is rejected by `decode`, whatever follows it: the skip eats the extension's list
   * header.
   */
  lemma {:induction false} UnframedRejected(status: UpgradeStatus, tail: seq<Byte>)
    ensures Decode(Encode(status) + tail) == Err(UnexpectedString)
  {
    var flag := EncodeBool(status.extension.disablePeerTxBroadcast);
    var rest := EncodeExtension(status.extension) + tail;
    assert |flag| == 1 && rest[1..] == flag + tail;
    assert Encode(status) + tail == [UPGRADE_STATUS_MESSAGE_ID] + rest;
    IdSplits(Encode(status) + tail, rest);
  }

  /** Decoding panics on exactly one input: the id alone. */
  lemma {:induction false} PanicsOnlyOnBareId(input: seq<Byte>)
    ensures Decode(input) == Panic <==> input == [UPGRADE_STATUS_MESSAGE_ID]
  {
    IdSplits(input, []);
    if Decode(input) == Panic {
      assert DecodeU8(input) == Success(Item(UPGRADE_STATUS_MESSAGE_ID, []));
    }
    assert [UPGRADE_STATUS_MESSAGE_ID] + [] == [UPGRADE_STATUS_MESSAGE_ID];
  }

  // ── Buffers ──

  /** A growable output buffer. */
  class ByteSink {
    var bytes: seq<Byte>

    constructor ()
      ensures bytes == []
    {
      bytes := [];
    }

    method Put(more: seq<Byte>)
      modifies this
      ensures bytes == old(bytes) + more
    {
      bytes := bytes + more;
    }
  }

  /** `rest` is what is left of `input` from some point on. */
  predicate Suffix(rest: seq<Byte>, input: seq<Byte>) {
    |rest| <= |input| && rest == input[|input| - |rest|..]
  }

  /** An input slice that decoding advances in place. After an error it stands where the library left it. */
  class ByteCursor {
    var rest: seq<Byte>

    constructor (input: seq<Byte>)
      ensures rest == input
    {
      rest := input;
    }

    /** Advancing past the end is a panic. */
    method Advance(count: nat)
      requires count <= |rest|
      modifies this
      ensures rest == old(rest)[count..]
    {
      rest := rest[count..];
    }

    method TakeU8() returns (r: Result<Byte, Error>)
      modifies this
      ensures match DecodeU8(old(rest))
        case Success(Item(v, after)) => r == Success(v) && rest == after
        case Failure(e) => r == Failure(e) && Suffix(rest, old(rest))
    {
      match DecodeU8(rest) {
        case Success(Item(v, after)) =>
          rest := after;
          r := Success(v);
        case Failure(e) =>
          r := Failure(e);
      }
    }

    method TakeExtension() returns (r: Result<UpgradeStatusExtension, Error>)
      modifies this
      ensures match DecodeExtension(old(rest))
        case Success(Item(v, after)) => r == Success(v) && rest == after
        case Failure(e) => r == Failure(e) && Suffix(rest, old(rest))
    {
      match DecodeExtension(rest) {
        case Success(Item(v, after)) =>
          rest := after;
          r := Success(v);
        case Failure(e) =>
          r := Failure(e);
      }
    }
  }

  method EncodeInto(status: UpgradeStatus, out: ByteSink)
    modifies out
    ensures out.bytes == old(out.bytes) + Encode(status)
    ensures out.bytes == old(out.bytes) + [0x0b, 0xc1, FlagByte(status)]
  {
    MessageBytes(status);
    out.Put(EncodeU8(UPGRADE_STATUS_MESSAGE_ID));
    out.Put(EncodeExtension(status.extension));
  }

  /**
   * Everything but the bare id may be decoded. On success the cursor stands at the bytes after the message, after a
   * wrong id just past it, and after a bad extension somewhere behind the skipped byte.
   */
  method DecodeFrom(input: ByteCursor) returns (r: Result<UpgradeStatus, Error>)
    requires input.rest != [UPGRADE_STATUS_MESSAGE_ID]
    modifies input
    ensures match Decode(old(input.rest))
      case Ok(status, after) => r == Success(status) && input.rest == after
      case Err(e) => r == Failure(e)
      case Panic => false
    ensures match DecodeU8(old(input.rest))
      case Failure(_) => Suffix(input.rest, old(input.rest))
      case Success(Item(id, after)) =>
        if id != UPGRADE_STATUS_MESSAGE_ID then input.rest == after
        else after != [] && (r.Failure? ==> Suffix(input.rest, after[1..]))
  {
    PanicsOnlyOnBareId(input.rest);
    var id := input.TakeU8();
    if id.Failure? {
      return Failure(id.error);
    }
    if id.value != UPGRADE_STATUS_MESSAGE_ID {
      return Failure(Custom("Invalid message ID"));
    }
    input.Advance(1);
    var ext := input.TakeExtension();
    if ext.Failure? {
      return Failure(ext.error);
    }
    r := Success(UpgradeStatus(ext.value));
  }

  method IntoRlpx(status: UpgradeStatus) returns (bytes: seq<Byte>)
    ensures bytes == Encode(status) == [0x0b, 0xc1, FlagByte(status)]
    ensures forall tail :: Decode(bytes + tail).Err?
  {
    var out := new ByteSink();
    EncodeInto(status, out);
    bytes := out.bytes;
    assert [] + Encode(status) == Encode(status);
    MessageBytes(status);
    forall tail ensures Decode(bytes + tail).Err? {
      UnframedRejected(status, tail);
    }
  }
}
