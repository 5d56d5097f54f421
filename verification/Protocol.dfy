/** Gizwits framing (integrations/bestway/protocol.py): varints, frames, control payloads.
    The varint is unsigned LEB128 (section 7.6 of DWARF Version 5), capped at four bytes. */
module Protocol {
  import opened Basics

  newtype byte = x: int | 0 <= x < 256
  newtype uint16 = x: int | 0 <= x < 0x1_0000

  const MAX_PAYLOAD_BYTES := 2048
  const MAX_VARINT_BYTES := 4
  const MAGIC: seq<byte> := [0, 0, 0, 3]

  // -- varints

  /** Seven bits per byte, low group first, the top bit set on all but the last. */
  function VarintBytes(v: nat): (r: seq<byte>)
    ensures r != []
  {
    if v < 128 then [v as byte] else [(v % 128 + 128) as byte] + VarintBytes(v / 128)
  }

  function Pow128(n: nat): (p: nat)
    ensures p >= 1
  {
    if n == 0 then 1 else 128 * Pow128(n - 1)
  }

  lemma {:induction false} VarintLength(v: nat, n: nat)
    requires n > 0
    ensures |VarintBytes(v)| <= n <==> v < Pow128(n)
  {
    if n == 1 {
      assert Pow128(1) == 128 * Pow128(0);
    } else if v >= 128 {
      VarintLength(v / 128, n - 1);
    }
  }

  /** `encode_varint`: the bytes, or nothing for a value it refuses. */
  method EncodeVarint(value: int) returns (r: Option<seq<byte>>)
    ensures r.Some? <==> 0 <= value < 0x1000_0000
    ensures r.Some? ==> r.value == VarintBytes(value)
  {
    VarintLimit(value);
    if value < 0 {
      return None;
    }
    var out: seq<byte> := [];
    var rest := value;
    while true
      invariant 0 <= rest && |out| < MAX_VARINT_BYTES
      invariant out + VarintBytes(rest) == VarintBytes(value)
      decreases rest
    {
      var group := rest % 128;
      rest := rest / 128;
      if rest == 0 {
        out := out + [group as byte];
        break;
      }
      out := out + [(group + 128) as byte];
      if |out| >= MAX_VARINT_BYTES {
        return None;
      }
    }
    r := Some(out);
  }

  lemma VarintLimit(v: int)
    ensures v >= 0 ==> (|VarintBytes(v)| <= MAX_VARINT_BYTES <==> v < 0x1000_0000)
  {
    if v >= 0 { VarintLength(v, 4); }
    assert Pow128(4) == 0x1000_0000 by {
      assert Pow128(1) == 128 && Pow128(2) == 128 * Pow128(1) && Pow128(3) == 128 * Pow128(2);
    }
  }

  datatype Varint = Value(value: nat, consumed: nat) | Truncated | TooLong

  /** What `decode_varint` finds at `offset` with `left` bytes still allowed. */
  function VarintAt(data: seq<byte>, offset: nat, left: nat): (r: Varint)
    ensures r.Value? ==> 0 < r.consumed <= left && offset + r.consumed <= |data|
    decreases |data| - offset
  {
    if left == 0 then TooLong
    else if offset >= |data| then Truncated
    else if data[offset] < 128 then Value(data[offset] as int, 1)
    else match VarintAt(data, offset + 1, left - 1)
      case Value(v, n) => Value((data[offset] as int - 128) + 128 * v, n + 1)
      case other => other
  }

  /** `value | group << (7 * index)`, for a group whose place in `value` is still empty. */
  function Placed(value: nat, scale: nat, group: nat): nat { value + scale * group }

  /** The answer of the whole, from what was gathered so far and the answer of the rest. */
  function Gathered(value: nat, scale: nat, index: nat, rest: Varint): Varint {
    match rest
    case Value(v, n) => Value(Placed(value, scale, v), n + index)
    case other => other
  }

  /** `decode_varint`. */
  method DecodeVarint(data: seq<byte>, offset: nat) returns (r: Varint)
    ensures r == VarintAt(data, offset, MAX_VARINT_BYTES)
  {
    var value: nat, scale: nat, left: nat, index: nat := 0, 1, MAX_VARINT_BYTES, 0;
    ghost var goal := VarintAt(data, offset, left);
    assert goal == Gathered(0, 1, 0, goal);
    while left > 0
      invariant goal == Gathered(value, scale, index, VarintAt(data, offset + index, left))
    {
      var position := offset + index;
      if position >= |data| {
        return Truncated;
      }
      if data[position] < 128 {
        return Value(Placed(value, scale, data[position] as int), index + 1);
      }
      GatherStep(data, position, left, value, scale, index);
      value, scale := Placed(value, scale, data[position] as int - 128), scale * 128;
      left, index := left - 1, index + 1;
    }
    r := TooLong;
  }

  lemma GatherStep(data: seq<byte>, position: nat, left: nat, value: nat, scale: nat, index: nat)
    requires left > 0 && position < |data| && data[position] >= 128
    ensures Gathered(value, scale, index, VarintAt(data, position, left))
            == Gathered(Placed(value, scale, data[position] as int - 128), scale * 128, index + 1,
                        VarintAt(data, position + 1, left - 1))
  {
    var rest := VarintAt(data, position + 1, left - 1);
    if rest.Value? {
      ScaledGroup(scale, data[position] as int - 128, rest.value);
    }
  }

  lemma ScaledGroup(scale: int, group: int, v: int)
    ensures scale * (group + 128 * v) == scale * group + (scale * 128) * v
  {
    assert scale * (group + 128 * v) == scale * group + scale * (128 * v);
    assert scale * (128 * v) == (scale * 128) * v;
  }

  /** Decoding what was encoded, whatever follows, gives back the value and its length. */
  lemma {:induction false} VarintRoundTrip(before: seq<byte>, v: nat, tail: seq<byte>, left: nat)
    requires |VarintBytes(v)| <= left
    ensures VarintAt(before + VarintBytes(v) + tail, |before|, left) == Value(v, |VarintBytes(v)|)
    decreases v
  {
    var data := before + VarintBytes(v) + tail;
    if v >= 128 {
      var head := [(v % 128 + 128) as byte];
      VarintRoundTrip(before + head, v / 128, tail, left - 1);
      assert (before + head) + VarintBytes(v / 128) + tail == data;
    }
  }

  /** A varint cut short before its last byte is truncated, not wrong. */
  lemma {:induction false} VarintPrefix(before: seq<byte>, v: nat, cut: nat, left: nat)
    requires |VarintBytes(v)| <= left && cut < |VarintBytes(v)|
    ensures VarintAt(before + VarintBytes(v)[..cut], |before|, left) == Truncated
    decreases v
  {
    if cut > 0 {
      var head := [(v % 128 + 128) as byte];
      VarintPrefix(before + head, v / 128, cut - 1, left - 1);
      assert (before + head) + VarintBytes(v / 128)[..cut - 1] == before + VarintBytes(v)[..cut];
    }
  }

  /** More bytes do not change a verdict other than "truncated". */
  lemma {:induction false} VarintStable(data: seq<byte>, more: seq<byte>, offset: nat, left: nat)
    requires !VarintAt(data, offset, left).Truncated?
    ensures VarintAt(data + more, offset, left) == VarintAt(data, offset, left)
    decreases left
  {
    if left > 0 && offset < |data| && data[offset] >= 128 {
      VarintStable(data, more, offset + 1, left - 1);
    }
  }

  /** Decoding is not injective: padded varints are accepted too. What was decoded is the encoding of its
      value exactly when it is a single byte or does not end in a zero byte. */
  lemma {:induction false} CanonicalIff(data: seq<byte>, offset: nat, left: nat)
    requires VarintAt(data, offset, left).Value?
    ensures var r := VarintAt(data, offset, left);
            data[offset..offset + r.consumed] == VarintBytes(r.value)
            <==> r.consumed == 1 || data[offset + r.consumed - 1] != 0
    decreases left
  {
    var r := VarintAt(data, offset, left);
    if data[offset] >= 128 {
      CanonicalIff(data, offset + 1, left - 1);
      var rest := VarintAt(data, offset + 1, left - 1);
      assert data[offset..offset + r.consumed] == [data[offset]] + data[offset + 1..offset + 1 + rest.consumed];
      if rest.value > 0 {
        var tail := data[offset + 1..offset + 1 + rest.consumed];
        assert VarintBytes(r.value) == [data[offset]] + VarintBytes(rest.value);
        assert ([data[offset]] + tail)[1..] == tail && VarintBytes(r.value)[1..] == VarintBytes(rest.value);
      } else {
        assert |VarintBytes(r.value)| == 1;
        PaddedZero(data, offset + 1, left - 1);
      }
    }
  }

  /** A varint that decodes to zero ends in a zero byte. */
  lemma {:induction false} PaddedZero(data: seq<byte>, offset: nat, left: nat)
    requires VarintAt(data, offset, left).Value? && VarintAt(data, offset, left).value == 0
    ensures data[offset + VarintAt(data, offset, left).consumed - 1] == 0
    decreases left
  {
    if data[offset] >= 128 { PaddedZero(data, offset + 1, left - 1); }
  }

  // -- frames

  datatype Frame = Frame(command: uint16, payload: seq<byte>, flag: byte)

  function Uint16Bytes(v: uint16): seq<byte> { [(v / 256) as byte, (v % 256) as byte] }

  function Body(f: Frame): (r: seq<byte>)
    ensures |r| == 3 + |f.payload|
  {
    [f.flag] + Uint16Bytes(f.command) + f.payload
  }

  /** `Frame.encode`. */
  function EncodeFrame(f: Frame): Option<seq<byte>> {
    if |f.payload| > MAX_PAYLOAD_BYTES then None else Some(Wire(f))
  }

  function Wire(f: Frame): seq<byte> { MAGIC + VarintBytes(|Body(f)|) + Body(f) }

  datatype Decoded = Got(frame: Frame, consumed: nat) | Incomplete | Malformed

  /** `decode_frame`: one frame from the head of `data`. */
  function DecodeFrame(data: seq<byte>): (r: Decoded)
    ensures r.Got? ==> 7 < r.consumed <= |data|
  {
    if |data| < |MAGIC| then Incomplete
    else if data[..|MAGIC|] != MAGIC then Malformed
    else match VarintAt(data, |MAGIC|, MAX_VARINT_BYTES)
      case Truncated => Incomplete
      case TooLong => Malformed
      case Value(length, consumed) =>
        if length > MAX_PAYLOAD_BYTES || length < 3 then Malformed
        else
          var start := |MAGIC| + consumed;
          if |data| < start + length then Incomplete
          else Got(FrameOf(data[start..start + length]), start + length)
  }

  function FrameOf(body: seq<byte>): Frame
    requires |body| >= 3
  {
    Frame(body[1] as int as uint16 * 256 + body[2] as int as uint16, body[3..], body[0])
  }

  lemma BodyRoundTrip(f: Frame)
    ensures FrameOf(Body(f)) == f
  {
    assert Body(f)[3..] == f.payload;
  }

  /** Decoding an encoded frame, with any bytes after it, gives it back exactly when its payload is at
      most 2045 bytes: encode bounds the payload, decode bounds the payload and the three header bytes. */
  lemma FrameRoundTripIff(f: Frame, tail: seq<byte>)
    requires EncodeFrame(f).Some?
    ensures var wire := EncodeFrame(f).value;
            && (DecodeFrame(wire + tail) == Got(f, |wire|) <==> |f.payload| <= 2045)
            && (|f.payload| > 2045 ==> DecodeFrame(wire + tail) == Malformed)
  {
    var body := Body(f);
    var length := VarintBytes(|body|);
    VarintLimit(|body|);
    var data := Wire(f) + tail;
    assert data == MAGIC + length + (body + tail);
    VarintRoundTrip(MAGIC, |body|, body + tail, MAX_VARINT_BYTES);
    assert data[..4] == MAGIC;
    var start := 4 + |length|;
    assert data[start..start + |body|] == body;
    BodyRoundTrip(f);
  }

  /** The number a varint stands for: seven bits a byte, least significant first. */
  function GroupsValue(bytes: seq<byte>): nat {
    if bytes == [] then 0 else bytes[0] as nat % 128 + 128 * GroupsValue(bytes[1..])
  }

  /** The top bit says that more follows. */
  ghost predicate Continued(bytes: seq<byte>) {
    bytes != [] && forall i :: 0 <= i < |bytes| ==> (bytes[i] >= 128 <==> i < |bytes| - 1)
  }

  lemma {:induction false} VarintOnTheWire(v: nat)
    ensures GroupsValue(VarintBytes(v)) == v && Continued(VarintBytes(v))
  {
    if v >= 128 {
      VarintOnTheWire(v / 128);
      assert VarintBytes(v)[1..] == VarintBytes(v / 128);
    }
  }

  /** An encoded frame, byte by byte: four fixed bytes, the length of the rest as a varint, the flag byte, the
      command with its high byte first, and the payload. */
  lemma FrameOnTheWire(f: Frame) returns (length: seq<byte>)
    requires EncodeFrame(f).Some?
    ensures Continued(length) && GroupsValue(length) == |f.payload| + 3
    ensures var wire, n := EncodeFrame(f).value, 4 + |length|;
            && wire[..4] == [0, 0, 0, 3] && |wire| == n + 3 + |f.payload| && wire[4..n] == length
            && wire[n] == f.flag && wire[n + 3..] == f.payload
            && wire[n + 1] as int * 256 + wire[n + 2] as int == f.command as int
  {
    length := VarintBytes(|Body(f)|);
    VarintOnTheWire(|Body(f)|);
    assert Wire(f) == MAGIC + length + ([f.flag] + Uint16Bytes(f.command) + f.payload);
  }

  /** Every strict prefix of an encoded frame is merely incomplete. */
  lemma FramePrefix(f: Frame, cut: nat)
    requires |f.payload| <= 2045 && cut < |Wire(f)|
    ensures DecodeFrame(Wire(f)[..cut]) == Incomplete
  {
    var body, length := Body(f), VarintBytes(|Body(f)|);
    VarintLimit(|body|);
    var data := Wire(f)[..cut];
    if cut >= 4 {
      assert data[..4] == MAGIC;
      if cut < 4 + |length| {
        VarintPrefix(MAGIC, |body|, cut - 4, MAX_VARINT_BYTES);
        assert data == MAGIC + length[..cut - 4];
      } else {
        assert data == MAGIC + length + body[..cut - 4 - |length|];
        VarintRoundTrip(MAGIC, |body|, body[..cut - 4 - |length|], MAX_VARINT_BYTES);
      }
    }
  }

  /** More bytes do not change a verdict other than "incomplete". */
  lemma DecodeStable(data: seq<byte>, more: seq<byte>)
    requires !DecodeFrame(data).Incomplete?
    ensures DecodeFrame(data + more) == DecodeFrame(data)
  {
    var all := data + more;
    assert all[..4] == data[..4];
    if data[..4] == MAGIC {
      VarintStable(data, more, 4, MAX_VARINT_BYTES);
      match VarintAt(data, 4, MAX_VARINT_BYTES)
      case Value(length, consumed) =>
        if 3 <= length <= MAX_PAYLOAD_BYTES {
          assert all[4 + consumed..4 + consumed + length] == data[4 + consumed..4 + consumed + length];
        }
      case _ =>
    }
  }

  /** What is merely incomplete is short. */
  lemma IncompleteIsShort(data: seq<byte>)
    requires DecodeFrame(data).Incomplete?
    ensures |data| <= 2055
  {
    if |data| >= 4 && VarintAt(data, 4, MAX_VARINT_BYTES).Truncated? {
      TruncatedIsShort(data, 4, MAX_VARINT_BYTES);
    }
  }

  lemma {:induction false} TruncatedIsShort(data: seq<byte>, offset: nat, left: nat)
    requires VarintAt(data, offset, left).Truncated?
    ensures |data| < offset + left
    decreases left
  {
    if offset < |data| { TruncatedIsShort(data, offset + 1, left - 1); }
  }

  // -- fields and control payloads

  /** `encode_length_prefixed`. */
  function EncodeLengthPrefixed(field: seq<byte>): Option<seq<byte>> {
    if |field| > 0xFFFF then None else Some(Uint16Bytes(|field| as uint16) + field)
  }

  /** `decode_length_prefixed`: a payload whose first two bytes are not the length of the rest is taken
      as it is. */
  function DecodeLengthPrefixed(payload: seq<byte>): Option<seq<byte>> {
    if |payload| < 2 then None
    else if payload[0] as int * 256 + payload[1] as int == |payload| - 2 then Some(payload[2..])
    else if |payload| > MAX_PAYLOAD_BYTES then None
    else Some(payload)
  }

  /** A field survives the round trip, and an unprefixed one of permitted size passes through. */
  lemma LengthPrefixRoundTrip(field: seq<byte>)
    requires |field| <= 0xFFFF
    ensures DecodeLengthPrefixed(EncodeLengthPrefixed(field).value) == Some(field)
    ensures 2 <= |field| <= MAX_PAYLOAD_BYTES && field[0] as int * 256 + field[1] as int != |field| - 2 ==>
              DecodeLengthPrefixed(field) == Some(field)
  {
    var wire := EncodeLengthPrefixed(field).value;
    assert wire[2..] == field;
  }

  function Uint32Bytes(v: int): seq<byte>
    requires 0 <= v < 0x1_0000_0000
  {
    [(v / 0x100_0000) as byte, (v / 0x1_0000 % 256) as byte, (v / 256 % 256) as byte, (v % 256) as byte]
  }

  const P0_CONTROL: byte := 1

  /** `build_control_payload`. */
  function ControlPayload(sequence: int, flags: int, values: seq<byte>): Option<seq<byte>> {
    if !(0 <= sequence < 0x1_0000_0000) || !(0 <= flags < 0x1_0000) || values == [] then None
    else Some(Uint32Bytes(sequence) + [P0_CONTROL] + Uint16Bytes(flags as uint16) + values)
  }

  function Number(bytes: seq<byte>): nat {
    if bytes == [] then 0 else Number(bytes[..|bytes| - 1]) * 256 + bytes[|bytes| - 1] as int
  }

  /** A control payload can be read back field by field, big-endian. */
  lemma ControlPayloadFields(sequence: int, flags: int, values: seq<byte>)
    ensures var p := ControlPayload(sequence, flags, values);
            && (p.Some? <==> 0 <= sequence < 0x1_0000_0000 && 0 <= flags < 0x1_0000 && values != [])
            && (p.Some? ==>
                  && |p.value| == 7 + |values|
                  && Number(p.value[..4]) == sequence
                  && p.value[4] == P0_CONTROL
                  && Number(p.value[5..7]) == flags
                  && p.value[7..] == values)
  {
    var p := ControlPayload(sequence, flags, values);
    if p.Some? {
      assert p.value[..4] == Uint32Bytes(sequence);
      NumberOfFour(sequence);
      assert p.value[5..7] == Uint16Bytes(flags as uint16);
      NumberOfTwo(p.value[5..7]);
    }
  }

  lemma NumberOfTwo(b: seq<byte>)
    requires |b| == 2
    ensures Number(b) == b[0] as int * 256 + b[1] as int
  {
    assert b[..1][..0] == [];
    assert Number(b[..1]) == b[0] as int;
  }

  lemma NumberOfFour(v: int)
    requires 0 <= v < 0x1_0000_0000
    ensures Number(Uint32Bytes(v)) == v
  {
    var b := Uint32Bytes(v);
    NumberOfTwo(b[..2]);
    assert b[..3][..2] == b[..2];
    assert Number(b[..3]) == Number(b[..2]) * 256 + b[2] as int;
  }
}
