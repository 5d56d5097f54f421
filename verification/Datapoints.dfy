/** Datapoint layouts (integrations/bestway/datapoints.py): where a status block keeps each value, and the
    read-modify-write of a control request. A decoded bit is 0 or 1, as `bool` is a kind of `int` there. */
module Datapoints {
  import opened Basics
  import opened Protocol

  datatype Datapoint =
    | CURRENT_TEMPERATURE | TARGET_TEMPERATURE | HEATER | FILTER_PUMP | BUBBLES | CONTROL_PANEL_LOCK
    | UNIT_IS_FAHRENHEIT

  datatype Location = ByteAt(offset: nat) | BitAt(offset: nat, bit: nat)

  // -- bits

  function Pow2(n: nat): (p: nat)
    ensures p > 0
  {
    if n == 0 then 1 else 2 * Pow2(n - 1)
  }

  /** `b >> k & 1`. */
  function Bit(b: nat, k: nat): (r: nat)
    ensures r <= 1
    decreases k
  {
    if k == 0 then b % 2 else Bit(b / 2, k - 1)
  }

  /** `b | 1 << k`, or `b & ~(1 << k)`. */
  function SetTo(b: nat, k: nat, on: bool): nat
    decreases k
  {
    if k == 0 then b - b % 2 + (if on then 1 else 0) else b % 2 + 2 * SetTo(b / 2, k - 1, on)
  }

  lemma {:induction false} BitOfSet(b: nat, k: nat, on: bool, j: nat)
    ensures Bit(SetTo(b, k, on), j) == if j == k then (if on then 1 else 0) else Bit(b, j)
    decreases k
  {
    if k == 0 {
      if j > 0 { assert SetTo(b, k, on) / 2 == b / 2; }
    } else if j > 0 {
      BitOfSet(b / 2, k - 1, on, j - 1);
      assert SetTo(b, k, on) / 2 == SetTo(b / 2, k - 1, on);
    }
  }

  ghost predicate SameButBit(a: nat, b: nat, bit: nat) {
    forall k: nat :: k != bit ==> Bit(a, k) == Bit(b, k)
  }

  lemma OneBitSet(b: nat, bit: nat, on: bool)
    ensures SameButBit(SetTo(b, bit, on), b, bit)
  {
    forall k: nat | k != bit ensures Bit(SetTo(b, bit, on), k) == Bit(b, k) {
      BitOfSet(b, bit, on, k);
    }
  }

  lemma {:induction false} SetFits(b: nat, k: nat, on: bool, n: nat)
    requires b < Pow2(n) && k < n
    ensures SetTo(b, k, on) < Pow2(n)
    decreases k
  {
    if k > 0 { SetFits(b / 2, k - 1, on, n - 1); }
  }

  lemma EightBits()
    ensures Pow2(8) == 256
  {
    assert Pow2(4) == 16;
  }

  lemma {:induction false} BitOfPow2(n: nat, k: nat)
    ensures Bit(Pow2(n), k) == if k == n then 1 else 0
    decreases k
  {
    if n > 0 && k > 0 {
      BitOfPow2(n - 1, k - 1);
    } else if k > 0 {
      NoBits(k - 1);
    }
  }

  lemma {:induction false} NoBits(k: nat)
    ensures Bit(0, k) == 0
  {
    if k > 0 { NoBits(k - 1); }
  }

  // -- one location

  function ReadAt(l: Location, payload: seq<byte>): nat
    requires l.offset < |payload|
  {
    if l.ByteAt? then payload[l.offset] as nat else Bit(payload[l.offset] as nat, l.bit)
  }

  /** The byte that replaces `raw` when `value` is written at `l`, or none when it does not fit. */
  function Rewritten(l: Location, raw: byte, value: int): Option<byte> {
    if l.BitAt? then
      var b := SetTo(raw as nat, l.bit, value != 0);
      if b < 256 then Some(b as byte) else None
    else if 0 <= value <= 0xFF then Some(value as byte)
    else None
  }

  /** What can be read back from a location after `value` was written there. */
  function Held(l: Location, value: int): int {
    if l.ByteAt? then value else if value != 0 then 1 else 0
  }

  predicate Sound(l: Location) { l.offset < MAX_PAYLOAD_BYTES && (l.BitAt? ==> l.bit <= 7) }

  predicate Overlap(l: Location, m: Location) {
    l.offset == m.offset && (l.BitAt? && m.BitAt? ==> l.bit == m.bit)
  }

  lemma BitWriteFits(l: Location, raw: byte, value: int)
    requires Sound(l) && l.BitAt?
    ensures Rewritten(l, raw, value).Some?
  {
    EightBits();
    SetFits(raw as nat, l.bit, value != 0, 8);
  }

  /** A write that fits is read back as itself. */
  lemma WriteThenRead(l: Location, payload: seq<byte>, value: int)
    requires l.offset < |payload| && Rewritten(l, payload[l.offset], value).Some?
    ensures ReadAt(l, payload[l.offset := Rewritten(l, payload[l.offset], value).value]) == Held(l, value)
    ensures Held(l, value) == value <==> l.ByteAt? || value == 0 || value == 1
  {
    if l.BitAt? { BitOfSet(payload[l.offset] as nat, l.bit, value != 0, l.bit); }
  }

  /** What does not overlap the written location reads as before. */
  lemma WriteElsewhere(l: Location, m: Location, payload: seq<byte>, value: int)
    requires l.offset < |payload| && m.offset < |payload|
    requires Rewritten(l, payload[l.offset], value).Some? && !Overlap(l, m)
    ensures ReadAt(m, payload[l.offset := Rewritten(l, payload[l.offset], value).value]) == ReadAt(m, payload)
  {
    if l.offset == m.offset { BitOfSet(payload[l.offset] as nat, l.bit, value != 0, m.bit); }
  }

  /** Disjointness is needed, not just enough: in every payload some permitted write to a location
      changes what an overlapping one reads. */
  lemma OverlapDisturbs(l: Location, m: Location, payload: seq<byte>) returns (value: int)
    requires Sound(l) && Sound(m) && l.offset < |payload| && Overlap(l, m)
    ensures Rewritten(l, payload[l.offset], value).Some?
    ensures ReadAt(m, payload[l.offset := Rewritten(l, payload[l.offset], value).value]) != ReadAt(m, payload)
  {
    var raw := payload[l.offset] as nat;
    EightBits();
    if l.BitAt? {
      value := 1 - Bit(raw, l.bit);
      BitWriteFits(l, payload[l.offset], value);
      BitOfSet(raw, l.bit, value != 0, l.bit);
    } else {
      var k := if m.BitAt? then m.bit else 0;
      var on := Bit(raw, k) == 0;
      value := SetTo(raw, k, on);
      SetFits(raw, k, on, 8);
      BitOfSet(raw, k, on, k);
    }
  }

  // -- layouts

  datatype Profile = Profile(
    minimumLength: int, locations: map<Datapoint, Location>,
    minC: real, maxC: real, stepC: real,
    controlOffset: Option<int>, controlLength: Option<int>, flagBits: map<Datapoint, int>,
    trusted: bool, writable: set<Datapoint>)
  {
    /** What constructing a layout checks, and no more: not that locations are disjoint, not that the
        control block starts at or after zero, not that a flag bit is one of sixteen. */
    predicate Valid() {
      && 1 <= minimumLength <= MAX_PAYLOAD_BYTES
      && (forall d | d in locations :: Sound(locations[d]))
      && 0.0 <= minC <= 60.0 && 0.0 <= maxC <= 60.0 && minC < maxC
      && 0.0 < stepC <= 5.0
      && UNIT_IS_FAHRENHEIT !in writable
      && (forall d | d in writable :: d in locations && d in flagBits)
    }

    predicate Disjoint() {
      forall d, e | d in locations && e in locations && d != e :: !Overlap(locations[d], locations[e])
    }

    /** No other location overlaps the one of `d`. */
    predicate Apart(d: Datapoint) {
      d in locations ==> forall e | e in locations && e != d :: !Overlap(locations[d], locations[e])
    }

    predicate MayWrite(d: Datapoint) { trusted && d in writable }

    predicate FitsPayload(payload: seq<byte>) {
      |payload| >= minimumLength && forall d | d in locations :: locations[d].offset < |payload|
    }
  }

  function Decoded(p: Profile, payload: seq<byte>): Option<map<Datapoint, int>> {
    if !p.FitsPayload(payload) then None
    else Some(map d | d in p.locations :: ReadAt(p.locations[d], payload))
  }

  /** `decode`: nothing stands for the error. */
  method Decode(p: Profile, payload: seq<byte>) returns (r: Option<map<Datapoint, int>>)
    ensures r == Decoded(p, payload)
  {
    if |payload| < p.minimumLength {
      return None;
    }
    var found: map<Datapoint, int> := map[];
    var todo := p.locations.Keys;
    while todo != {}
      invariant todo <= p.locations.Keys && found.Keys == p.locations.Keys - todo
      invariant forall d :: d in found ==>
        p.locations[d].offset < |payload| && found[d] == ReadAt(p.locations[d], payload)
      decreases |todo|
    {
      var d :| d in todo;
      var l := p.locations[d];
      if l.offset >= |payload| {
        return None;
      }
      found := found[d := if l.BitAt? then Bit(payload[l.offset] as nat, l.bit) else payload[l.offset] as int];
      todo := todo - {d};
    }
    assert found == map d | d in p.locations :: ReadAt(p.locations[d], payload);
    r := Some(found);
  }

  // -- control requests

  datatype Refusal =
    | NOT_PERMITTED | NO_CONTROL_BLOCK | NO_BASE_BLOCK | NO_FLAG_BIT | NO_LOCATION | OUTSIDE_BLOCK
    | DOES_NOT_FIT | NEGATIVE_SHIFT

  datatype Encoded = Control(flags: nat, values: seq<byte>) | Refused(why: Refusal)

  /** Where Python's slicing puts a bound. */
  function Bound(i: int, n: nat): (b: nat)
    ensures b <= n
  {
    if i < 0 then (if i + n < 0 then 0 else i + n) else if i > n then n else i
  }

  /** `s[start:end]`. */
  function Slice<T>(s: seq<T>, start: int, end: int): seq<T> {
    var a, b := Bound(start, |s|), Bound(end, |s|);
    if a <= b then s[a..b] else []
  }

  function Encode(p: Profile, d: Datapoint, value: int, base: seq<byte>): Encoded {
    if !p.MayWrite(d) then Refused(NOT_PERMITTED)
    else if p.controlOffset.None? || p.controlLength.None? then Refused(NO_CONTROL_BLOCK)
    else
      var start, end := p.controlOffset.value, p.controlOffset.value + p.controlLength.value;
      if |base| < end then Refused(NO_BASE_BLOCK)
      else if d !in p.flagBits then Refused(NO_FLAG_BIT)
      else if d !in p.locations then Refused(NO_LOCATION)
      else EncodeInto(p.locations[d], p.flagBits[d], value, Slice(base, start, end), start)
  }

  function EncodeInto(l: Location, flag: int, value: int, values: seq<byte>, start: int): Encoded {
    var index := l.offset - start;
    if !(0 <= index < |values|) then Refused(OUTSIDE_BLOCK)
    else if Rewritten(l, values[index], value).None? then Refused(DOES_NOT_FIT)
    else if flag < 0 then Refused(NEGATIVE_SHIFT)
    else Control(Pow2(flag), values[index := Rewritten(l, values[index], value).value])
  }

  /** `encode_control`, editing a copy of the reported block in place. */
  method EncodeControl(p: Profile, d: Datapoint, value: int, base: seq<byte>) returns (r: Encoded)
    requires p.Valid()
    ensures r == Encode(p, d, value, base)
  {
    if !p.MayWrite(d) {
      return Refused(NOT_PERMITTED);
    }
    if p.controlOffset.None? || p.controlLength.None? {
      return Refused(NO_CONTROL_BLOCK);
    }
    var start := p.controlOffset.value;
    var end := start + p.controlLength.value;
    if |base| < end {
      return Refused(NO_BASE_BLOCK);
    }
    if d !in p.flagBits {
      return Refused(NO_FLAG_BIT);
    }
    if d !in p.locations {
      return Refused(NO_LOCATION);
    }
    var l, block := p.locations[d], Slice(base, start, end);
    assert Encode(p, d, value, base) == EncodeInto(l, p.flagBits[d], value, block, start);
    var values := new byte[|block|](i requires 0 <= i < |block| => block[i]);
    assert values[..] == block;
    var index := l.offset - start;
    if !(0 <= index < values.Length) {
      return Refused(OUTSIDE_BLOCK);
    }
    if l.BitAt? {
      BitWriteFits(l, block[index], value);
      assert Rewritten(l, block[index], value) == Some(SetTo(block[index] as nat, l.bit, value != 0) as byte);
      values[index] := SetTo(values[index] as nat, l.bit, value != 0) as byte;
    } else {
      if !(0 <= value <= 0xFF) {
        return Refused(DOES_NOT_FIT);
      }
      values[index] := value as byte;
    }
    if p.flagBits[d] < 0 {
      return Refused(NEGATIVE_SHIFT);
    }
    assert Rewritten(l, block[index], value) == Some(values[index]);
    assert values[..] == block[index := values[index]];
    r := Control(Pow2(p.flagBits[d]), values[..]);
  }

  /** The block put back where it came from: what a controller that applies all of it ends up with. */
  function Splice(base: seq<byte>, start: nat, values: seq<byte>): seq<byte>
    requires start + |values| <= |base|
  {
    base[..start] + values + base[start + |values|..]
  }

  /** An accepted request edits exactly the one byte of the base block that holds the datapoint. In
      particular a control block said to start below zero is always refused. */
  lemma AcceptedBlock(p: Profile, d: Datapoint, value: int, base: seq<byte>)
    requires p.Valid() && Encode(p, d, value, base).Control?
    ensures p.controlOffset.Some? && p.controlOffset.value >= 0
    ensures d in p.locations && d in p.flagBits && p.flagBits[d] >= 0 && p.MayWrite(d)
    ensures var l, e := p.locations[d], Encode(p, d, value, base);
            && l.offset < |base| && Rewritten(l, base[l.offset], value).Some?
            && p.controlOffset.value + |e.values| <= |base|
            && (p.controlLength.value >= 0 ==> |e.values| == p.controlLength.value)
            && p.controlOffset.value <= l.offset < p.controlOffset.value + |e.values|
            && Splice(base, p.controlOffset.value, e.values)
               == base[l.offset := Rewritten(l, base[l.offset], value).value]
            && e.flags == Pow2(p.flagBits[d])
  {
    var start, end := p.controlOffset.value, p.controlOffset.value + p.controlLength.value;
    var l := p.locations[d];
    assert 0 <= l.offset - start < |Slice(base, start, end)|;
    if start >= 0 {
      assert Slice(base, start, end) == base[start..Bound(end, |base|)];
    }
  }

  /** Control write precision: the spliced block decodes to the requested value, every other datapoint
      decodes as before, and so does every other byte and bit. */
  lemma ControlWritePrecision(p: Profile, d: Datapoint, value: int, base: seq<byte>)
    requires p.Valid() && p.Apart(d) && Encode(p, d, value, base).Control? && p.FitsPayload(base)
    ensures p.controlOffset.Some? && p.controlOffset.value >= 0 && d in p.locations
    ensures p.controlOffset.value + |Encode(p, d, value, base).values| <= |base|
    ensures var l, after := p.locations[d], Splice(base, p.controlOffset.value, Encode(p, d, value, base).values);
            && Decoded(p, after) == Some(Decoded(p, base).value[d := Held(l, value)])
            && (Decoded(p, after).value[d] == value <==> l.ByteAt? || value == 0 || value == 1)
            && |after| == |base|
            && (forall i :: 0 <= i < |base| && i != l.offset ==> after[i] == base[i])
            && (l.BitAt? ==> SameButBit(after[l.offset] as nat, base[l.offset] as nat, l.bit))
  {
    AcceptedBlock(p, d, value, base);
    var l := p.locations[d];
    var after := base[l.offset := Rewritten(l, base[l.offset], value).value];
    WriteThenRead(l, base, value);
    forall e | e in p.locations
      ensures ReadAt(p.locations[e], after) == if e == d then Held(l, value) else ReadAt(p.locations[e], base)
    {
      if e != d { WriteElsewhere(l, p.locations[e], base, value); }
    }
    assert Decoded(p, after).value == Decoded(p, base).value[d := Held(l, value)];
    if l.BitAt? { OneBitSet(base[l.offset] as nat, l.bit, value != 0); }
  }

  /** Disjointness is needed for requests too: on any layout where a writable datapoint inside the control
      block overlaps another one, every base block has an accepted request for the one that, applied, changes
      what the other reads. */
  lemma OverlapDisturbsRequest(p: Profile, d: Datapoint, e: Datapoint, base: seq<byte>) returns (value: int)
    requires p.Valid() && p.MayWrite(d) && e in p.locations && Overlap(p.locations[d], p.locations[e])
    requires p.controlOffset.Some? && p.controlLength.Some? && 0 <= p.controlOffset.value && p.flagBits[d] >= 0
    requires p.controlOffset.value <= p.locations[d].offset < p.controlOffset.value + p.controlLength.value <= |base|
    ensures Encode(p, d, value, base).Control?
    ensures p.controlOffset.value + |Encode(p, d, value, base).values| <= |base|
    ensures p.locations[e].offset < |base|
    ensures ReadAt(p.locations[e], Splice(base, p.controlOffset.value, Encode(p, d, value, base).values))
            != ReadAt(p.locations[e], base)
  {
    value := OverlapDisturbs(p.locations[d], p.locations[e], base);
    var start := p.controlOffset.value;
    assert Slice(base, start, start + p.controlLength.value) == base[start..start + p.controlLength.value];
    AcceptedBlock(p, d, value, base);
  }

  /** The request for `d`, applied, leaves what every other datapoint reads as it was. */
  ghost predicate OthersKept(p: Profile, d: Datapoint, value: int, base: seq<byte>) {
    var values := if Encode(p, d, value, base).Control? then Encode(p, d, value, base).values else [];
    && p.controlOffset.Some? && p.controlOffset.value >= 0 && p.controlOffset.value + |values| <= |base|
    && var after := Splice(base, p.controlOffset.value, values);
       forall e | e in p.locations && e != d ::
         p.locations[e].offset < |base| && ReadAt(p.locations[e], after) == ReadAt(p.locations[e], base)
  }

  /** Every request for `d` that is accepted on a block the layout fits keeps the others. */
  ghost predicate Precise(p: Profile, d: Datapoint) {
    forall value: int, base: seq<byte> ::
      Encode(p, d, value, base).Control? && p.FitsPayload(base) ==> OthersKept(p, d, value, base)
  }

  function Zeros(n: nat): (r: seq<byte>)
    ensures |r| == n
  {
    if n == 0 then [] else [0] + Zeros(n - 1)
  }

  /** When writing a datapoint is precise, exactly: for a datapoint that may be written, lies in the control
      block and has a flag, every accepted request on every fitting block leaves the others alone if and only
      if no other location overlaps it. */
  lemma PreciseIffApart(p: Profile, d: Datapoint)
    requires p.Valid() && p.MayWrite(d) && p.flagBits[d] >= 0
    requires p.controlOffset.Some? && p.controlLength.Some? && 0 <= p.controlOffset.value
    requires p.controlOffset.value <= p.locations[d].offset < p.controlOffset.value + p.controlLength.value
    ensures Precise(p, d) <==> p.Apart(d)
  {
    if p.Apart(d) {
      forall value: int, base: seq<byte> | Encode(p, d, value, base).Control? && p.FitsPayload(base)
        ensures OthersKept(p, d, value, base)
      {
        ApartKeepsOthers(p, d, value, base);
      }
    } else {
      var e :| e in p.locations && e != d && Overlap(p.locations[d], p.locations[e]);
      var end := p.controlOffset.value + p.controlLength.value;
      var base := Zeros(if end < MAX_PAYLOAD_BYTES then MAX_PAYLOAD_BYTES else end);
      var value := OverlapDisturbsRequest(p, d, e, base);
      assert p.FitsPayload(base) && !OthersKept(p, d, value, base);
    }
  }

  lemma ApartKeepsOthers(p: Profile, d: Datapoint, value: int, base: seq<byte>)
    requires p.Valid() && p.Apart(d) && Encode(p, d, value, base).Control? && p.FitsPayload(base)
    ensures OthersKept(p, d, value, base)
  {
    AcceptedBlock(p, d, value, base);
    forall e | e in p.locations && e != d
      ensures ReadAt(p.locations[e], Splice(base, p.controlOffset.value, Encode(p, d, value, base).values))
              == ReadAt(p.locations[e], base)
    {
      WriteElsewhere(p.locations[d], p.locations[e], base, value);
    }
  }

  // -- units

  /** `round(x, 1)`. */
  function RoundToTenth(x: real): real { RoundHalfEven(x * 10.0) as real / 10.0 }

  function ToCelsius(value: real, fahrenheit: bool): real {
    if fahrenheit then RoundToTenth((value - 32.0) * 5.0 / 9.0) else value
  }

  function FromCelsius(value: real, fahrenheit: bool): int {
    RoundHalfEven(if fahrenheit then value * 9.0 / 5.0 + 32.0 else value)
  }

  /** Every whole number the controller can report comes back as itself, in either unit, although the
      Celsius reading was rounded to a tenth. */
  lemma WholeDegreesReturn(raw: int, fahrenheit: bool)
    ensures FromCelsius(ToCelsius(raw as real, fahrenheit), fahrenheit) == raw
  {
    if fahrenheit {
      var exact := (raw as real - 32.0) * 5.0 / 9.0;
      var c := RoundToTenth(exact);
      assert -0.05 <= c - exact <= 0.05;
      assert exact * 9.0 / 5.0 + 32.0 == raw as real;
      RoundsTo(c * 9.0 / 5.0 + 32.0, raw);
    } else {
      RoundsTo(raw as real, raw);
    }
  }

  /** A Celsius setpoint sent in Fahrenheit and read back differs by at most 59/180 of a degree. */
  lemma SetpointReturn(c: real)
    ensures Abs(ToCelsius(FromCelsius(c, true) as real, true) - c) <= 59.0 / 180.0
  {
    var f := FromCelsius(c, true) as real;
    var exact := (f - 32.0) * 5.0 / 9.0;
    assert -0.5 <= f - (c * 9.0 / 5.0 + 32.0) <= 0.5;
    assert -50.0 / 180.0 <= exact - c <= 50.0 / 180.0;
    assert -9.0 / 180.0 <= RoundToTenth(exact) - exact <= 9.0 / 180.0;
  }

  /** Any setpoint a valid layout lets through fits one byte, in either unit. */
  lemma SetpointFits(p: Profile, celsius: real, fahrenheit: bool)
    requires p.Valid() && p.minC <= celsius <= p.maxC
    ensures 0 <= FromCelsius(celsius, fahrenheit) <= 140
  {
  }
}
