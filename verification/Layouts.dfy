/** The two layouts that ship with the gateway, and what a controller does with a control request: apply
    the flagged attributes only (tests/simulators/bestway_simulator.py), or the whole block. */
module Layouts {
  import opened Basics
  import opened Protocol
  import opened Datapoints

  const CANDIDATE := Profile(
    12,
    map[CURRENT_TEMPERATURE := ByteAt(6), TARGET_TEMPERATURE := ByteAt(5), HEATER := BitAt(4, 2),
        FILTER_PUMP := BitAt(4, 1), BUBBLES := BitAt(4, 0), CONTROL_PANEL_LOCK := BitAt(4, 3),
        UNIT_IS_FAHRENHEIT := BitAt(4, 4)],
    20.0, 40.0, 1.0,
    Some(4), Some(8),
    map[BUBBLES := 0, FILTER_PUMP := 1, HEATER := 2, CONTROL_PANEL_LOCK := 3, TARGET_TEMPERATURE := 7],
    false, {})

  const AIRJET_19BYTE := Profile(
    19,
    map[TARGET_TEMPERATURE := ByteAt(2), CURRENT_TEMPERATURE := ByteAt(15), HEATER := BitAt(1, 1),
        FILTER_PUMP := BitAt(1, 2), BUBBLES := BitAt(1, 3), CONTROL_PANEL_LOCK := BitAt(1, 4)],
    20.0, 40.0, 1.0,
    Some(1), Some(14),
    map[HEATER := 1, FILTER_PUMP := 2, BUBBLES := 3, CONTROL_PANEL_LOCK := 4, TARGET_TEMPERATURE := 7],
    false, {})

  /** A shipped layout as an operator releases it: trusted, with some datapoints writable. */
  function Released(p: Profile, writable: set<Datapoint>): Profile {
    p.(trusted := true, writable := writable)
  }

  predicate BuiltIn(p: Profile) {
    p == Released(CANDIDATE, p.writable) || p == Released(AIRJET_19BYTE, p.writable)
  }

  /** The control namespace mirrors the block: flags 0 to 6 name the bits of its first byte, flag 7 the
      byte after it. */
  predicate FlagsFollowBlock(p: Profile) {
    && p.controlOffset.Some? && p.controlLength.Some? && p.controlOffset.value >= 0 && p.controlLength.value >= 2
    && forall d | d in p.flagBits :: d in p.locations && FlagFits(p.flagBits[d], p.locations[d], p.controlOffset.value)
  }

  predicate FlagFits(flag: int, l: Location, start: nat) {
    if flag == 7 then l == ByteAt(start + 1) else 0 <= flag < 7 && l == BitAt(start, flag)
  }

  /** Both shipped layouts meet every hypothesis the write theorems make, and neither can be written
      before it is released. */
  lemma BuiltInsAreSound(p: Profile)
    requires BuiltIn(p) && p.writable <= p.flagBits.Keys
    ensures p.Valid() && p.Disjoint() && FlagsFollowBlock(p)
    ensures forall d :: !CANDIDATE.MayWrite(d) && !AIRJET_19BYTE.MayWrite(d)
  {
    if p == Released(CANDIDATE, p.writable) {
      CandidateIsSound(p);
    } else {
      AirjetIsSound(p);
    }
  }

  lemma CandidateIsSound(p: Profile)
    requires p == Released(CANDIDATE, p.writable) && p.writable <= p.flagBits.Keys
    ensures p.Valid() && p.Disjoint() && FlagsFollowBlock(p)
  {
    forall d, e | d in p.locations && e in p.locations && d != e ensures !Overlap(p.locations[d], p.locations[e]) {
      CandidateApart(d, e);
    }
    forall d | d in p.flagBits ensures d in p.locations && FlagFits(p.flagBits[d], p.locations[d], 4) {
      CandidateFlag(d);
    }
    forall d | d in p.locations ensures Sound(p.locations[d]) {
      CandidateApart(d, d);
    }
  }

  lemma CandidateApart(d: Datapoint, e: Datapoint)
    requires d in CANDIDATE.locations && e in CANDIDATE.locations
    ensures Sound(CANDIDATE.locations[d])
    ensures d != e ==> !Overlap(CANDIDATE.locations[d], CANDIDATE.locations[e])
  {
  }

  lemma CandidateFlag(d: Datapoint)
    requires d in CANDIDATE.flagBits
    ensures d in CANDIDATE.locations && FlagFits(CANDIDATE.flagBits[d], CANDIDATE.locations[d], 4)
  {
  }

  lemma AirjetIsSound(p: Profile)
    requires p == Released(AIRJET_19BYTE, p.writable) && p.writable <= p.flagBits.Keys
    ensures p.Valid() && p.Disjoint() && FlagsFollowBlock(p)
  {
    forall d, e | d in p.locations && e in p.locations && d != e ensures !Overlap(p.locations[d], p.locations[e]) {
      AirjetApart(d, e);
    }
    forall d | d in p.flagBits ensures d in p.locations && FlagFits(p.flagBits[d], p.locations[d], 1) {
      AirjetFlag(d);
    }
    forall d | d in p.locations ensures Sound(p.locations[d]) {
      AirjetApart(d, d);
    }
  }

  lemma AirjetApart(d: Datapoint, e: Datapoint)
    requires d in AIRJET_19BYTE.locations && e in AIRJET_19BYTE.locations
    ensures Sound(AIRJET_19BYTE.locations[d])
    ensures d != e ==> !Overlap(AIRJET_19BYTE.locations[d], AIRJET_19BYTE.locations[e])
  {
  }

  lemma AirjetFlag(d: Datapoint)
    requires d in AIRJET_19BYTE.flagBits
    ensures d in AIRJET_19BYTE.locations && FlagFits(AIRJET_19BYTE.flagBits[d], AIRJET_19BYTE.locations[d], 1)
  {
  }

  // -- the controller

  /** The flag byte after the first `n` flags were looked at. */
  function Applied(b: nat, values0: nat, flags: nat, n: nat): nat {
    if n == 0 then b
    else
      var so_far := Applied(b, values0, flags, n - 1);
      if Bit(flags, n - 1) == 1 then SetTo(so_far, n - 1, Bit(values0, n - 1) == 1) else so_far
  }

  lemma {:induction false} AppliedFits(b: nat, values0: nat, flags: nat, n: nat)
    requires b < 256 && n <= 8
    ensures Applied(b, values0, flags, n) < 256
  {
    if n > 0 {
      AppliedFits(b, values0, flags, n - 1);
      EightBits();
      SetFits(Applied(b, values0, flags, n - 1), n - 1, Bit(values0, n - 1) == 1, 8);
    }
  }

  /** With one flag up, only that bit moves. */
  lemma {:induction false} OneFlag(b: nat, values0: nat, flag: nat, n: nat)
    ensures Applied(b, values0, Pow2(flag), n) == if flag < n then SetTo(b, flag, Bit(values0, flag) == 1) else b
  {
    if n > 0 {
      OneFlag(b, values0, flag, n - 1);
      BitOfPow2(flag, n - 1);
    }
  }

  function AppliedByte(raw: byte, values0: byte, flags: nat): byte {
    AppliedFits(raw as nat, values0 as nat, flags, 7);
    Applied(raw as nat, values0 as nat, flags, 7) as byte
  }

  /** A controller that applies exactly the flagged attributes of a control payload. */
  function FlaggedOnly(block: seq<byte>, target: nat, body: seq<byte>): seq<byte>
    requires target + 1 < |block|
  {
    if |body| < 8 || body[4] != P0_CONTROL then block
    else
      var flags, values := Number(body[5..7]), body[7..];
      var first := block[target := AppliedByte(block[target], values[0], flags)];
      if Bit(flags, 7) == 1 && |values| > 1 then first[target + 1 := values[1]] else first
  }

  /** `_apply_control` of the simulator, bit by bit on the block it holds. */
  method ApplyControl(block: array<byte>, target: nat, body: seq<byte>)
    requires target + 1 < block.Length
    modifies block
    ensures block[..] == FlaggedOnly(old(block[..]), target, body)
  {
    if |body| < 8 || body[4] != P0_CONTROL {
      return;
    }
    ghost var was := block[..];
    var flags, values := Number(body[5..7]), body[7..];
    for n := 0 to 7
      invariant block[..] == was[target := block[target]]
      invariant block[target] as nat == Applied(was[target] as nat, values[0] as nat, flags, n)
    {
      if Bit(flags, n) == 1 {
        AppliedFits(was[target] as nat, values[0] as nat, flags, n + 1);
        block[target] := SetTo(block[target] as nat, n, Bit(values[0] as nat, n) == 1) as byte;
      }
    }
    if Bit(flags, 7) == 1 && |values| > 1 {
      block[target + 1] := values[1];
    }
  }

  /** The two kinds of controller agree: for every layout whose flags follow its block, so for both shipped
      ones, and for every request the gateway can send, a controller that applies the flagged attribute
      and one that applies the whole block hold the same bytes afterwards. */
  lemma ControllersAgree(p: Profile, d: Datapoint, value: int, base: seq<byte>, sequence: int)
    requires p.Valid() && FlagsFollowBlock(p) && 0 <= sequence < 0x1_0000_0000
    requires Encode(p, d, value, base).Control?
    ensures var e, start := Encode(p, d, value, base), p.controlOffset.value;
            && ControlPayload(sequence, e.flags, e.values).Some?
            && start + |e.values| <= |base| && |e.values| >= 2
            && FlaggedOnly(base, start, ControlPayload(sequence, e.flags, e.values).value)
               == Splice(base, start, e.values)
  {
    AcceptedBlock(p, d, value, base);
    var e, start, flag, l := Encode(p, d, value, base), p.controlOffset.value, p.flagBits[d], p.locations[d];
    assert FlagFits(flag, l, start);
    FlagInRange(flag);
    ControlPayloadFields(sequence, e.flags, e.values);
    var after := Splice(base, start, e.values);
    assert e.values[0] == after[start] && e.values[1] == after[start + 1];
    OneFlag(base[start] as nat, e.values[0] as nat, flag, 7);
    BitOfPow2(flag, 7);
    if flag < 7 { BitOfSet(base[start] as nat, flag, value != 0, flag); }
  }

  lemma FlagInRange(flag: int)
    requires 0 <= flag <= 15
    ensures Pow2(flag) < 0x1_0000
  {
    Doubling(flag, 15);
    assert Pow2(15) == 0x8000 by { assert Pow2(5) == 32 && Pow2(10) == 1024; }
  }

  lemma {:induction false} Doubling(m: nat, n: nat)
    requires m <= n
    ensures Pow2(m) <= Pow2(n)
  {
    if m < n { Doubling(m, n - 1); }
  }

  /** A flag bit the two-byte field cannot carry is refused when the request is framed, exactly. */
  lemma FlagFitsRequest(flag: nat, sequence: int, values: seq<byte>)
    requires 0 <= sequence < 0x1_0000_0000 && values != []
    ensures ControlPayload(sequence, Pow2(flag), values).Some? <==> flag <= 15
  {
    if flag <= 15 {
      FlagInRange(flag);
    } else {
      Doubling(16, flag);
      assert Pow2(16) == 0x1_0000 by { assert Pow2(8) == 256 && Pow2(12) == 4096; }
    }
  }
}
