/** What the adapter tells the gateway about the pool (integrations/bestway/provider.py): the state read from a
    status block, the capabilities it advertises, and that a write it calls applied is what was asked for. */
module PoolState {
  import opened Basics
  import opened Policy
  import opened Protocol
  import opened Datapoints
  import opened DeviceModel
  import Client
  import Provider
  import Reconcile
  import Layouts

  /** The datapoint a field of the reported state is read from, if the controller has it. */
  function SourceOf(f: Field): Option<Datapoint> {
    match f
    case F_CURRENT_TEMPERATURE => Some(Datapoint.CURRENT_TEMPERATURE)
    case F_TARGET_TEMPERATURE => Some(Datapoint.TARGET_TEMPERATURE)
    case F_HEATER => Some(HEATER)
    case F_FILTER_PUMP => Some(FILTER_PUMP)
    case F_BUBBLES => Some(Datapoint.BUBBLES)
    case F_CONTROL_PANEL_LOCK => Some(Datapoint.CONTROL_PANEL_LOCK)
    case _ => None
  }

  predicate Reported(p: Profile, f: Field) { SourceOf(f).Some? && SourceOf(f).value in p.locations }

  /** A temperature in the unit the block says, or a switch. */
  function ValueOf(f: Field, raw: nat, fahrenheit: bool): (v: Value)
    requires SourceOf(f).Some?
    ensures Fits(f, v)
  {
    if f == F_CURRENT_TEMPERATURE || f == F_TARGET_TEMPERATURE then Degrees(ToCelsius(raw as real, fahrenheit))
    else Flag(raw != 0)
  }

  /** `_to_state`. */
  function ToState(p: Profile, payload: seq<byte>): DeviceState
    requires p.FitsPayload(payload)
  {
    map f: Field | Reported(p, f) ::
      ValueOf(f, ReadAt(p.locations[SourceOf(f).value], payload), Provider.Fahrenheit(p, payload))
  }

  /** What an applied write leaves in the block: the wanted value at the action's own datapoint. */
  lemma AppliedShows(p: Profile, action: Action, params: Params, written: Option<Client.Failure>,
                     net: seq<Client.Result>)
    requires Provider.Execute(p, action, params, written, net).ending.Applied?
    ensures var payload := Provider.Execute(p, action, params, written, net).ending.payload;
            var base := Provider.ReadPayload(p, net).0;
            && p.FitsPayload(payload) && base.Answer? && p.FitsPayload(base.payload)
            && Provider.DatapointOf(action).Some? && Provider.WantedValue(p, params, base.payload).Wanted?
            && Provider.Shows(p, Provider.DatapointOf(action).value,
                              Provider.WantedValue(p, params, base.payload).value, payload)
  {
    Provider.ReadPayloadFits(p, net);
  }

  /** A block that shows the wanted position of a switch is reported as what was asked for. */
  lemma ShownSwitchMatches(p: Profile, action: Action, on: bool, d: Datapoint, payload: seq<byte>)
    requires Validates(action, OnOff(on)) && Provider.DatapointOf(action) == Some(d)
    requires Provider.Shows(p, d, if on then 1 else 0, payload)
    ensures Reconcile.DesiredMatches(action, OnOff(on), ToState(p, payload)) == Some(true)
  {
    var f := Reconcile.Goal(action, OnOff(on)).value.0;
    assert SourceOf(f) == Some(d);
    assert f in ToState(p, payload) && ToState(p, payload)[f] == Flag(on);
    Reconcile.MatchesExactly(action, OnOff(on), ToState(p, payload));
  }

  /** An applied switch is seen switched: the state read from the block that ended the command satisfies the
      request, whatever the layout. */
  lemma AppliedSwitchMatches(p: Profile, action: Action, on: bool, written: Option<Client.Failure>,
                             net: seq<Client.Result>)
    requires Validates(action, OnOff(on))
    requires Provider.Execute(p, action, OnOff(on), written, net).ending.Applied?
    ensures var payload := Provider.Execute(p, action, OnOff(on), written, net).ending.payload;
            p.FitsPayload(payload) && Reconcile.DesiredMatches(action, OnOff(on), ToState(p, payload)) == Some(true)
  {
    AppliedShows(p, action, OnOff(on), written, net);
    ShownSwitchMatches(p, action, on, Provider.DatapointOf(action).value,
                       Provider.Execute(p, action, OnOff(on), written, net).ending.payload);
  }

  /** How far from the request an applied setpoint may read. */
  function Tolerance(fahrenheit: bool): real { if fahrenheit then 59.0 / 180.0 else 1.0 / 2.0 }

  predicate ReadsWithin(state: DeviceState, celsius: real, tolerance: real) {
    F_TARGET_TEMPERATURE in state && Abs(state[F_TARGET_TEMPERATURE].celsius - celsius) <= tolerance
  }

  /** An applied setpoint reads as asked, up to the rounding to a whole degree of the controller's unit,
      exactly when the controller still reports in the unit it reported in before the write. */
  lemma AppliedSetpointReads(p: Profile, celsius: real, written: Option<Client.Failure>, net: seq<Client.Result>)
    requires p.Valid()
    requires Provider.Execute(p, SET_TARGET_TEMPERATURE, TargetTemperature(celsius), written, net).ending.Applied?
    ensures var payload :=
              Provider.Execute(p, SET_TARGET_TEMPERATURE, TargetTemperature(celsius), written, net).ending.payload;
            var base := Provider.ReadPayload(p, net).0;
            && p.FitsPayload(payload) && base.Answer?
            && (ReadsWithin(ToState(p, payload), celsius, Tolerance(Provider.Fahrenheit(p, base.payload)))
                <==> Provider.Fahrenheit(p, payload) == Provider.Fahrenheit(p, base.payload))
  {
    AppliedShows(p, SET_TARGET_TEMPERATURE, TargetTemperature(celsius), written, net);
    var base := Provider.ReadPayload(p, net).0.payload;
    SetpointReads(celsius, Provider.Fahrenheit(p, base));
  }

  /** A setpoint as the controller holds it, read in its own unit and in the other one. */
  lemma SetpointReads(celsius: real, fahrenheit: bool)
    requires 0.0 <= celsius <= 60.0
    ensures var held := FromCelsius(celsius, fahrenheit) as real;
            && Abs(ToCelsius(held, fahrenheit) - celsius) <= Tolerance(fahrenheit)
            && Abs(ToCelsius(held, !fahrenheit) - celsius) > Tolerance(fahrenheit)
  {
    var held := FromCelsius(celsius, fahrenheit) as real;
    if fahrenheit {
      SetpointReturn(celsius);
    } else {
      var exact := (held - 32.0) * 5.0 / 9.0;
      assert -0.05 <= RoundToTenth(exact) - exact <= 0.05;
    }
  }

  /** After a time-out the same block is judged more strictly: in Celsius an applied setpoint counts as
      satisfied exactly when it was asked for within 0.05 of a whole degree. */
  lemma SetpointReconciles(p: Profile, celsius: real, payload: seq<byte>)
    requires p.FitsPayload(payload) && !Provider.Fahrenheit(p, payload)
    requires Provider.Shows(p, Datapoint.TARGET_TEMPERATURE, FromCelsius(celsius, false), payload)
    ensures Reconcile.DesiredMatches(SET_TARGET_TEMPERATURE, TargetTemperature(celsius), ToState(p, payload))
            == Some(exists n: int :: Near(celsius, n))
  {
    var held := FromCelsius(celsius, false);
    forall n: int | Near(celsius, n) ensures n == held { RoundsTo(celsius, n); }
    assert Abs(held as real - celsius) <= 0.05 ==> Near(celsius, held);
  }

  predicate Near(celsius: real, n: int) { Abs(n as real - celsius) <= 0.05 }

  // -- what may be asked of the controller at all

  function WriteCapability(d: Datapoint): Option<Capability> {
    match d
    case TARGET_TEMPERATURE => Some(Capability.TARGET_TEMPERATURE)
    case HEATER => Some(HEATING)
    case FILTER_PUMP => Some(FILTER)
    case BUBBLES => Some(Capability.BUBBLES)
    case CONTROL_PANEL_LOCK => Some(Capability.CONTROL_PANEL_LOCK)
    case _ => None
  }

  /** The write half of `capabilities`. */
  function Advertised(p: Profile): set<Capability> {
    set d: Datapoint | p.MayWrite(d) && WriteCapability(d).Some? :: WriteCapability(d).value
  }

  /** The pipeline's capability gate and the adapter's own release gate agree: a validated request needs a
      capability the adapter advertises exactly when its datapoint has been released for writing. */
  lemma GatesAgree(p: Profile, action: Action, params: Params)
    requires Validates(action, params)
    ensures RequiredCapability(action, params) in Advertised(p)
            <==> Provider.DatapointOf(action).Some? && p.MayWrite(Provider.DatapointOf(action).value)
  {
    var needed := RequiredCapability(action, params);
    if Provider.DatapointOf(action).Some? {
      assert WriteCapability(Provider.DatapointOf(action).value) == Some(needed);
    }
  }

  // -- down to the bytes of the controller that was observed

  /** Which bit of the flag byte each switch is. */
  function SwitchBit(f: Field): Option<nat> {
    match f
    case F_HEATER => Some(1)
    case F_FILTER_PUMP => Some(2)
    case F_BUBBLES => Some(3)
    case F_CONTROL_PANEL_LOCK => Some(4)
    case _ => None
  }

  lemma TemperatureReads(p: Profile, payload: seq<byte>, f: Field, k: nat)
    requires p.FitsPayload(payload) && (f == F_TARGET_TEMPERATURE || f == F_CURRENT_TEMPERATURE)
    requires Reported(p, f) && p.locations[SourceOf(f).value] == ByteAt(k)
    ensures k < |payload| && f in ToState(p, payload)
    ensures ToState(p, payload)[f] == Degrees(ToCelsius(payload[k] as real, Provider.Fahrenheit(p, payload)))
  {
  }

  lemma SwitchReads(p: Profile, payload: seq<byte>, f: Field, k: nat, bit: nat)
    requires p.FitsPayload(payload) && SwitchBit(f).Some?
    requires Reported(p, f) && p.locations[SourceOf(f).value] == BitAt(k, bit)
    ensures k < |payload| && f in ToState(p, payload)
    ensures ToState(p, payload)[f] == Flag(Bit(payload[k] as nat, bit) == 1)
  {
  }

  lemma AirjetPlaces(d: Datapoint)
    ensures d in Layouts.AIRJET_19BYTE.locations <==> d != UNIT_IS_FAHRENHEIT
    ensures d in Layouts.AIRJET_19BYTE.locations ==> Layouts.AIRJET_19BYTE.locations[d].offset < 19
  {
  }

  lemma AirjetReports(f: Field)
    ensures Reported(Layouts.AIRJET_19BYTE, f)
            <==> SwitchBit(f).Some? || f == F_TARGET_TEMPERATURE || f == F_CURRENT_TEMPERATURE
    ensures SwitchBit(f).Some? ==> Layouts.AIRJET_19BYTE.locations[SourceOf(f).value] == BitAt(1, SwitchBit(f).value)
    ensures f == F_TARGET_TEMPERATURE ==> Layouts.AIRJET_19BYTE.locations[SourceOf(f).value] == ByteAt(2)
    ensures f == F_CURRENT_TEMPERATURE ==> Layouts.AIRJET_19BYTE.locations[SourceOf(f).value] == ByteAt(15)
  {
  }

  /** What a nineteen-byte block means: four bits of byte 1, and two temperatures in Celsius. */
  ghost predicate AirjetMeaning(payload: seq<byte>, f: Field, state: DeviceState)
    requires |payload| >= 19
  {
    if SwitchBit(f).Some? then f in state && state[f] == Flag(Bit(payload[1] as nat, SwitchBit(f).value) == 1)
    else if f == F_TARGET_TEMPERATURE then f in state && state[f] == Degrees(payload[2] as real)
    else if f == F_CURRENT_TEMPERATURE then f in state && state[f] == Degrees(payload[15] as real)
    else f !in state
  }

  lemma AirjetFits(p: Profile, payload: seq<byte>)
    requires p.locations == Layouts.AIRJET_19BYTE.locations && p.minimumLength == 19 && |payload| >= 19
    ensures p.FitsPayload(payload) && !Provider.Fahrenheit(p, payload)
  {
    forall d | d in p.locations ensures p.locations[d].offset < |payload| { AirjetPlaces(d); }
    AirjetPlaces(UNIT_IS_FAHRENHEIT);
  }

  lemma AirjetStatus(p: Profile, payload: seq<byte>, f: Field)
    requires p == Layouts.Released(Layouts.AIRJET_19BYTE, p.writable) && |payload| >= 19
    ensures p.FitsPayload(payload) && AirjetMeaning(payload, f, ToState(p, payload))
  {
    AirjetFits(p, payload);
    AirjetReports(f);
    if SwitchBit(f).Some? {
      SwitchReads(p, payload, f, 1, SwitchBit(f).value);
    } else if f == F_TARGET_TEMPERATURE {
      TemperatureReads(p, payload, f, 2);
    } else if f == F_CURRENT_TEMPERATURE {
      TemperatureReads(p, payload, f, 15);
    }
  }

  /** `c` is what `raw` reads as: itself in Celsius, and within rounding to a tenth in Fahrenheit. */
  predicate ReadsAs(c: real, raw: int, fahrenheit: bool) {
    if fahrenheit then Abs(c - (raw as real - 32.0) * 5.0 / 9.0) <= 0.05 else c == raw as real
  }

  lemma CandidatePlaces(d: Datapoint)
    ensures d in Layouts.CANDIDATE.locations && Layouts.CANDIDATE.locations[d].offset < 12
    ensures d == UNIT_IS_FAHRENHEIT ==> Layouts.CANDIDATE.locations[d] == BitAt(4, 4)
    ensures d == Datapoint.TARGET_TEMPERATURE ==> Layouts.CANDIDATE.locations[d] == ByteAt(5)
    ensures d == Datapoint.CURRENT_TEMPERATURE ==> Layouts.CANDIDATE.locations[d] == ByteAt(6)
  {
  }

  lemma CandidateFits(p: Profile, payload: seq<byte>)
    requires p.locations == Layouts.CANDIDATE.locations && p.minimumLength == 12 && |payload| >= 12
    ensures p.FitsPayload(payload)
    ensures Provider.Fahrenheit(p, payload) <==> Bit(payload[4] as nat, 4) == 1
  {
    forall d | d in p.locations ensures p.locations[d].offset < |payload| { CandidatePlaces(d); }
    CandidatePlaces(UNIT_IS_FAHRENHEIT);
  }

  /** The temperatures of the other shipped layout: bytes 5 and 6, in Fahrenheit exactly if bit 4 of byte 4 says
      so. */
  lemma CandidateTemperatures(p: Profile, payload: seq<byte>)
    requires p == Layouts.Released(Layouts.CANDIDATE, p.writable) && |payload| >= 12
    ensures p.FitsPayload(payload)
    ensures var state, fahrenheit := ToState(p, payload), Bit(payload[4] as nat, 4) == 1;
            && F_TARGET_TEMPERATURE in state && F_CURRENT_TEMPERATURE in state
            && ReadsAs(state[F_TARGET_TEMPERATURE].celsius, payload[5] as int, fahrenheit)
            && ReadsAs(state[F_CURRENT_TEMPERATURE].celsius, payload[6] as int, fahrenheit)
  {
    CandidateFits(p, payload);
    CandidatePlaces(Datapoint.TARGET_TEMPERATURE);
    CandidatePlaces(Datapoint.CURRENT_TEMPERATURE);
    TemperatureReads(p, payload, F_TARGET_TEMPERATURE, 5);
    TemperatureReads(p, payload, F_CURRENT_TEMPERATURE, 6);
    ReadingReadsAs(payload[5] as int, Provider.Fahrenheit(p, payload));
    ReadingReadsAs(payload[6] as int, Provider.Fahrenheit(p, payload));
  }

  lemma ReadingReadsAs(raw: int, fahrenheit: bool)
    ensures ReadsAs(ToCelsius(raw as real, fahrenheit), raw, fahrenheit)
  {
    var exact := (raw as real - 32.0) * 5.0 / 9.0;
    assert -0.05 <= RoundToTenth(exact) - exact <= 0.05;
  }

  lemma OneBitOfBlock(p: Profile, d: Datapoint, on: bool, base: seq<byte>, bit: nat)
    requires p.Valid() && Encode(p, d, if on then 1 else 0, base).Control?
    requires p.locations[d] == BitAt(1, bit) && p.controlOffset == Some(1) && p.controlLength == Some(14)
    ensures var e := Encode(p, d, if on then 1 else 0, base);
            && d in p.flagBits && p.flagBits[d] >= 0 && e.flags == Pow2(p.flagBits[d])
            && |e.values| == 14 && |base| >= 15 && e.values[1..] == base[2..15]
            && SameButBit(e.values[0] as nat, base[1] as nat, bit)
            && Bit(e.values[0] as nat, bit) == (if on then 1 else 0)
  {
    var value := if on then 1 else 0;
    AcceptedBlock(p, d, value, base);
    var values := Encode(p, d, value, base).values;
    assert values == Splice(base, 1, values)[1..15];
    OneBitSet(base[1] as nat, bit, on);
    BitOfSet(base[1] as nat, bit, on, bit);
  }

  /** Where that layout keeps the switch an action is about. */
  lemma AirjetSwitch(action: Action, on: bool)
    requires Validates(action, OnOff(on)) && Provider.DatapointOf(action).Some?
    ensures var d, bit := Provider.DatapointOf(action).value, SwitchBit(Reconcile.Goal(action, OnOff(on)).value.0);
            && bit.Some?
            && d in Layouts.AIRJET_19BYTE.locations && Layouts.AIRJET_19BYTE.locations[d] == BitAt(1, bit.value)
            && d in Layouts.AIRJET_19BYTE.flagBits && Layouts.AIRJET_19BYTE.flagBits[d] == bit.value
  {
  }

  lemma SentSwitch(p: Profile, action: Action, on: bool, written: Option<Client.Failure>, net: seq<Client.Result>,
                   bit: nat)
    requires p.Valid() && Provider.Execute(p, action, OnOff(on), written, net).controls != []
    requires Provider.DatapointOf(action).Some?
    requires var d := Provider.DatapointOf(action).value;
             d in p.locations && p.locations[d] == BitAt(1, bit) && d in p.flagBits && p.flagBits[d] == bit
    requires p.controlOffset == Some(1) && p.controlLength == Some(14)
    ensures var base := Provider.ReadPayload(p, net).0;
            var r := Provider.Execute(p, action, OnOff(on), written, net).controls[0];
            && base.Answer? && p.FitsPayload(base.payload) && |base.payload| >= 15
            && r.flags == Pow2(bit) && |r.values| == 14 && r.values[1..] == base.payload[2..15]
            && SameButBit(r.values[0] as nat, base.payload[1] as nat, bit)
            && Bit(r.values[0] as nat, bit) == (if on then 1 else 0)
  {
    Provider.OneControlOrNone(p, action, OnOff(on), written, net);
    OneBitOfBlock(p, Provider.DatapointOf(action).value, on, Provider.ReadPayload(p, net).0.payload, bit);
  }

  /** A switch request to that controller: the flag and the bit of the function that was asked for, and no
      other bit of the block. */
  lemma AirjetSwitchRequest(p: Profile, action: Action, on: bool, written: Option<Client.Failure>,
                            net: seq<Client.Result>)
    requires p == Layouts.Released(Layouts.AIRJET_19BYTE, p.writable) && p.writable <= p.flagBits.Keys
    requires Validates(action, OnOff(on)) && Provider.Execute(p, action, OnOff(on), written, net).controls != []
    ensures var base := Provider.ReadPayload(p, net).0;
            && base.Answer? && |base.payload| >= 19
            && SwitchBit(Reconcile.Goal(action, OnOff(on)).value.0).Some?
            && var bit := SwitchBit(Reconcile.Goal(action, OnOff(on)).value.0).value;
               var r := Provider.Execute(p, action, OnOff(on), written, net).controls[0];
               && r.flags == Pow2(bit) && |r.values| == 14 && r.values[1..] == base.payload[2..15]
               && SameButBit(r.values[0] as nat, base.payload[1] as nat, bit)
               && Bit(r.values[0] as nat, bit) == (if on then 1 else 0)
  {
    Layouts.AirjetIsSound(p);
    Provider.EndsBeforeReadBack(p, action, OnOff(on), written, net);
    AirjetSwitch(action, on);
    SentSwitch(p, action, on, written, net, SwitchBit(Reconcile.Goal(action, OnOff(on)).value.0).value);
    AirjetNeedsNineteen(p, Provider.ReadPayload(p, net).0.payload);
  }

  lemma AirjetNeedsNineteen(p: Profile, payload: seq<byte>)
    requires p == Layouts.Released(Layouts.AIRJET_19BYTE, p.writable) && p.FitsPayload(payload)
    ensures |payload| >= 19
  {
  }
}
