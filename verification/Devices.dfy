/** The registry and the service that feeds it (devices/registry.py, devices/service.py): what the gateway
    holds about a device is a fold of what was observed, and every change of it is announced. */
module Devices {
  import opened Basics
  import opened DeviceModel

  datatype Ref = Ref(provider: string, providerDeviceId: string)

  datatype Kind = POOL | WASHING_MACHINE | DISHWASHER | OTHER_KIND

  datatype Source = PROVIDER_SNAPSHOT | PROVIDER_EVENT | COMMAND_RESULT

  datatype Device = Device(id: int, kind: Kind, availability: Availability, state: DeviceState,
                           stateObservedAt: real, lastSeenAt: real, source: Source)

  datatype Observation = Observation(state: DeviceState, availability: Availability, at: real)

  // -- one device

  function IsOn(s: DeviceState, f: Field): bool { f in s && s[f] == Flag(true) }

  /** `_with_derived`: the moment the pump comes on is what the gateway knows and the adapter does not. */
  function WithDerived(held: DeviceState, observed: DeviceState, now: real): DeviceState {
    if IsOn(observed, F_FILTER_PUMP) && !IsOn(held, F_FILTER_PUMP) then observed[F_FILTER_LAST_STARTED := Moment(now)]
    else if F_FILTER_LAST_STARTED in held && F_FILTER_LAST_STARTED !in observed then
      observed[F_FILTER_LAST_STARTED := held[F_FILTER_LAST_STARTED]]
    else observed
  }

  /** `apply`: merge the reported fields; freshness advances only while the device is reachable. */
  function Updated(d: Device, o: Observation, source: Source): Device {
    var reachable := o.availability == ONLINE;
    Device(d.id, d.kind, o.availability, MergedWith(d.state, o.state),
           if reachable then o.at else d.stateObservedAt, if reachable then o.at else d.lastSeenAt, source)
  }

  function Ingested(d: Device, o: Observation, source: Source, now: real): Device {
    Updated(d, Observation(WithDerived(d.state, o.state, now), o.availability, o.at), source)
  }

  function NewDevice(id: int, kind: Kind, o: Observation): Device {
    Device(id, kind, o.availability, o.state, o.at, o.at, PROVIDER_SNAPSHOT)
  }

  // -- events

  datatype EventType =
    | DEVICE_DISCOVERED | DEVICE_AVAILABILITY_CHANGED | DEVICE_STATE_CHANGED | POOL_TEMPERATURE_CHANGED
    | POOL_TARGET_TEMPERATURE_CHANGED | APPLIANCE_PROGRAM_STARTED | APPLIANCE_PROGRAM_FINISHED

  predicate Differ(a: DeviceState, b: DeviceState, f: Field) {
    (f in a) != (f in b) || (f in a && f in b && a[f] != b[f])
  }

  function When(c: bool, e: EventType): seq<EventType> { if c then [e] else [] }

  /** `_publish_transitions`. */
  function Transitions(before: Device, after: Device): seq<EventType> {
    When(before.availability != after.availability, DEVICE_AVAILABILITY_CHANGED)
    + if before.state == after.state then [] else
        [DEVICE_STATE_CHANGED] + PoolEvents(before, after) + ApplianceEvents(before, after)
  }

  function PoolEvents(before: Device, after: Device): seq<EventType> {
    var pool := after.kind == POOL;
    When(pool && Differ(before.state, after.state, F_CURRENT_TEMPERATURE), POOL_TEMPERATURE_CHANGED)
    + When(pool && Differ(before.state, after.state, F_TARGET_TEMPERATURE), POOL_TARGET_TEMPERATURE_CHANGED)
  }

  function ApplianceEvents(before: Device, after: Device): seq<EventType> {
    var moved := (after.kind == WASHING_MACHINE || after.kind == DISHWASHER)
                 && Differ(before.state, after.state, F_PROGRAM);
    When(moved && ProgramIs(after.state, PROGRAM_RUNNING), APPLIANCE_PROGRAM_STARTED)
    + When(moved && ProgramIs(after.state, FINISHED), APPLIANCE_PROGRAM_FINISHED)
  }

  predicate ProgramIs(s: DeviceState, p: ProgramState) {
    F_PROGRAM in s && s[F_PROGRAM] == ProgramValue(p)
  }

  /** An observation is silent exactly when it changes neither state nor availability, and each event type
      is emitted exactly when the thing it names changed. */
  lemma SilentIffUnchanged(before: Device, after: Device)
    ensures var es := Transitions(before, after);
            && (es == [] <==> before.availability == after.availability && before.state == after.state)
            && (DEVICE_AVAILABILITY_CHANGED in es <==> before.availability != after.availability)
            && (DEVICE_STATE_CHANGED in es <==> before.state != after.state)
  {
  }

  /** A washing machine or dishwasher has come to program state `p`. */
  predicate Entered(before: Device, after: Device, p: ProgramState) {
    && (after.kind == WASHING_MACHINE || after.kind == DISHWASHER)
    && ProgramIs(after.state, p) && !ProgramIs(before.state, p)
  }

  lemma NamedChanges(before: Device, after: Device)
    ensures var es := Transitions(before, after);
            && (POOL_TEMPERATURE_CHANGED in es <==>
                  after.kind == POOL && Differ(before.state, after.state, F_CURRENT_TEMPERATURE))
            && (POOL_TARGET_TEMPERATURE_CHANGED in es <==>
                  after.kind == POOL && Differ(before.state, after.state, F_TARGET_TEMPERATURE))
            && (APPLIANCE_PROGRAM_STARTED in es <==> Entered(before, after, PROGRAM_RUNNING))
            && (APPLIANCE_PROGRAM_FINISHED in es <==> Entered(before, after, FINISHED))
  {
    var pool, appliance := PoolEvents(before, after), ApplianceEvents(before, after);
    forall e
      ensures e in [DEVICE_STATE_CHANGED] + pool + appliance
              <==> e == DEVICE_STATE_CHANGED || e in pool || e in appliance
    {
    }
    assert before.state == after.state ==> !Differ(before.state, after.state, F_CURRENT_TEMPERATURE);
  }

  const IN_ORDER := [DEVICE_AVAILABILITY_CHANGED] + [DEVICE_STATE_CHANGED]
                    + ([POOL_TEMPERATURE_CHANGED] + [POOL_TARGET_TEMPERATURE_CHANGED])
                    + ([APPLIANCE_PROGRAM_STARTED] + [APPLIANCE_PROGRAM_FINISHED])

  lemma WhenIn(c: bool, e: EventType)
    ensures Subsequence(When(c, e), [e])
  {
  }

  lemma PairIn(c: bool, e: EventType, d: bool, f: EventType)
    ensures Subsequence(When(c, e) + When(d, f), [e] + [f])
  {
    WhenIn(c, e);
    WhenIn(d, f);
    SubsequenceConcat(When(c, e), [e], When(d, f), [f]);
  }

  lemma PoolInOrder(before: Device, after: Device)
    ensures Subsequence(PoolEvents(before, after), [POOL_TEMPERATURE_CHANGED] + [POOL_TARGET_TEMPERATURE_CHANGED])
  {
    var pool := after.kind == POOL;
    PairIn(pool && Differ(before.state, after.state, F_CURRENT_TEMPERATURE), POOL_TEMPERATURE_CHANGED,
           pool && Differ(before.state, after.state, F_TARGET_TEMPERATURE), POOL_TARGET_TEMPERATURE_CHANGED);
  }

  lemma ApplianceInOrder(before: Device, after: Device)
    ensures Subsequence(ApplianceEvents(before, after), [APPLIANCE_PROGRAM_STARTED] + [APPLIANCE_PROGRAM_FINISHED])
  {
    var moved := (after.kind == WASHING_MACHINE || after.kind == DISHWASHER)
                 && Differ(before.state, after.state, F_PROGRAM);
    PairIn(moved && ProgramIs(after.state, PROGRAM_RUNNING), APPLIANCE_PROGRAM_STARTED,
           moved && ProgramIs(after.state, FINISHED), APPLIANCE_PROGRAM_FINISHED);
  }

  /** Three stretches, each left out or kept in part. */
  lemma ThreeInOrder(a: seq<EventType>, b: seq<EventType>, c: seq<EventType>,
                     a': seq<EventType>, b': seq<EventType>, c': seq<EventType>)
    requires Subsequence(a, a') && Subsequence(b, b') && Subsequence(c, c')
    ensures Subsequence(a + b + c, a' + b' + c')
  {
    SubsequenceConcat(a, a', b, b');
    SubsequenceConcat(a + b, a' + b', c, c');
  }

  /** Each event type is emitted at most once, the availability first, then the state, then what it means. */
  lemma TransitionsInOrder(before: Device, after: Device)
    ensures Subsequence(Transitions(before, after), IN_ORDER)
  {
    var gone, changed := before.availability != after.availability, before.state != after.state;
    var pool, appliance := if changed then PoolEvents(before, after) else [],
                           if changed then ApplianceEvents(before, after) else [];
    var general := When(gone, DEVICE_AVAILABILITY_CHANGED) + When(changed, DEVICE_STATE_CHANGED);
    PairIn(gone, DEVICE_AVAILABILITY_CHANGED, changed, DEVICE_STATE_CHANGED);
    PoolInOrder(before, after);
    ApplianceInOrder(before, after);
    ThreeInOrder(general, pool, appliance, [DEVICE_AVAILABILITY_CHANGED] + [DEVICE_STATE_CHANGED],
                 [POOL_TEMPERATURE_CHANGED] + [POOL_TARGET_TEMPERATURE_CHANGED],
                 [APPLIANCE_PROGRAM_STARTED] + [APPLIANCE_PROGRAM_FINISHED]);
    TransitionsAre(before, after);
  }

  lemma TransitionsAre(before: Device, after: Device)
    ensures var gone, changed := before.availability != after.availability, before.state != after.state;
            Transitions(before, after)
            == When(gone, DEVICE_AVAILABILITY_CHANGED) + When(changed, DEVICE_STATE_CHANGED)
               + (if changed then PoolEvents(before, after) else [])
               + (if changed then ApplianceEvents(before, after) else [])
  {
    var gone := When(before.availability != after.availability, DEVICE_AVAILABILITY_CHANGED);
    if before.state == after.state {
      assert gone + [] + [] + [] == gone + [];
    } else {
      var pool, appliance := PoolEvents(before, after), ApplianceEvents(before, after);
      assert gone + ([DEVICE_STATE_CHANGED] + pool + appliance) == gone + [DEVICE_STATE_CHANGED] + pool + appliance;
    }
  }

  // -- the registry

  datatype Registry = Registry(devices: map<int, Device>, refs: map<int, Ref>, idByRef: map<Ref, int>)

  ghost predicate Injective(ident: Ref -> int) {
    forall a, b :: ident(a) == ident(b) ==> a == b
  }

  /** The two lookup tables are inverse to each other and cover exactly the held devices. */
  ghost predicate Consistent(g: Registry) {
    && g.devices.Keys == g.refs.Keys
    && (forall id :: id in g.refs ==> g.refs[id] in g.idByRef && g.idByRef[g.refs[id]] == id)
    && (forall r :: r in g.idByRef ==> g.idByRef[r] in g.refs && g.refs[g.idByRef[r]] == r)
    && (forall id :: id in g.devices ==> g.devices[id].id == id)
  }

  function Registered(g: Registry, id: int, ref: Ref, kind: Kind, o: Observation): Registry {
    Registry(g.devices[id := NewDevice(id, kind, o)], g.refs[id := ref], g.idByRef[ref := id])
  }

  lemma RegisteredKeepsConsistent(g: Registry, ident: Ref -> int, ref: Ref, kind: Kind, o: Observation)
    requires Consistent(g) && Injective(ident) && forall r :: r in g.idByRef ==> g.idByRef[r] == ident(r)
    ensures Consistent(Registered(g, ident(ref), ref, kind, o))
  {
    var g', id := Registered(g, ident(ref), ref, kind, o), ident(ref);
    if id in g.refs { assert ident(g.refs[id]) == id; }
    forall r | r in g'.idByRef ensures g'.idByRef[r] in g'.refs && g'.refs[g'.idByRef[r]] == r {
      if r != ref { assert ident(r) != id; }
    }
  }

  /** `ingest`: an unknown reference is ignored. */
  function Ingest(g: Registry, ref: Ref, o: Observation, source: Source, now: real): (Registry, seq<EventType>) {
    if ref !in g.idByRef || g.idByRef[ref] !in g.devices then (g, [])
    else
      var before := g.devices[g.idByRef[ref]];
      var after := Ingested(before, o, source, now);
      (g.(devices := g.devices[g.idByRef[ref] := after]), Transitions(before, after))
  }

  // -- runs

  datatype Op =
    | Register(ref: Ref, kind: Kind, o: Observation)
    | Observe(ref: Ref, o: Observation, source: Source, now: real)

  function After(g: Registry, ident: Ref -> int, op: Op): Registry {
    match op
    case Register(ref, kind, o) => Registered(g, ident(ref), ref, kind, o)
    case Observe(ref, o, source, now) => Ingest(g, ref, o, source, now).0
  }

  function RunAll(ident: Ref -> int, ops: seq<Op>): Registry {
    if ops == [] then Registry(map[], map[], map[])
    else After(RunAll(ident, ops[..|ops| - 1]), ident, ops[|ops| - 1])
  }

  /** What concerns one device: its registrations, and its observations once it is registered. A new
      registration starts over. */
  function History(ops: seq<Op>, ref: Ref): (h: seq<Op>)
    ensures h != [] ==> h[0].Register? && forall i :: 0 < i < |h| ==> h[i].Observe?
    ensures forall i :: 0 <= i < |h| ==> h[i].ref == ref
  {
    if ops == [] then []
    else
      var earlier, last := History(ops[..|ops| - 1], ref), ops[|ops| - 1];
      if last.ref != ref then earlier
      else if last.Register? then [last]
      else if earlier == [] then [] else earlier + [last]
  }

  predicate IsHistory(h: seq<Op>) {
    h != [] && h[0].Register? && forall i :: 0 < i < |h| ==> h[i].Observe?
  }

  function DeviceAfter(id: int, h: seq<Op>): Device
    requires IsHistory(h)
  {
    var last := h[|h| - 1];
    if |h| == 1 then NewDevice(id, last.kind, last.o)
    else Ingested(DeviceAfter(id, h[..|h| - 1]), last.o, last.source, last.now)
  }

  /** What is held for `r` is the fold of its own history. */
  ghost predicate Folded(g: Registry, ident: Ref -> int, h: seq<Op>, r: Ref)
    requires h != [] ==> IsHistory(h)
  {
    && (r in g.idByRef <==> h != [])
    && (h != [] ==>
          g.idByRef[r] == ident(r) && ident(r) in g.devices && g.devices[ident(r)] == DeviceAfter(ident(r), h))
  }

  /** The whole registry is the fold of the run, device by device: exactly the registered references are
      known, and each held device depends on nothing but its own history. */
  lemma {:induction false} RegistryIsFold(ident: Ref -> int, ops: seq<Op>)
    requires Injective(ident)
    ensures Consistent(RunAll(ident, ops)) && forall r :: Folded(RunAll(ident, ops), ident, History(ops, r), r)
  {
    if ops != [] {
      var earlier, last := ops[..|ops| - 1], ops[|ops| - 1];
      RegistryIsFold(ident, earlier);
      var g := RunAll(ident, earlier);
      forall r ensures Folded(g, ident, History(earlier, r), r) {}
      if last.Register? {
        forall r | r in g.idByRef ensures g.idByRef[r] == ident(r) {
          assert Folded(g, ident, History(earlier, r), r);
        }
        RegisteredKeepsConsistent(g, ident, last.ref, last.kind, last.o);
      }
      forall r ensures Folded(RunAll(ident, ops), ident, History(ops, r), r) {
        assert Folded(g, ident, History(earlier, last.ref), last.ref);
        FoldStep(g, ident, History(earlier, r), History(earlier, last.ref), r, last);
      }
    }
  }

  function HistoryAfter(h: seq<Op>, last: Op, r: Ref): seq<Op> {
    if last.ref != r then h else if last.Register? then [last] else if h == [] then [] else h + [last]
  }

  lemma FoldStep(g: Registry, ident: Ref -> int, h: seq<Op>, other: seq<Op>, r: Ref, op: Op)
    requires Injective(ident) && Consistent(g)
    requires (h != [] ==> IsHistory(h)) && (other != [] ==> IsHistory(other)) && (op.ref == r ==> h == other)
    requires Folded(g, ident, h, r) && Folded(g, ident, other, op.ref)
    ensures var h' := HistoryAfter(h, op, r);
            (h' != [] ==> IsHistory(h')) && Folded(After(g, ident, op), ident, h', r)
  {
    if op.ref == r && op.Observe? && h != [] {
      assert (h + [op])[..|h|] == h;
    }
    assert op.ref != r ==> ident(op.ref) != ident(r);
  }

  // -- what the fold means, field by field

  /** The last value any operation of `h` reported for `f`. */
  function LastReported(h: seq<Op>, f: Field): Option<Value> {
    if h == [] then None
    else if f in h[|h| - 1].o.state then Some(h[|h| - 1].o.state[f])
    else LastReported(h[..|h| - 1], f)
  }

  /** When the device was last seen online, or else registered. */
  function LastOnline(h: seq<Op>): real
    requires h != []
  {
    if |h| == 1 || h[|h| - 1].o.availability == ONLINE then h[|h| - 1].o.at else LastOnline(h[..|h| - 1])
  }

  /** The clock time of the latest report of "pump on" whose previously reported value was not on. */
  function LastStart(h: seq<Op>): Option<real> {
    if |h| <= 1 || !h[|h| - 1].Observe? then None
    else if IsOn(h[|h| - 1].o.state, F_FILTER_PUMP)
            && LastReported(h[..|h| - 1], F_FILTER_PUMP) != Some(Flag(true)) then Some(h[|h| - 1].now)
    else LastStart(h[..|h| - 1])
  }

  function Lookup(s: DeviceState, f: Field): Option<Value> { if f in s then Some(s[f]) else None }

  /** Each reported field is its last reported value; absent means never reported. */
  lemma {:induction false} FieldIsLastReported(id: int, h: seq<Op>, f: Field)
    requires IsHistory(h) && f != F_FILTER_LAST_STARTED
    ensures Lookup(DeviceAfter(id, h).state, f) == LastReported(h, f)
  {
    if |h| == 1 {
      assert LastReported(h[..0], f) == None;
    } else {
      FieldIsLastReported(id, h[..|h| - 1], f);
    }
  }

  /** Freshness is that of the last online observation; availability and source are the last ones reported. */
  lemma {:induction false} FreshnessIsLastOnline(id: int, h: seq<Op>)
    requires IsHistory(h)
    ensures var d := DeviceAfter(id, h);
            && d.stateObservedAt == LastOnline(h) && d.lastSeenAt == LastOnline(h)
            && d.availability == h[|h| - 1].o.availability && d.kind == h[0].kind && d.id == id
            && d.source == (if |h| == 1 then PROVIDER_SNAPSHOT else h[|h| - 1].source)
  {
    if |h| > 1 { FreshnessIsLastOnline(id, h[..|h| - 1]); }
  }

  /** `is_stale`. */
  predicate Stale(d: Device, now: real, limit: real) {
    d.availability == OFFLINE || now - d.stateObservedAt > limit
  }

  /** A device counts as stale exactly when it was last reported offline, or was not seen online (or
      registered) for longer than the limit. */
  lemma StaleExactly(id: int, h: seq<Op>, now: real, limit: real)
    requires IsHistory(h)
    ensures Stale(DeviceAfter(id, h), now, limit)
            <==> h[|h| - 1].o.availability == OFFLINE || now > LastOnline(h) + limit
  {
    FreshnessIsLastOnline(id, h);
  }

  /** For an adapter that never reports it, "last filtered" is the latest start the gateway saw; a pump that
      was running all along leaves it empty. */
  lemma {:induction false} FilterStartIsLatest(id: int, h: seq<Op>)
    requires IsHistory(h) && forall i :: 0 <= i < |h| ==> F_FILTER_LAST_STARTED !in h[i].o.state
    ensures Lookup(DeviceAfter(id, h).state, F_FILTER_LAST_STARTED)
            == match LastStart(h) { case None => None case Some(at) => Some(Moment(at)) }
  {
    if |h| > 1 {
      var earlier := h[..|h| - 1];
      FilterStartIsLatest(id, earlier);
      FieldIsLastReported(id, earlier, F_FILTER_PUMP);
    }
  }

  /** Carrying the remembered start forward changes nothing that merging would not keep anyway. */
  lemma CarryIsRedundant(held: DeviceState, observed: DeviceState, now: real)
    ensures MergedWith(held, WithDerived(held, observed, now))
            == MergedWith(held, if IsOn(observed, F_FILTER_PUMP) && !IsOn(held, F_FILTER_PUMP)
                                then observed[F_FILTER_LAST_STARTED := Moment(now)] else observed)
  {
  }

  // -- the objects

  class DeviceRegistry {
    const ident: Ref -> int
    var devices: map<int, Device>
    var refs: map<int, Ref>
    var idByRef: map<Ref, int>

    function Value(): Registry
      reads this
    {
      Registry(devices, refs, idByRef)
    }

    constructor (ident: Ref -> int)
      ensures this.ident == ident && Value() == RunAll(ident, [])
    {
      this.ident := ident;
      devices, refs, idByRef := map[], map[], map[];
    }

    method RegisterDevice(ref: Ref, kind: Kind, o: Observation) returns (d: Device)
      modifies this
      ensures Value() == Registered(old(Value()), ident(ref), ref, kind, o)
      ensures d == NewDevice(ident(ref), kind, o)
    {
      d := NewDevice(ident(ref), kind, o);
      devices := devices[ident(ref) := d];
      refs := refs[ident(ref) := ref];
      idByRef := idByRef[ref := ident(ref)];
    }

    /** `apply`; nothing stands for the unknown device. */
    method Apply(id: int, o: Observation, source: Source) returns (d: Option<Device>)
      modifies this`devices
      ensures id !in old(devices) ==> d == None && devices == old(devices)
      ensures id in old(devices) ==>
                d == Some(Updated(old(devices)[id], o, source)) && devices == old(devices)[id := d.value]
    {
      if id !in devices {
        return None;
      }
      var updated := Updated(devices[id], o, source);
      devices := devices[id := updated];
      d := Some(updated);
    }
  }

  class DeviceService {
    const registry: DeviceRegistry
    var published: seq<(EventType, int)>

    constructor (registry: DeviceRegistry)
      ensures this.registry == registry && published == []
    {
      this.registry := registry;
      published := [];
    }

    /** `ingest`: apply the observation, then publish what it changed, in order. */
    method Observe(ref: Ref, o: Observation, source: Source, now: real) returns (d: Option<Device>)
      requires Consistent(registry.Value())
      modifies this, registry`devices
      ensures registry.Value() == Ingest(old(registry.Value()), ref, o, source, now).0
      ensures published == old(published) + About(Ingest(old(registry.Value()), ref, o, source, now).1,
                                                  if ref in registry.idByRef then registry.idByRef[ref] else 0)
      ensures Consistent(registry.Value())
      ensures d == if ref in registry.idByRef then Some(registry.devices[registry.idByRef[ref]]) else None
    {
      if ref !in registry.idByRef {
        return None;
      }
      var id := registry.idByRef[ref];
      var before := registry.devices[id];
      d := registry.Apply(id, Observation(WithDerived(before.state, o.state, now), o.availability, o.at), source);
      published := published + About(Transitions(before, d.value), id);
    }
  }

  function About(es: seq<EventType>, id: int): (r: seq<(EventType, int)>)
    ensures |r| == |es| && forall i :: 0 <= i < |es| ==> r[i] == (es[i], id)
  {
    if es == [] then [] else [(es[0], id)] + About(es[1..], id)
  }
}
