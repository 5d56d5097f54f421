/** One-shot timers (schedules/service.py): the records, and what each piece of code between two
    `await`s does to them. Times are hours; an id stands for a fresh `uuid4()`. */
module Schedules {
  import opened Basics
  import opened OrderedDicts
  import opened Policy

  type Time = real
  type Id = nat
  type Device = nat
  type Principal = nat
  type CommandId = nat

  const MAX_TRACKED := 200
  const TIMED_ACTIONS := {SET_HEATER, SET_FILTER}

  datatype Kind = DELAYED_START | RUN_FOR

  datatype Status = ARMED | COMPLETED | CANCELLED | SUPERSEDED | FAILED | UNKNOWN

  datatype Schedule = Schedule(
    id: Id, device: Device, kind: Kind, action: Action, desired: bool, owner: Principal,
    createdAt: Time, dueAt: Time, correlation: string,
    status: Status, failureCode: Option<string>, commandId: Option<CommandId>)
  {
    function Settled(to: Status, code: Option<string>, command: Option<CommandId>): Schedule {
      this.(status := to, failureCode := code, commandId := command)
    }
  }

  type Store = OrderedDict<Id, Schedule>

  /** What the service makes its collaborators see, in order: audit sink, event bus, command pipeline. */
  datatype Effect =
    | Created(schedule: Schedule, at: Time)
    | Settlement(schedule: Schedule, actor: Principal, at: Time)
    | Denied(owner: Principal, device: Device, action: Action, reason: string)
    | Published(armed: bool, id: Id, status: Status)
    | Submitted(timer: Option<Id>, owner: Principal, device: Device, action: Action, on: bool,
                correlation: string, at: Time)

  datatype Service = Service(now: Time, schedules: Store, nextId: Id, effects: seq<Effect>) {
    function Log(more: seq<Effect>): Service { this.(effects := effects + more) }
  }

  /** The capabilities each known device has been released for, and the configured longest delay. */
  datatype Config = Config(capabilities: map<Device, set<Capability>>, maxHours: Time)

  datatype Request = Request(owner: Principal, device: Device, action: Action, kind: Kind,
                             hours: Time, correlation: string)

  datatype Error = DEVICE_NOT_FOUND | CAPABILITY_NOT_SUPPORTED | OUT_OF_RANGE | DEVICE_UNAVAILABLE
                 | SUBMIT_REFUSED | SCHEDULE_NOT_FOUND

  datatype CommandStatus = C_SUCCEEDED | C_UNKNOWN | C_OTHER

  /** What awaiting `submit` can come back with. */
  datatype SubmitResult =
    | Returned(command: CommandId, status: CommandStatus, code: Option<string>)
    | Refused(problem: string)
    | Crashed

  // -- asking for a timer

  /** The number of half hours accepted for a requested delay, if any. */
  function ValidateHours(hours: Time, maximum: Time): Option<int> {
    var halves := RoundHalfEven(hours / 0.5);
    var rounded := halves as real * 0.5;
    if rounded < 0.5 || rounded > maximum || Abs(rounded - hours) > 0.000000001 then None else Some(halves)
  }

  /** `hours` is, up to 1e-9, `n` half hours, and `n` half hours is a permitted delay. */
  ghost predicate IsHalves(hours: Time, maximum: Time, n: int) {
    Abs(n as real * 0.5 - hours) <= 0.000000001 && 0.5 <= n as real * 0.5 <= maximum
  }

  /** A delay is accepted exactly when it lies within 1e-9 of a half-hour multiple between half an
      hour and the maximum; what is stored is that multiple. */
  lemma HoursAccepted(hours: Time, maximum: Time)
    ensures ValidateHours(hours, maximum).Some? <==> exists n: int :: IsHalves(hours, maximum, n)
    ensures forall n: int :: IsHalves(hours, maximum, n) ==> ValidateHours(hours, maximum) == Some(n)
  {
    var halves := RoundHalfEven(hours / 0.5);
    if ValidateHours(hours, maximum).Some? {
      assert IsHalves(hours, maximum, halves);
    }
    forall n: int | IsHalves(hours, maximum, n)
      ensures ValidateHours(hours, maximum) == Some(n)
    {
      HalvesAreUnique(hours, n);
    }
  }

  lemma HalvesAreUnique(hours: Time, n: int)
    requires Abs(n as real * 0.5 - hours) <= 0.000000001
    ensures RoundHalfEven(hours / 0.5) == n
  {
    var x := hours / 0.5;
    assert x == 2.0 * hours;
    assert Abs(x - n as real) < 0.5;
    RoundsTo(x, n);
  }

  datatype Opening =
    | Fail(error: Error)
    | ArmNow(halves: int)
    | AwaitStart(halves: int)

  /** `create` up to its first await: the gates, and for RUN_FOR the attended switch-on. */
  function Open(cfg: Config, s: Service, q: Request): (Service, Opening) {
    if q.device !in cfg.capabilities then (s, Fail(DEVICE_NOT_FOUND))
    else if q.action !in TIMED_ACTIONS then
      (s.Log([Denied(q.owner, q.device, q.action, "not_schedulable")]), Fail(CAPABILITY_NOT_SUPPORTED))
    else match ValidateHours(q.hours, cfg.maxHours)
      case None => (s, Fail(OUT_OF_RANGE))
      case Some(halves) =>
        if BaseCapability(q.action) !in cfg.capabilities[q.device] then
          (s.Log([Denied(q.owner, q.device, q.action, "capability_not_supported")]),
           Fail(CAPABILITY_NOT_SUPPORTED))
        else if q.kind == RUN_FOR then
          (s.Log([Submitted(None, q.owner, q.device, q.action, true, q.correlation, s.now)]),
           AwaitStart(halves))
        else (s, ArmNow(halves))
  }

  /** What `create` does with the answer to the attended switch-on. */
  function AfterStart(r: SubmitResult): (Option<Error>, Option<CommandId>) {
    match r
    case Returned(command, status, _) =>
      if status == C_OTHER then (Some(DEVICE_UNAVAILABLE), None) else (None, Some(command))
    case _ => (Some(SUBMIT_REFUSED), None)
  }

  // -- arming

  predicate Armed(store: Store, id: Id) {
    id in store.entries && store.entries[id].status == ARMED
  }

  /** The armed records among `order`, in that order. */
  function ArmedAmong(order: seq<Id>, entries: map<Id, Schedule>): (r: seq<Schedule>) {
    if order == [] then []
    else if order[0] in entries && entries[order[0]].status == ARMED
    then [entries[order[0]]] + ArmedAmong(order[1..], entries)
    else ArmedAmong(order[1..], entries)
  }

  function InsertByDue(s: Schedule, sorted: seq<Schedule>): (r: seq<Schedule>)
    ensures multiset(r) == multiset{s} + multiset(sorted)
  {
    if sorted == [] || s.dueAt < sorted[0].dueAt then [s] + sorted
    else
      assert sorted == [sorted[0]] + sorted[1..];
      [sorted[0]] + InsertByDue(s, sorted[1..])
  }

  /** Python's stable `sorted(..., key=due_at)`. */
  function SortByDue(s: seq<Schedule>): (r: seq<Schedule>)
    ensures multiset(r) == multiset(s)
  {
    if s == [] then []
    else
      assert s == s[..|s| - 1] + [s[|s| - 1]];
      InsertByDue(s[|s| - 1], SortByDue(s[..|s| - 1]))
  }

  function OnDevice(s: seq<Schedule>, device: Device): (r: seq<Schedule>) {
    if s == [] then []
    else if s[0].device == device then [s[0]] + OnDevice(s[1..], device)
    else OnDevice(s[1..], device)
  }

  /** Every armed timer on one device, soonest first. */
  function ForDevice(store: Store, device: Device): seq<Schedule> {
    SortByDue(OnDevice(ArmedAmong(store.order, store.entries), device))
  }

  /** `_settle`: write the terminal record back, audit it, publish it. */
  function Settle(s: Service, timer: Schedule, to: Status, code: Option<string>,
                  command: Option<CommandId>, actor: Option<Principal>): Service
  {
    var record := timer.Settled(to, code, command);
    s.(schedules := s.schedules.Put(record.id, record))
     .Log([Settlement(record, if actor.Some? then actor.value else timer.owner, s.now),
           Published(false, record.id, to)])
  }

  function Supersede(s: Service, existing: seq<Schedule>, action: Action): Service
    decreases |existing|
  {
    if existing == [] then s
    else Supersede(if existing[0].action == action then Settle(s, existing[0], SUPERSEDED, None, None, None) else s,
                   existing[1..], action)
  }

  /** The oldest record that is not armed. */
  function OldestSettled(order: seq<Id>, entries: map<Id, Schedule>): (r: Option<Id>)
    ensures r.Some? ==> r.value in order && r.value in entries && entries[r.value].status != ARMED
    ensures r.None? ==> forall id :: id in order && id in entries ==> entries[id].status == ARMED
  {
    if order == [] then None
    else if order[0] in entries && entries[order[0]].status != ARMED then Some(order[0])
    else
      assert order == [order[0]] + order[1..];
      OldestSettled(order[1..], entries)
  }

  /** The store once enough settled records, oldest first, have been dropped. */
  function Evict(store: Store): Store
    requires store.Valid()
    decreases |store.order|
  {
    if |store.order| <= MAX_TRACKED then store
    else match OldestSettled(store.order, store.entries)
      case None => store
      case Some(id) =>
        assert id in Elems(store.order);
        Evict(store.Remove(id))
  }

  function NewTimer(s: Service, q: Request, halves: int, command: Option<CommandId>): Schedule {
    Schedule(s.nextId, q.device, q.kind, q.action, q.kind == DELAYED_START, q.owner,
             s.now, s.now + halves as real * 0.5, q.correlation, ARMED, None, command)
  }

  /** `create` from its last await on: supersede, remember, audit, publish. */
  function Arm(s: Service, q: Request, halves: int, command: Option<CommandId>): Service
    requires s.schedules.Valid()
  {
    var timer := NewTimer(s, q, halves, command);
    var cleared := Supersede(s, ForDevice(s.schedules, q.device), q.action);
    SupersedeKeepsValid(s, ForDevice(s.schedules, q.device), q.action);
    cleared.(schedules := Evict(cleared.schedules.Put(timer.id, timer)), nextId := s.nextId + 1)
           .Log([Created(timer, s.now), Published(true, timer.id, ARMED)])
  }

  lemma {:induction false} SupersedeKeepsValid(s: Service, existing: seq<Schedule>, action: Action)
    requires s.schedules.Valid()
    ensures Supersede(s, existing, action).schedules.Valid()
    decreases |existing|
  {
    if existing != [] {
      SupersedeKeepsValid(
        if existing[0].action == action then Settle(s, existing[0], SUPERSEDED, None, None, None) else s,
        existing[1..], action);
    }
  }

  function Cancel(s: Service, actor: Principal, id: Id): Service {
    if Armed(s.schedules, id) then Settle(s, s.schedules.entries[id], CANCELLED, None, None, Some(actor))
    else s
  }

  // -- firing

  function DueAmong(armed: seq<Schedule>, now: Time): (r: seq<Schedule>) {
    if armed == [] then []
    else if armed[0].dueAt <= now then [armed[0]] + DueAmong(armed[1..], now)
    else DueAmong(armed[1..], now)
  }

  /** The loop's snapshot: every armed timer whose moment has come. */
  function Due(s: Service): seq<Schedule> {
    DueAmong(ArmedAmong(s.schedules.order, s.schedules.entries), s.now)
  }

  /** `fire` up to its await. */
  function FireStart(s: Service, timer: Schedule): Service {
    s.Log([Submitted(Some(timer.id), timer.owner, timer.device, timer.action, timer.desired,
                     timer.correlation, s.now)])
  }

  /** `fire` after its await, and the loop's own guard against a crash. */
  function FireEnd(s: Service, timer: Schedule, r: SubmitResult): Service {
    match r
    case Refused(problem) => Settle(s, timer, FAILED, Some(problem), None, None)
    case Crashed => Settle(s, timer, FAILED, Some("internal_error"), None, None)
    case Returned(command, status, code) =>
      Settle(s, timer, if status == C_SUCCEEDED then COMPLETED else if status == C_UNKNOWN then UNKNOWN else FAILED,
             code, Some(command), None)
  }

  // -- the object

  class ScheduleService {
    const cfg: Config
    var now: Time
    var schedules: Store
    var nextId: Id
    var effects: seq<Effect>

    function Value(): Service
      reads this
    {
      Service(now, schedules, nextId, effects)
    }

    constructor (cfg: Config, now: Time)
      ensures this.cfg == cfg && Value() == Service(now, OrderedDict([], map[]), 0, [])
    {
      this.cfg, this.now, this.schedules, this.nextId, this.effects := cfg, now, OrderedDict([], map[]), 0, [];
    }

    /** `get`. */
    method Get(id: Id) returns (r: Option<Schedule>)
      ensures r == if id in schedules.entries then Some(schedules.entries[id]) else None
    {
      r := if id in schedules.entries then Some(schedules.entries[id]) else None;
    }

    method SettleTimer(timer: Schedule, to: Status, code: Option<string>, command: Option<CommandId>,
                       actor: Option<Principal>) returns (record: Schedule)
      modifies this`schedules, this`effects
      ensures Value() == Settle(old(Value()), timer, to, code, command, actor)
      ensures record == timer.Settled(to, code, command)
    {
      record := timer.Settled(to, code, command);
      schedules := schedules.Put(record.id, record);
      effects := effects + [Settlement(record, if actor.Some? then actor.value else timer.owner, now)];
      effects := effects + [Published(false, record.id, to)];
      assert effects == old(effects)
        + [Settlement(record, if actor.Some? then actor.value else timer.owner, now), Published(false, record.id, to)];
    }

    /** The inner loop of `_remember`: delete the oldest settled record, if there is one. */
    method DropOldestSettled() returns (dropped: bool)
      requires schedules.Valid()
      modifies this`schedules
      ensures schedules.Valid()
      ensures match OldestSettled(old(schedules).order, old(schedules).entries)
        case None => !dropped && schedules == old(schedules)
        case Some(id) => dropped && schedules == old(schedules).Remove(id)
    {
      var order, entries := schedules.order, schedules.entries;
      assert forall j :: 0 <= j < |order| ==> order[j] in Elems(order);
      for i := 0 to |order|
        invariant schedules == old(schedules)
        invariant OldestSettled(order, entries) == OldestSettled(order[i..], entries)
      {
        assert order[i] in Elems(order);
        assert order[i..][1..] == order[i + 1..];
        if entries[order[i]].status != ARMED {
          schedules := schedules.Remove(order[i]);
          return true;
        }
      }
      assert order[|order|..] == [];
      dropped := false;
    }

    /** `_remember`: store the timer, then drop the oldest settled records while over the bound. */
    method Remember(timer: Schedule)
      requires schedules.Valid()
      modifies this`schedules
      ensures schedules.Valid() && schedules == Evict(old(schedules).Put(timer.id, timer))
    {
      schedules := schedules.Put(timer.id, timer);
      ghost var full := schedules;
      while |schedules.order| > MAX_TRACKED
        invariant schedules.Valid() && Evict(schedules) == Evict(full)
        decreases |schedules.order|
      {
        ghost var before := schedules;
        var dropped := DropOldestSettled();
        if !dropped {
          return;
        }
        assert OldestSettled(before.order, before.entries).value in Elems(before.order);
      }
    }

    /** `create` up to its first await. */
    method OpenCreate(q: Request) returns (r: Opening)
      modifies this`effects
      ensures (Value(), r) == Open(cfg, old(Value()), q)
    {
      if q.device !in cfg.capabilities {
        return Fail(DEVICE_NOT_FOUND);
      }
      if q.action !in TIMED_ACTIONS {
        effects := effects + [Denied(q.owner, q.device, q.action, "not_schedulable")];
        return Fail(CAPABILITY_NOT_SUPPORTED);
      }
      var delay := ValidateHours(q.hours, cfg.maxHours);
      if delay.None? {
        return Fail(OUT_OF_RANGE);
      }
      if BaseCapability(q.action) !in cfg.capabilities[q.device] {
        effects := effects + [Denied(q.owner, q.device, q.action, "capability_not_supported")];
        return Fail(CAPABILITY_NOT_SUPPORTED);
      }
      if q.kind == RUN_FOR {
        effects := effects + [Submitted(None, q.owner, q.device, q.action, true, q.correlation, now)];
        return AwaitStart(delay.value);
      }
      r := ArmNow(delay.value);
    }

    /** `create` from its last await on. */
    method ArmTimer(q: Request, halves: int, command: Option<CommandId>) returns (timer: Schedule)
      requires schedules.Valid()
      modifies this`schedules, this`nextId, this`effects
      ensures Value() == Arm(old(Value()), q, halves, command)
      ensures timer == NewTimer(old(Value()), q, halves, command)
    {
      timer := NewTimer(Value(), q, halves, command);
      nextId := nextId + 1;
      var existing := ForDevice(schedules, q.device);
      ghost var start := old(Value());
      ghost var goal := Supersede(start, existing, q.action);
      for i := 0 to |existing|
        invariant schedules.Valid() && now == old(now) && nextId == old(nextId) + 1
        invariant Supersede(Value().(nextId := old(nextId)), existing[i..], q.action) == goal
      {
        assert existing[i..][1..] == existing[i + 1..];
        if existing[i].action == q.action {
          ghost var before := Value().(nextId := old(nextId));
          var _ := SettleTimer(existing[i], SUPERSEDED, None, None, None);
          assert Value().(nextId := old(nextId)) == Settle(before, existing[i], SUPERSEDED, None, None, None);
        }
      }
      assert existing[|existing|..] == [];
      Remember(timer);
      effects := effects + [Created(timer, now)];
      effects := effects + [Published(true, timer.id, ARMED)];
      assert effects == goal.effects + [Created(timer, now), Published(true, timer.id, ARMED)];
    }

    method CancelTimer(actor: Principal, id: Id) returns (r: Option<Schedule>)
      modifies this`schedules, this`effects
      ensures Value() == Cancel(old(Value()), actor, id)
      ensures r == if id !in old(schedules).entries then None
                   else if !Armed(old(schedules), id) then Some(old(schedules).entries[id])
                   else Some(old(schedules).entries[id].Settled(CANCELLED, None, None))
    {
      r := Get(id);
      if r.Some? && r.value.status == ARMED {
        var settled := SettleTimer(r.value, CANCELLED, None, None, Some(actor));
        r := Some(settled);
      }
    }

    method BeginFire(timer: Schedule)
      modifies this`effects
      ensures Value() == FireStart(old(Value()), timer)
    {
      effects := effects + [Submitted(Some(timer.id), timer.owner, timer.device, timer.action, timer.desired,
                                      timer.correlation, now)];
    }

    method EndFire(timer: Schedule, r: SubmitResult)
      modifies this`schedules, this`effects
      ensures Value() == FireEnd(old(Value()), timer, r)
    {
      match r {
        case Refused(problem) => var _ := SettleTimer(timer, FAILED, Some(problem), None, None);
        case Crashed => var _ := SettleTimer(timer, FAILED, Some("internal_error"), None, None);
        case Returned(command, status, code) =>
          var to := if status == C_SUCCEEDED then COMPLETED else if status == C_UNKNOWN then UNKNOWN else FAILED;
          var _ := SettleTimer(timer, to, code, Some(command), None);
      }
    }
  }
}
