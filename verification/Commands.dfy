/** The mutation pipeline (commands/service.py): gates, records, the lock table, and what each piece
    of `submit` between two `await`s does. */
module Commands {
  import opened Basics
  import opened OrderedDicts
  import opened Policy
  import opened DeviceModel
  import opened Reconcile

  type Id = nat
  type Device = nat
  type Principal = nat
  type LockId = nat

  const COMMAND_TTL := 120.0
  const MAX_TRACKED_COMMANDS := 500
  const MAX_DEVICE_LOCKS := 256

  datatype Status = PENDING | RUNNING | SUCCEEDED | FAILED | UNKNOWN

  datatype Command = Command(
    id: Id, device: Device, owner: Principal, action: Action, params: Params, risk: RiskClass,
    correlation: string, createdAt: real, expiresAt: real, startedAt: Option<real>,
    completedAt: Option<real>, status: Status, failureCode: Option<string>)
  {
    function WithStatus(to: Status, at: real, code: Option<string>): Command {
      var moved := this.(status := to, failureCode := code);
      if to == RUNNING then moved.(startedAt := Some(at)) else moved.(completedAt := Some(at))
    }
  }

  datatype Info = Info(capabilities: set<Capability>, minC: Option<real>, maxC: Option<real>,
                       availability: Availability)

  datatype Request = Request(owner: Principal, device: Device, action: Action, params: Params,
                             correlation: string)

  datatype Error = DEVICE_NOT_FOUND | INVALID_PARAMETERS | CAPABILITY_NOT_SUPPORTED | OUT_OF_RANGE
                 | AUTHORIZATION_REQUIRED | DEVICE_UNAVAILABLE

  // -- the gates

  datatype Verdict = Refuse(error: Error, audited: Option<string>) | Admit(risk: RiskClass)

  predicate InRange(info: Info, params: Params) {
    params.TargetTemperature? ==>
      info.minC.Some? && info.maxC.Some? && info.minC.value <= params.celsius <= info.maxC.value
  }

  /** `submit` up to the creation of the command. */
  function Gate(devices: map<Device, Info>, q: Request): Verdict {
    if q.device !in devices then Refuse(DEVICE_NOT_FOUND, None)
    else if !Validates(q.action, q.params) then Refuse(INVALID_PARAMETERS, None)
    else
      var info := devices[q.device];
      if RequiredCapability(q.action, q.params) !in info.capabilities then
        Refuse(CAPABILITY_NOT_SUPPORTED, Some("capability_not_supported"))
      else if !InRange(info, q.params) then Refuse(OUT_OF_RANGE, None)
      else if Classify(q.action, q.params) == HIGH then
        Refuse(AUTHORIZATION_REQUIRED, Some("action_authorization_required"))
      else if info.availability == OFFLINE then Refuse(DEVICE_UNAVAILABLE, Some("device_unavailable"))
      else Admit(Classify(q.action, q.params))
  }

  /** What it takes to reach a device: known, well-formed, released for exactly this, within the
      device's own verified range, never an unlock or unlatch, and not offline. */
  lemma AdmittedExactly(devices: map<Device, Info>, q: Request)
    ensures Gate(devices, q).Admit? <==>
      && q.device in devices
      && Validates(q.action, q.params)
      && RequiredCapability(q.action, q.params) in devices[q.device].capabilities
      && InRange(devices[q.device], q.params)
      && q.action != UNLATCH
      && q.params != LockTo(UNLOCKED)
      && devices[q.device].availability != OFFLINE
    ensures Gate(devices, q).Admit? ==> Gate(devices, q).risk != HIGH
  {
  }

  /** Having LOCK allows locking and nothing more: an unlock is refused for the missing UNLOCK, and with UNLOCK
      for the missing authorisation. */
  lemma UnlockingNeedsMore(devices: map<Device, Info>, q: Request)
    requires q.device in devices && q.action == SET_LOCK_STATE && devices[q.device].availability != OFFLINE
    ensures q.params == LockTo(LOCKED) ==> (Gate(devices, q).Admit? <==> LOCK in devices[q.device].capabilities)
    ensures q.params == LockTo(UNLOCKED) ==>
              Gate(devices, q).Refuse?
              && (Gate(devices, q).error == AUTHORIZATION_REQUIRED <==> UNLOCK in devices[q.device].capabilities)
              && (Gate(devices, q).error == CAPABILITY_NOT_SUPPORTED <==> UNLOCK !in devices[q.device].capabilities)
  {
  }

  /** Which error a refused request gets, and whether the refusal is audited: the first thing wrong with it, in
      the order device, parameters, capability, range, authorisation, availability. */
  lemma RefusedExactly(devices: map<Device, Info>, q: Request)
    requires Gate(devices, q).Refuse?
    ensures var r, known := Gate(devices, q), q.device in devices;
            var valid := known && Validates(q.action, q.params);
            var able := valid && RequiredCapability(q.action, q.params) in devices[q.device].capabilities;
            var fits := able && InRange(devices[q.device], q.params);
            var grants := q.action == UNLATCH || q.params == LockTo(UNLOCKED);
            && (r.error == DEVICE_NOT_FOUND <==> !known)
            && (r.error == INVALID_PARAMETERS <==> known && !valid)
            && (r.error == CAPABILITY_NOT_SUPPORTED <==> valid && !able)
            && (r.error == OUT_OF_RANGE <==> able && !fits)
            && (r.error == AUTHORIZATION_REQUIRED <==> fits && grants)
            && (r.error == DEVICE_UNAVAILABLE <==> fits && !grants && devices[q.device].availability == OFFLINE)
            && (r.audited == Some("capability_not_supported") <==> valid && !able)
            && (r.audited == Some("action_authorization_required") <==> fits && grants)
            && (r.audited == Some("device_unavailable") <==> r.error == DEVICE_UNAVAILABLE)
            && (r.audited == None <==> !known || !valid || (able && !fits))
  {
  }

  // -- effects on the collaborators

  datatype Notice = COMMAND_REQUESTED | COMMAND_STARTED | COMMAND_SUCCEEDED | COMMAND_FAILED | COMMAND_TIMED_OUT

  datatype Effect =
    | Remembered(command: Command)
    | AuditRequested(command: Command)
    | AuditCompleted(command: Command)
    | AuditDenied(q: Request, reason: string)
    | Published(notice: Notice, command: Command)
    | WriteCalled(command: Command)
    | ReadCalled(command: Command)
    | Ingested(command: Command, state: DeviceState, fromWrite: bool)

  // -- records

  type CommandStore = OrderedDict<Id, Command>

  /** `_remember`. */
  function RememberIn(store: CommandStore, c: Command): CommandStore {
    Trim(store.Put(c.id, c).MoveToEnd(c.id))
  }

  function Trim(store: CommandStore): CommandStore
    decreases |store.order|
  {
    if |store.order| <= MAX_TRACKED_COMMANDS then store else Trim(store.PopOldest())
  }

  // -- locks

  /** The lock table; `served` numbers the look-ups, so that a lock made by one has an identity. */
  datatype Locks = Locks(table: OrderedDict<Device, LockId>, served: nat)

  /** `_device_lock`. */
  function DeviceLock(l: Locks, device: Device): (Locks, LockId) {
    var table :=
      if device in l.table.entries then l.table
      else
        (if |l.table.order| >= MAX_DEVICE_LOCKS then l.table.PopOldest() else l.table).Put(device, l.served);
    (Locks(table.MoveToEnd(device), l.served + 1), table.entries[device])
  }

  // -- the service's own state

  datatype Service = Service(now: real, commands: CommandStore, locks: Locks, nextId: Id, effects: seq<Effect>) {
    function Log(more: seq<Effect>): Service { Service(now, commands, locks, nextId, effects + more) }
  }

  /** `_remember`, seen in the log as well. */
  function Remember(s: Service, c: Command): Service {
    Service(s.now, RememberIn(s.commands, c), s.locks, s.nextId, s.effects + [Remembered(c)])
  }

  function NewCommand(s: Service, q: Request, risk: RiskClass): Command {
    Command(s.nextId, q.device, q.owner, q.action, q.params, risk, q.correlation, s.now, s.now + COMMAND_TTL,
            None, None, PENDING, None)
  }

  /** `_create`, of the record `NewCommand` describes. */
  function Create(s: Service, c: Command): Service {
    Remember(s, c).Log([AuditRequested(c), Published(COMMAND_REQUESTED, c)]).(nextId := s.nextId + 1)
  }

  /** `_execute` up to its wait for the device lock. */
  function Start(s: Service, c: Command): (Service, Command, LockId) {
    var running := c.WithStatus(RUNNING, s.now, None);
    var stored := Remember(s, running);
    var (locks, lock) := DeviceLock(s.locks, c.device);
    (Service(s.now, stored.commands, locks, s.nextId, stored.effects + [Published(COMMAND_STARTED, running)]),
     running, lock)
  }

  function CompletionEvent(to: Status): Option<Notice> {
    match to
    case SUCCEEDED => Some(COMMAND_SUCCEEDED)
    case FAILED => Some(COMMAND_FAILED)
    case UNKNOWN => Some(COMMAND_TIMED_OUT)
    case _ => None
  }

  /** The completion event of a finished command, if its status has one. */
  function Announced(final: Command): seq<Effect> {
    match CompletionEvent(final.status) case None => [] case Some(e) => [Published(e, final)]
  }

  /** `_finish`. */
  function Finish(s: Service, running: Command, to: Status, code: Option<string>): Service {
    var finished := running.WithStatus(to, s.now, code);
    Remember(s, finished).Log([AuditCompleted(finished)] + Announced(finished))
  }

  // -- what the adapter can answer

  datatype WriteOutcome =
    | Applied(state: Option<DeviceState>)
    | Rejected(state: Option<DeviceState>, code: Option<string>)
    | Unsure(state: Option<DeviceState>, code: Option<string>)
    | ProviderFailed(failure: string)
    | Crashed
    | TimedOut

  datatype ReadOutcome = Observed(observed: DeviceState) | NotObserved

  function Reported(w: WriteOutcome): Option<DeviceState> {
    match w
    case Applied(state) => state
    case Rejected(state, _) => state
    case Unsure(state, _) => state
    case _ => None
  }

  /** The status and failure code a directly answered write ends with. */
  function Verdicted(w: WriteOutcome): (Status, Option<string>)
    requires !w.TimedOut?
  {
    match w
    case Applied(_) => (SUCCEEDED, None)
    case Rejected(_, code) => (FAILED, if code == None || code == Some("") then Some("rejected") else code)
    case Unsure(_, code) => (UNKNOWN, code)
    case ProviderFailed(failure) => (FAILED, Some(failure))
    case Crashed => (FAILED, Some("internal_error"))
  }

  /** The same for a write that timed out, from the one read-back. */
  function Reconciled(running: Command, r: ReadOutcome): (Status, Option<string>) {
    match r
    case NotObserved => (UNKNOWN, Some("reconciliation_failed"))
    case Observed(state) =>
      if DesiredMatches(running.action, running.params, state) == Some(true) then (SUCCEEDED, None)
      else (UNKNOWN, Some("device_response_timeout"))
  }

  function IngestIf(s: Service, running: Command, state: Option<DeviceState>, fromWrite: bool): Service {
    if state.None? then s else s.Log([Ingested(running, state.value, fromWrite)])
  }

  /** `_execute` after the adapter answered (or raised). */
  function AfterWrite(s: Service, running: Command, w: WriteOutcome): Service
    requires !w.TimedOut?
  {
    var (to, code) := Verdicted(w);
    Finish(IngestIf(s, running, Reported(w), true), running, to, code)
  }

  /** `_reconcile` up to its read, after the write timed out. */
  function StartReconcile(s: Service, running: Command): Service {
    s.Log([Published(COMMAND_TIMED_OUT, running), ReadCalled(running)])
  }

  /** `_reconcile` after its read. */
  function AfterRead(s: Service, running: Command, r: ReadOutcome): Service {
    var (to, code) := Reconciled(running, r);
    Finish(IngestIf(s, running, if r.Observed? then Some(r.observed) else None, false), running, to, code)
  }

  // -- the object

  class CommandService {
    var now: real
    var commands: CommandStore
    var locks: Locks
    var nextId: Id
    var effects: seq<Effect>

    function Value(): Service
      reads this
    {
      Service(now, commands, locks, nextId, effects)
    }

    constructor (now: real)
      ensures Value() == Service(now, OrderedDict([], map[]), Locks(OrderedDict([], map[]), 0), 0, [])
    {
      this.now, commands, locks, nextId, effects :=
        now, OrderedDict([], map[]), Locks(OrderedDict([], map[]), 0), 0, [];
    }

    /** `_remember`. */
    method RememberCommand(c: Command)
      modifies this`commands, this`effects
      ensures Value() == Remember(old(Value()), c)
    {
      commands := commands.Put(c.id, c);
      commands := commands.MoveToEnd(c.id);
      ghost var full := commands;
      while |commands.order| > MAX_TRACKED_COMMANDS
        invariant Trim(commands) == Trim(full)
        invariant effects == old(effects)
        decreases |commands.order|
      {
        commands := commands.PopOldest();
      }
      assert commands == Trim(full) == RememberIn(old(commands), c);
      effects := effects + [Remembered(c)];
    }

    /** `_device_lock`. */
    method LockFor(device: Device) returns (lock: LockId)
      modifies this`locks
      ensures (locks, lock) == DeviceLock(old(locks), device)
    {
      var table := locks.table;
      if device !in table.entries {
        if |table.order| >= MAX_DEVICE_LOCKS {
          table := table.PopOldest();
        }
        table := table.Put(device, locks.served);
      }
      lock := table.entries[device];
      locks := Locks(table.MoveToEnd(device), locks.served + 1);
    }

    /** `_create`. */
    method CreateCommand(q: Request, risk: RiskClass) returns (c: Command)
      modifies this`commands, this`effects, this`nextId
      ensures c == NewCommand(old(Value()), q, risk)
      ensures Value() == Create(old(Value()), c)
    {
      c := NewCommand(Value(), q, risk);
      RememberCommand(c);
      effects := effects + [AuditRequested(c), Published(COMMAND_REQUESTED, c)];
      nextId := nextId + 1;
    }

    /** `_execute` up to its wait for the device lock. */
    method StartCommand(c: Command) returns (running: Command, lock: LockId)
      modifies this`commands, this`effects, this`locks
      ensures (Value(), running, lock) == Start(old(Value()), c)
    {
      running := c.WithStatus(RUNNING, now, None);
      RememberCommand(running);
      effects := effects + [Published(COMMAND_STARTED, running)];
      lock := LockFor(c.device);
    }

    /** `submit` from the gates to the wait for the lock. */
    method Submit(devices: map<Device, Info>, q: Request)
      returns (verdict: Verdict, begun: Option<(Command, LockId)>)
      modifies this
      ensures verdict == Gate(devices, q)
      ensures verdict.Refuse? ==>
        begun == None
        && Value() == if verdict.audited.Some? then old(Value()).Log([AuditDenied(q, verdict.audited.value)])
                      else old(Value())
      ensures verdict.Admit? ==>
        var c := NewCommand(old(Value()), q, verdict.risk);
        begun.Some? && (Value(), begun.value.0, begun.value.1) == Start(Create(old(Value()), c), c)
    {
      verdict, begun := Gate(devices, q), None;
      match verdict {
        case Refuse(_, audited) =>
          if audited.Some? {
            effects := effects + [AuditDenied(q, audited.value)];
          }
        case Admit(risk) =>
          var c := CreateCommand(q, risk);
          var running, lock := StartCommand(c);
          begun := Some((running, lock));
      }
    }

    /** `_finish`. */
    method FinishCommand(running: Command, to: Status, code: Option<string>) returns (finished: Command)
      modifies this`commands, this`effects
      ensures Value() == Finish(old(Value()), running, to, code)
      ensures finished == running.WithStatus(to, now, code)
    {
      finished := running.WithStatus(to, now, code);
      RememberCommand(finished);
      effects := effects + ([AuditCompleted(finished)] + Announced(finished));
    }

    /** `_execute` after the adapter answered. */
    method WriteAnswered(running: Command, w: WriteOutcome) returns (finished: Command)
      requires !w.TimedOut?
      modifies this`commands, this`effects
      ensures Value() == AfterWrite(old(Value()), running, w)
      ensures finished == running.WithStatus(Verdicted(w).0, now, Verdicted(w).1)
    {
      if w.ProviderFailed? {
        finished := FinishCommand(running, FAILED, Some(w.failure));
        return;
      }
      if w.Crashed? {
        finished := FinishCommand(running, FAILED, Some("internal_error"));
        return;
      }
      var state := Reported(w);
      if state.Some? {
        effects := effects + [Ingested(running, state.value, true)];
      }
      if w.Applied? {
        finished := FinishCommand(running, SUCCEEDED, None);
      } else if w.Rejected? {
        finished := FinishCommand(running, FAILED,
          if w.code == None || w.code == Some("") then Some("rejected") else w.code);
      } else {
        finished := FinishCommand(running, UNKNOWN, w.code);
      }
    }

    /** `_reconcile` after its one read. */
    method ReadAnswered(running: Command, r: ReadOutcome) returns (finished: Command)
      modifies this`commands, this`effects
      ensures Value() == AfterRead(old(Value()), running, r)
      ensures finished == running.WithStatus(Reconciled(running, r).0, now, Reconciled(running, r).1)
    {
      if r.NotObserved? {
        finished := FinishCommand(running, UNKNOWN, Some("reconciliation_failed"));
        return;
      }
      effects := effects + [Ingested(running, r.observed, false)];
      if DesiredMatches(running.action, running.params, r.observed) == Some(true) {
        finished := FinishCommand(running, SUCCEEDED, None);
      } else {
        finished := FinishCommand(running, UNKNOWN, Some("device_response_timeout"));
      }
    }
  }
}
