/** Every interleaving of concurrent `submit`s. A step is the code between two `await`s; a step that is
    not enabled changes nothing. */
module CommandRuns {
  import opened Basics
  import opened OrderedDicts
  import Lru
  import opened Policy
  import opened DeviceModel
  import opened Commands

  /** How a write was decided: by the adapter's own answer, or by the read-back after a timeout. */
  datatype Path = Direct(w: WriteOutcome) | AfterTimeout(r: ReadOutcome)

  datatype Phase = Waiting | Executing | Reconciling | Done(path: Path, final: Command)

  /** One call of `submit` past its gates; `ticket` is the index of its lock look-up. */
  datatype Call = Call(first: Command, running: Command, lock: LockId, ticket: nat, phase: Phase)

  /** `lookups` is the history of the lock table: the device of every look-up so far. */
  datatype World = World(s: Service, devices: map<Device, Info>, calls: map<Id, Call>, lookups: seq<Device>)

  datatype Event =
    | Advance(dt: real)
    | Observe(device: Device, info: Info)
    | Submit(q: Request)
    | Enter(id: Id)
    | WriteReturned(id: Id, w: WriteOutcome)
    | ReadReturned(id: Id, r: ReadOutcome)

  function Initial(now: real, devices: map<Device, Info>): World {
    World(Service(now, OrderedDict([], map[]), Locks(OrderedDict([], map[]), 0), 0, []), devices, map[], [])
  }

  /** Inside `async with lock`: the write or the read-back is in progress. */
  predicate InCritical(c: Call) { c.phase.Executing? || c.phase.Reconciling? }

  predicate Held(calls: map<Id, Call>, lock: LockId) {
    exists id :: id in calls && InCritical(calls[id]) && calls[id].lock == lock
  }

  function Final(s: Service, running: Command, verdict: (Status, Option<string>)): Command {
    running.WithStatus(verdict.0, s.now, verdict.1)
  }

  function Step(w: World, e: Event): World {
    match e
    case Advance(dt) => if dt <= 0.0 then w else w.(s := w.s.(now := w.s.now + dt))
    case Observe(device, info) => w.(devices := w.devices[device := info])
    case Submit(q) => StepSubmit(w, q)
    case Enter(id) => StepEnter(w, id)
    case WriteReturned(id, outcome) => StepAnswer(w, id, outcome)
    case ReadReturned(id, outcome) => StepRead(w, id, outcome)
  }

  /** The lock is free: the call enters, and calls the adapter. */
  function StepEnter(w: World, id: Id): World {
    if id !in w.calls || w.calls[id].phase != Waiting || Held(w.calls, w.calls[id].lock) then w
    else Moved(w, w.s.Log([WriteCalled(w.calls[id].running)]), id, Executing)
  }

  function StepAnswer(w: World, id: Id, outcome: WriteOutcome): World {
    if id !in w.calls || w.calls[id].phase != Executing then w
    else if outcome.TimedOut? then Moved(w, StartReconcile(w.s, w.calls[id].running), id, Reconciling)
    else
      var running := w.calls[id].running;
      Moved(w, AfterWrite(w.s, running, outcome), id, Done(Direct(outcome), Final(w.s, running, Verdicted(outcome))))
  }

  function StepRead(w: World, id: Id, outcome: ReadOutcome): World {
    if id !in w.calls || w.calls[id].phase != Reconciling then w
    else
      var running := w.calls[id].running;
      Moved(w, AfterRead(w.s, running, outcome), id,
            Done(AfterTimeout(outcome), Final(w.s, running, Reconciled(running, outcome))))
  }

  /** One call goes on to its next phase. */
  function Moved(w: World, s: Service, id: Id, to: Phase): World
    requires id in w.calls
  {
    World(s, w.devices, w.calls[id := w.calls[id].(phase := to)], w.lookups)
  }

  function StepSubmit(w: World, q: Request): World {
    match Gate(w.devices, q)
    case Refuse(_, audited) =>
      if audited.None? then w else w.(s := w.s.Log([AuditDenied(q, audited.value)]))
    case Admit(risk) =>
      var c := NewCommand(w.s, q, risk);
      var (s, running, lock) := Start(Create(w.s, c), c);
      World(s, w.devices, w.calls[c.id := Call(c, running, lock, |w.lookups|, Waiting)], w.lookups + [q.device])
  }

  function Exec(w: World, events: seq<Event>): World
    decreases |events|
  {
    if events == [] then w else Exec(Step(w, events[0]), events[1..])
  }

  // -- the log, one command at a time

  function About(e: Effect): Option<Id> {
    if e.AuditDenied? then None else Some(e.command.id)
  }

  function Trace(log: seq<Effect>, id: Id): seq<Effect> {
    if log == [] then []
    else Trace(log[..|log| - 1], id) + if About(log[|log| - 1]) == Some(id) then [log[|log| - 1]] else []
  }

  lemma {:induction false} TraceConcat(a: seq<Effect>, b: seq<Effect>, id: Id)
    ensures Trace(a + b, id) == Trace(a, id) + Trace(b, id)
    decreases |b|
  {
    if b == [] {
      assert a + b == a;
    } else {
      var b', x := b[..|b| - 1], b[|b| - 1];
      assert a + b == (a + b') + [x];
      TraceConcat(a, b', id);
    }
  }

  /** All of `b` is about one command. */
  lemma {:induction false} TraceOwn(b: seq<Effect>, id: Id, own: Id)
    requires forall i :: 0 <= i < |b| ==> About(b[i]) == Some(own)
    ensures Trace(b, id) == if id == own then b else []
    decreases |b|
  {
    if b != [] {
      TraceOwn(b[..|b| - 1], id, own);
      assert b == b[..|b| - 1] + [b[|b| - 1]];
    }
  }

  // -- what each piece of the pipeline adds to the log

  function Opening(first: Command, running: Command): seq<Effect> {
    [Remembered(first), AuditRequested(first), Published(COMMAND_REQUESTED, first),
     Remembered(running), Published(COMMAND_STARTED, running)]
  }

  function Ingest(running: Command, state: Option<DeviceState>, fromWrite: bool): seq<Effect> {
    if state.None? then [] else [Ingested(running, state.value, fromWrite)]
  }

  function Closing(final: Command): seq<Effect> {
    [Remembered(final), AuditCompleted(final)] + Announced(final)
  }

  /** Everything a call makes happen, as a function of where it is and what it was answered. */
  function Expected(c: Call): seq<Effect> {
    Opening(c.first, c.running) + Middle(c)
  }

  function Middle(c: Call): seq<Effect> {
    match c.phase
    case Waiting => []
    case Executing => [WriteCalled(c.running)]
    case Reconciling => [WriteCalled(c.running)] + [Published(COMMAND_TIMED_OUT, c.running), ReadCalled(c.running)]
    case Done(Direct(w), final) => [WriteCalled(c.running)] + (Ingest(c.running, Reported(w), true) + Closing(final))
    case Done(AfterTimeout(r), final) =>
      [WriteCalled(c.running)] + [Published(COMMAND_TIMED_OUT, c.running), ReadCalled(c.running)]
      + (Ingest(c.running, if r.Observed? then Some(r.observed) else None, false) + Closing(final))
  }

  /** The records of a call: created PENDING, RUNNING from then on, and one verdict at the end. */
  ghost predicate CallOk(id: Id, c: Call) {
    && c.first.id == id && c.first.status == PENDING && c.first.risk != HIGH
    && c.first.startedAt == None && c.first.completedAt == None && c.first.failureCode == None
    && c.running.startedAt.Some? && c.running == c.first.WithStatus(RUNNING, c.running.startedAt.value, None)
    && match c.phase
       case Done(path, final) =>
         && final.completedAt.Some?
         && (path.Direct? ==> !path.w.TimedOut?)
         && var (to, code) := if path.Direct? then Verdicted(path.w) else Reconciled(c.running, path.r);
            final == c.running.WithStatus(to, final.completedAt.value, code)
       case _ => true
  }

  lemma CreateLog(s: Service, c: Command)
    ensures Create(s, c).effects
            == s.effects + [Remembered(c), AuditRequested(c), Published(COMMAND_REQUESTED, c)]
  {
    assert [Remembered(c)] + [AuditRequested(c), Published(COMMAND_REQUESTED, c)]
        == [Remembered(c), AuditRequested(c), Published(COMMAND_REQUESTED, c)];
  }

  lemma StartLog(s: Service, c: Command)
    ensures var (s', running, lock) := Start(s, c);
            && running == c.WithStatus(RUNNING, s.now, None)
            && s'.effects == s.effects + [Remembered(running), Published(COMMAND_STARTED, running)]
            && s'.nextId == s.nextId && s'.now == s.now && (s'.locks, lock) == DeviceLock(s.locks, c.device)
  {
    var running := c.WithStatus(RUNNING, s.now, None);
    assert [Remembered(running)] + [Published(COMMAND_STARTED, running)]
        == [Remembered(running), Published(COMMAND_STARTED, running)];
  }

  lemma OpeningLog(s: Service, c: Command)
    ensures var (s', running, lock) := Start(Create(s, c), c);
            && s'.effects == s.effects + Opening(c, running)
            && running == c.WithStatus(RUNNING, s.now, None)
            && s'.nextId == s.nextId + 1 && s'.now == s.now
            && (s'.locks, lock) == DeviceLock(s.locks, c.device)
  {
    CreateLog(s, c);
    StartLog(Create(s, c), c);
  }

  lemma AfterWriteLog(s: Service, running: Command, w: WriteOutcome)
    requires !w.TimedOut?
    ensures var s' := AfterWrite(s, running, w);
            && s'.effects == s.effects + (Ingest(running, Reported(w), true) + Closing(Final(s, running, Verdicted(w))))
            && s'.nextId == s.nextId && s'.locks == s.locks
  {
  }

  lemma AfterReadLog(s: Service, running: Command, r: ReadOutcome)
    ensures var s' := AfterRead(s, running, r);
            && s'.effects == s.effects
                 + (Ingest(running, if r.Observed? then Some(r.observed) else None, false)
                    + Closing(Final(s, running, Reconciled(running, r))))
            && s'.nextId == s.nextId && s'.locks == s.locks
  {
  }

  // -- the invariant on traces

  ghost predicate Traced(w: World, id: Id) {
    if id in w.calls then
      id < w.s.nextId && CallOk(id, w.calls[id]) && Trace(w.s.effects, id) == Expected(w.calls[id])
    else Trace(w.s.effects, id) == []
  }

  ghost predicate TraceInv(w: World) {
    && (forall id: Id :: Traced(w, id))
    && (forall id :: id in w.calls <==> 0 <= id < w.s.nextId)
  }

  /** A call moves on by adding its own effects. */
  lemma MoveOn(w: World, s': Service, id: Id, to: Phase, more: seq<Effect>)
    requires TraceInv(w) && id in w.calls
    requires s'.effects == w.s.effects + more && s'.nextId == w.s.nextId
    requires forall i :: 0 <= i < |more| ==> About(more[i]) == Some(id)
    requires CallOk(id, w.calls[id].(phase := to))
    requires Expected(w.calls[id].(phase := to)) == Expected(w.calls[id]) + more
    ensures TraceInv(Moved(w, s', id, to))
  {
    var w' := Moved(w, s', id, to);
    forall other: Id ensures Traced(w', other) {
      assert Traced(w, other);
      TraceConcat(w.s.effects, more, other);
      TraceOwn(more, other, id);
    }
  }

  lemma RefusedTraced(w: World, e: Effect)
    requires TraceInv(w) && e.AuditDenied?
    ensures TraceInv(World(w.s.Log([e]), w.devices, w.calls, w.lookups))
  {
    var w' := World(w.s.Log([e]), w.devices, w.calls, w.lookups);
    forall id: Id ensures Traced(w', id) {
      assert Traced(w, id);
      TraceConcat(w.s.effects, [e], id);
      assert [e][..0] == [];
    }
  }

  lemma AdmittedTraced(w: World, c: Command, s': Service, running: Command, lock: LockId, lookups': seq<Device>)
    requires TraceInv(w) && c.id == w.s.nextId
    requires s'.effects == w.s.effects + Opening(c, running) && s'.nextId == w.s.nextId + 1
    requires running.id == c.id
    requires CallOk(c.id, Call(c, running, lock, |w.lookups|, Waiting))
    ensures TraceInv(World(s', w.devices, w.calls[c.id := Call(c, running, lock, |w.lookups|, Waiting)], lookups'))
  {
    var call := Call(c, running, lock, |w.lookups|, Waiting);
    var w' := World(s', w.devices, w.calls[c.id := call], lookups');
    assert Expected(call) == Opening(c, running);
    forall id: Id ensures Traced(w', id) {
      assert Traced(w, id);
      TraceConcat(w.s.effects, Opening(c, running), id);
      TraceOwn(Opening(c, running), id, c.id);
    }
  }

  lemma SubmitTraced(w: World, q: Request)
    requires TraceInv(w)
    ensures TraceInv(StepSubmit(w, q))
  {
    var verdict := Gate(w.devices, q);
    if verdict.Admit? {
      AdmittedExactly(w.devices, q);
      var c := NewCommand(w.s, q, verdict.risk);
      OpeningLog(w.s, c);
      var (s, running, lock) := Start(Create(w.s, c), c);
      AdmittedTraced(w, c, s, running, lock, w.lookups + [q.device]);
    } else if verdict.audited.Some? {
      RefusedTraced(w, AuditDenied(q, verdict.audited.value));
    }
  }

  function Answer(running: Command, state: Option<DeviceState>, fromWrite: bool, final: Command): seq<Effect> {
    Ingest(running, state, fromWrite) + Closing(final)
  }

  lemma ExpectedDirect(c: Call, w: WriteOutcome, final: Command)
    requires c.phase == Executing && final.id == c.running.id
    ensures Expected(c.(phase := Done(Direct(w), final)))
            == Expected(c) + Answer(c.running, Reported(w), true, final)
  {
    assert Opening(c.first, c.running) + ([WriteCalled(c.running)] + Answer(c.running, Reported(w), true, final))
        == Opening(c.first, c.running) + [WriteCalled(c.running)] + Answer(c.running, Reported(w), true, final);
  }

  lemma ExpectedAfterRead(c: Call, r: ReadOutcome, final: Command)
    requires c.phase == Reconciling && final.id == c.running.id
    ensures Expected(c.(phase := Done(AfterTimeout(r), final)))
            == Expected(c) + Answer(c.running, if r.Observed? then Some(r.observed) else None, false, final)
  {
    var opening, middle := Opening(c.first, c.running), Middle(c);
    var more := Answer(c.running, if r.Observed? then Some(r.observed) else None, false, final);
    assert opening + (middle + more) == opening + middle + more;
  }

  lemma AnswerTraced(w: World, id: Id, outcome: WriteOutcome)
    requires TraceInv(w) && id in w.calls && w.calls[id].phase == Executing && !outcome.TimedOut?
    ensures var running := w.calls[id].running;
            TraceInv(Moved(w, AfterWrite(w.s, running, outcome), id,
                           Done(Direct(outcome), Final(w.s, running, Verdicted(outcome)))))
  {
    var c := w.calls[id];
    assert Traced(w, id);
    AfterWriteLog(w.s, c.running, outcome);
    var final := Final(w.s, c.running, Verdicted(outcome));
    ExpectedDirect(c, outcome, final);
    MoveOn(w, AfterWrite(w.s, c.running, outcome), id, Done(Direct(outcome), final),
           Answer(c.running, Reported(outcome), true, final));
  }

  lemma TimeoutTraced(w: World, id: Id)
    requires TraceInv(w) && id in w.calls && w.calls[id].phase == Executing
    ensures TraceInv(Moved(w, StartReconcile(w.s, w.calls[id].running), id, Reconciling))
  {
    var c := w.calls[id];
    assert Traced(w, id);
    var more := [Published(COMMAND_TIMED_OUT, c.running), ReadCalled(c.running)];
    assert Expected(c.(phase := Reconciling)) == Expected(c) + more;
    MoveOn(w, StartReconcile(w.s, c.running), id, Reconciling, more);
  }

  lemma ReadTraced(w: World, id: Id, outcome: ReadOutcome)
    requires TraceInv(w) && id in w.calls && w.calls[id].phase == Reconciling
    ensures var running := w.calls[id].running;
            TraceInv(Moved(w, AfterRead(w.s, running, outcome), id,
                           Done(AfterTimeout(outcome), Final(w.s, running, Reconciled(running, outcome)))))
  {
    var c := w.calls[id];
    assert Traced(w, id);
    AfterReadLog(w.s, c.running, outcome);
    var final := Final(w.s, c.running, Reconciled(c.running, outcome));
    ExpectedAfterRead(c, outcome, final);
    MoveOn(w, AfterRead(w.s, c.running, outcome), id, Done(AfterTimeout(outcome), final),
           Answer(c.running, if outcome.Observed? then Some(outcome.observed) else None, false, final));
  }

  lemma EnterTraced(w: World, id: Id)
    requires TraceInv(w) && id in w.calls && w.calls[id].phase == Waiting
    ensures TraceInv(Moved(w, w.s.Log([WriteCalled(w.calls[id].running)]), id, Executing))
  {
    var c := w.calls[id];
    assert Traced(w, id);
    assert Expected(c.(phase := Executing)) == Expected(c) + [WriteCalled(c.running)];
    MoveOn(w, w.s.Log([WriteCalled(c.running)]), id, Executing, [WriteCalled(c.running)]);
  }

  lemma StepTraced(w: World, e: Event)
    requires TraceInv(w)
    ensures TraceInv(Step(w, e))
  {
    match e
    case Submit(q) => SubmitTraced(w, q);
    case WriteReturned(id, outcome) =>
      if id in w.calls && w.calls[id].phase == Executing {
        if outcome.TimedOut? { TimeoutTraced(w, id); } else { AnswerTraced(w, id, outcome); }
      }
    case ReadReturned(id, outcome) =>
      if id in w.calls && w.calls[id].phase == Reconciling { ReadTraced(w, id, outcome); }
    case Enter(id) =>
      if id in w.calls && w.calls[id].phase == Waiting { EnterTraced(w, id); }
    case Advance(dt) =>
      forall id: Id ensures Traced(Step(w, e), id) { assert Traced(w, id); }
    case Observe(_, _) =>
      forall id: Id ensures Traced(Step(w, e), id) { assert Traced(w, id); }
  }

  // -- the invariant on locks

  ghost predicate TableOk(l: Locks, lookups: seq<Device>) {
    && l.table.Valid()
    && l.served == |lookups|
    && l.table.order == Lru.Run(MAX_DEVICE_LOCKS, lookups)
    && forall d :: d in l.table.entries ==> l.table.entries[d] == Lru.Born(MAX_DEVICE_LOCKS, lookups, d)
  }

  /** A call holds the lock its look-up found in the table. */
  ghost predicate Ticketed(c: Call, lookups: seq<Device>) {
    && c.ticket < |lookups| && lookups[c.ticket] == c.running.device == c.first.device
    && c.lock == Lru.Born(MAX_DEVICE_LOCKS, lookups[..c.ticket + 1], c.running.device)
  }

  ghost predicate Tickets(calls: map<Id, Call>, lookups: seq<Device>) {
    forall id :: id in calls ==> Ticketed(calls[id], lookups)
  }

  /** No two calls are inside one lock. */
  ghost predicate Exclusive(calls: map<Id, Call>) {
    forall a, b :: Inside(calls, a) && Inside(calls, b) && calls[a].lock == calls[b].lock ==> a == b
  }

  predicate Inside(calls: map<Id, Call>, id: Id) { id in calls && InCritical(calls[id]) }

  ghost predicate LockInv(w: World) {
    TableOk(w.s.locks, w.lookups) && Tickets(w.calls, w.lookups) && Exclusive(w.calls)
  }

  /** A device without a lock gets a new one, at the price of the oldest when the table is full. */
  lemma MissOrder(table: OrderedDict<Device, LockId>, device: Device, lock: LockId)
    requires table.Valid() && device !in table.entries && |table.order| <= MAX_DEVICE_LOCKS
    ensures var kept := if |table.order| >= MAX_DEVICE_LOCKS then table.PopOldest() else table;
            var after := kept.Put(device, lock).MoveToEnd(device);
            && after.Valid()
            && after.order == Lru.Touch(MAX_DEVICE_LOCKS, table.order, device)
            && after.entries == kept.entries[device := lock]
            && device !in kept.entries
  {
    assert device !in Elems(table.order);
    var kept := if |table.order| >= MAX_DEVICE_LOCKS then table.PopOldest() else table;
    assert device !in Elems(kept.order);
    WithoutAppend(kept.order, [device], device);
    assert Without([device], device) == [];
  }

  lemma LookupMiss(l: Locks, lookups: seq<Device>, device: Device)
    requires TableOk(l, lookups) && device !in l.table.entries
    ensures TableOk(DeviceLock(l, device).0, lookups + [device])
    ensures DeviceLock(l, device).1 == Lru.Born(MAX_DEVICE_LOCKS, lookups + [device], device)
  {
    assert device !in Elems(l.table.order);
    Lru.RunRecency(MAX_DEVICE_LOCKS, lookups);
    MissOrder(l.table, device, l.served);
    var (l', lock) := DeviceLock(l, device);
    var kept := if |l.table.order| >= MAX_DEVICE_LOCKS then l.table.PopOldest() else l.table;
    assert l'.table.entries == kept.entries[device := l.served] && lock == l.served;
    Lru.HistoryStep(MAX_DEVICE_LOCKS, lookups, device, device);
    forall d | d in l'.table.entries
      ensures l'.table.entries[d] == Lru.Born(MAX_DEVICE_LOCKS, lookups + [device], d)
    {
      Lru.HistoryStep(MAX_DEVICE_LOCKS, lookups, device, d);
    }
  }

  lemma LookupStep(l: Locks, lookups: seq<Device>, device: Device)
    requires TableOk(l, lookups)
    ensures TableOk(DeviceLock(l, device).0, lookups + [device])
    ensures DeviceLock(l, device).1 == Lru.Born(MAX_DEVICE_LOCKS, lookups + [device], device)
  {
    if device !in l.table.entries { LookupMiss(l, lookups, device); }
  }

  lemma TicketsGrow(calls: map<Id, Call>, lookups: seq<Device>, device: Device)
    requires Tickets(calls, lookups)
    ensures Tickets(calls, lookups + [device])
  {
    forall id | id in calls ensures Ticketed(calls[id], lookups + [device]) {
      var t := calls[id].ticket;
      assert Ticketed(calls[id], lookups);
      assert (lookups + [device])[..t + 1] == lookups[..t + 1];
    }
  }

  lemma SubmitLocked(w: World, q: Request)
    requires LockInv(w) && TraceInv(w)
    ensures LockInv(StepSubmit(w, q))
  {
    var verdict := Gate(w.devices, q);
    if verdict.Admit? {
      var c := NewCommand(w.s, q, verdict.risk);
      OpeningLog(w.s, c);
      LookupStep(w.s.locks, w.lookups, q.device);
      TicketsGrow(w.calls, w.lookups, q.device);
      var (s, running, lock) := Start(Create(w.s, c), c);
      NewTicket(w.calls, c.id, Call(c, running, lock, |w.lookups|, Waiting), w.lookups + [q.device]);
    }
  }

  lemma NewTicket(calls: map<Id, Call>, id: Id, c: Call, lookups: seq<Device>)
    requires Tickets(calls, lookups) && Exclusive(calls) && !InCritical(c)
    requires lookups != [] && c.ticket == |lookups| - 1 && c.running.device == c.first.device == lookups[c.ticket]
    requires c.lock == Lru.Born(MAX_DEVICE_LOCKS, lookups, c.running.device)
    ensures Tickets(calls[id := c], lookups) && Exclusive(calls[id := c])
  {
    assert lookups[..c.ticket + 1] == lookups;
    assert Ticketed(c, lookups);
    NobodyEnters(calls, id, c);
  }

  lemma NobodyEnters(calls: map<Id, Call>, id: Id, c: Call)
    requires Exclusive(calls) && !InCritical(c)
    ensures Exclusive(calls[id := c])
  {
    var calls' := calls[id := c];
    forall a, b | Inside(calls', a) && Inside(calls', b) && calls'[a].lock == calls'[b].lock ensures a == b {
      assert Inside(calls, a) && Inside(calls, b);
    }
  }

  lemma MovedExclusive(calls: map<Id, Call>, id: Id, c: Call)
    requires Exclusive(calls) && id in calls && c.lock == calls[id].lock
    requires InCritical(c) && !InCritical(calls[id]) ==> !Held(calls, c.lock)
    ensures Exclusive(calls[id := c])
  {
    var calls' := calls[id := c];
    forall a, b | Inside(calls', a) && Inside(calls', b) && calls'[a].lock == calls'[b].lock ensures a == b {
      if a != id { assert Inside(calls, a); }
      if b != id { assert Inside(calls, b); }
      if InCritical(calls[id]) { assert Inside(calls, id); }
    }
  }

  lemma MovedLocked(w: World, s': Service, id: Id, to: Phase)
    requires LockInv(w) && id in w.calls && s'.locks == w.s.locks
    requires to.Executing? ==> !Held(w.calls, w.calls[id].lock)
    requires to.Reconciling? ==> InCritical(w.calls[id])
    ensures LockInv(Moved(w, s', id, to))
  {
    var c := w.calls[id].(phase := to);
    MovedExclusive(w.calls, id, c);
    assert Ticketed(w.calls[id], w.lookups);
    assert Ticketed(c, w.lookups);
  }

  lemma StepLocked(w: World, e: Event)
    requires LockInv(w) && TraceInv(w)
    ensures LockInv(Step(w, e))
  {
    match e
    case Submit(q) => SubmitLocked(w, q);
    case Enter(id) =>
      if id in w.calls && w.calls[id].phase == Waiting && !Held(w.calls, w.calls[id].lock) {
        MovedLocked(w, w.s.Log([WriteCalled(w.calls[id].running)]), id, Executing);
      }
    case WriteReturned(id, outcome) =>
      if id in w.calls && w.calls[id].phase == Executing {
        var running := w.calls[id].running;
        if outcome.TimedOut? {
          MovedLocked(w, StartReconcile(w.s, running), id, Reconciling);
        } else {
          AfterWriteLog(w.s, running, outcome);
          MovedLocked(w, AfterWrite(w.s, running, outcome), id,
                      Done(Direct(outcome), Final(w.s, running, Verdicted(outcome))));
        }
      }
    case ReadReturned(id, outcome) =>
      if id in w.calls && w.calls[id].phase == Reconciling {
        var running := w.calls[id].running;
        AfterReadLog(w.s, running, outcome);
        MovedLocked(w, AfterRead(w.s, running, outcome), id,
                    Done(AfterTimeout(outcome), Final(w.s, running, Reconciled(running, outcome))));
      }
    case _ =>
  }

  // -- the invariant on stored records

  function Touched(log: seq<Effect>): seq<Id> {
    if log == [] then []
    else Touched(log[..|log| - 1]) + if log[|log| - 1].Remembered? then [log[|log| - 1].command.id] else []
  }

  function LastRecord(log: seq<Effect>, id: Id): Option<Command> {
    if log == [] then None
    else if log[|log| - 1].Remembered? && log[|log| - 1].command.id == id then Some(log[|log| - 1].command)
    else LastRecord(log[..|log| - 1], id)
  }

  ghost predicate StoreOk(store: CommandStore, log: seq<Effect>) {
    && store.Valid()
    && store.order == Lru.Run(MAX_TRACKED_COMMANDS, Touched(log))
    && forall id :: id in store.entries ==> LastRecord(log, id) == Some(store.entries[id])
  }

  lemma LogRecord(log: seq<Effect>, c: Command, id: Id)
    ensures Touched(log + [Remembered(c)]) == Touched(log) + [c.id]
    ensures LastRecord(log + [Remembered(c)], id) == if id == c.id then Some(c) else LastRecord(log, id)
  {
    assert (log + [Remembered(c)])[..|log|] == log;
  }

  /** Appending and then dropping the oldest is what the table discipline does. */
  lemma RememberedIn(store: CommandStore, c: Command)
    requires store.Valid() && |store.order| <= MAX_TRACKED_COMMANDS
    ensures var r := RememberIn(store, c);
            && r.Valid()
            && r.order == Lru.Touch(MAX_TRACKED_COMMANDS, store.order, c.id)
            && (c.id in r.entries ==> r.entries[c.id] == c)
            && forall id :: id in r.entries && id != c.id ==> id in store.entries && r.entries[id] == store.entries[id]
  {
    MovedOrder(store, c);
    TrimOnce(store.Put(c.id, c).MoveToEnd(c.id));
  }

  lemma TrimOnce(full: CommandStore)
    requires |full.order| <= MAX_TRACKED_COMMANDS + 1
    ensures Trim(full) == if |full.order| <= MAX_TRACKED_COMMANDS then full else full.PopOldest()
  {
    if |full.order| == MAX_TRACKED_COMMANDS + 1 {
      assert |full.PopOldest().order| == MAX_TRACKED_COMMANDS;
    }
  }

  lemma MovedOrder(store: CommandStore, c: Command)
    requires store.Valid() && |store.order| <= MAX_TRACKED_COMMANDS
    ensures var full := store.Put(c.id, c).MoveToEnd(c.id);
            && |full.order| <= MAX_TRACKED_COMMANDS + 1
            && (if |full.order| <= MAX_TRACKED_COMMANDS then full.order else full.order[1..])
               == Lru.Touch(MAX_TRACKED_COMMANDS, store.order, c.id)
  {
    assert forall id :: id in store.order <==> id in Elems(store.order);
    WithoutExactly(store.order, c.id);
    if c.id !in store.entries {
      WithoutAppend(store.order, [c.id], c.id);
      assert Without([c.id], c.id) == [];
      var full := store.Put(c.id, c).MoveToEnd(c.id);
      assert full.order == store.order + [c.id];
      if |store.order| == MAX_TRACKED_COMMANDS {
        assert c.id !in store.order[1..];
        WithoutExactly(store.order[1..], c.id);
      }
    }
  }

  lemma RememberStored(store: CommandStore, log: seq<Effect>, c: Command)
    requires StoreOk(store, log)
    ensures StoreOk(RememberIn(store, c), log + [Remembered(c)])
  {
    Lru.RunRecency(MAX_TRACKED_COMMANDS, Touched(log));
    RememberedIn(store, c);
    Lru.HistoryStep(MAX_TRACKED_COMMANDS, Touched(log), c.id, c.id);
    LogRecord(log, c, c.id);
    var r := RememberIn(store, c);
    forall id | id in r.entries ensures LastRecord(log + [Remembered(c)], id) == Some(r.entries[id]) {
      LogRecord(log, c, id);
    }
  }

  /** Effects that are not record writes leave the store alone. */
  lemma {:induction false} OtherStored(store: CommandStore, log: seq<Effect>, more: seq<Effect>)
    requires StoreOk(store, log) && forall i :: 0 <= i < |more| ==> !more[i].Remembered?
    ensures StoreOk(store, log + more)
    decreases |more|
  {
    if more == [] {
      assert log + more == log;
    } else {
      var init, x := more[..|more| - 1], more[|more| - 1];
      OtherStored(store, log, init);
      assert log + more == (log + init) + [x];
      assert (log + more)[..|log + more| - 1] == log + init;
      assert Touched(log + more) == Touched(log + init);
    }
  }

  ghost predicate StoreInv(s: Service) { StoreOk(s.commands, s.effects) }

  ghost predicate NoRecords(more: seq<Effect>) {
    forall i :: 0 <= i < |more| ==> !more[i].Remembered?
  }

  /** Logging anything but a record keeps the store in step with the log. */
  lemma Appended(s: Service, s': Service, more: seq<Effect>)
    requires StoreInv(s) && NoRecords(more) && s'.commands == s.commands && s'.effects == s.effects + more
    ensures StoreInv(s')
  {
    OtherStored(s.commands, s.effects, more);
  }

  /** A record, and then anything that is not one. */
  lemma RecordThen(s: Service, s': Service, c: Command, more: seq<Effect>)
    requires StoreInv(s) && NoRecords(more)
    requires s'.commands == RememberIn(s.commands, c) && s'.effects == s.effects + [Remembered(c)] + more
    ensures StoreInv(s')
  {
    RememberStored(s.commands, s.effects, c);
    OtherStored(s'.commands, s.effects + [Remembered(c)], more);
  }

  lemma FinishStored(s: Service, running: Command, to: Status, code: Option<string>)
    requires StoreInv(s)
    ensures StoreInv(Finish(s, running, to, code))
  {
    var f := running.WithStatus(to, s.now, code);
    RecordThen(s, Finish(s, running, to, code), f, [AuditCompleted(f)] + Announced(f));
  }

  lemma CreateStored(s: Service, c: Command)
    requires StoreInv(s)
    ensures StoreInv(Create(s, c))
  {
    RecordThen(s, Create(s, c), c, [AuditRequested(c), Published(COMMAND_REQUESTED, c)]);
  }

  lemma StartStored(s: Service, c: Command)
    requires StoreInv(s)
    ensures StoreInv(Start(s, c).0)
  {
    var running := c.WithStatus(RUNNING, s.now, None);
    RecordThen(s, Start(s, c).0, running, [Published(COMMAND_STARTED, running)]);
  }

  lemma IngestStored(s: Service, running: Command, state: Option<DeviceState>, fromWrite: bool)
    requires StoreInv(s)
    ensures StoreInv(IngestIf(s, running, state, fromWrite))
  {
    if state.Some? { Appended(s, IngestIf(s, running, state, fromWrite), [Ingested(running, state.value, fromWrite)]); }
  }

  lemma StepStored(w: World, e: Event)
    requires StoreInv(w.s)
    ensures StoreInv(Step(w, e).s)
  {
    match e
    case Submit(q) =>
      var verdict := Gate(w.devices, q);
      if verdict.Admit? {
        var c := NewCommand(w.s, q, verdict.risk);
        CreateStored(w.s, c);
        StartStored(Create(w.s, c), c);
      } else if verdict.audited.Some? {
        OtherStored(w.s.commands, w.s.effects, [AuditDenied(q, verdict.audited.value)]);
      }
    case Enter(id) =>
      if id in w.calls { OtherStored(w.s.commands, w.s.effects, [WriteCalled(w.calls[id].running)]); }
    case WriteReturned(id, outcome) =>
      if id in w.calls {
        var running := w.calls[id].running;
        if outcome.TimedOut? {
          OtherStored(w.s.commands, w.s.effects, [Published(COMMAND_TIMED_OUT, running), ReadCalled(running)]);
        } else {
          IngestStored(w.s, running, Reported(outcome), true);
          FinishStored(IngestIf(w.s, running, Reported(outcome), true), running,
                       Verdicted(outcome).0, Verdicted(outcome).1);
        }
      }
    case ReadReturned(id, outcome) =>
      if id in w.calls {
        var running := w.calls[id].running;
        var state := if outcome.Observed? then Some(outcome.observed) else None;
        IngestStored(w.s, running, state, false);
        FinishStored(IngestIf(w.s, running, state, false), running,
                     Reconciled(running, outcome).0, Reconciled(running, outcome).1);
      }
    case _ =>
  }

  // -- all runs

  ghost predicate WorldInv(w: World) {
    TraceInv(w) && LockInv(w) && StoreInv(w.s)
  }

  lemma {:induction false} ExecKeeps(w: World, events: seq<Event>)
    requires WorldInv(w)
    ensures WorldInv(Exec(w, events))
    decreases |events|
  {
    if events != [] {
      StepTraced(w, events[0]);
      StepLocked(w, events[0]);
      StepStored(w, events[0]);
      ExecKeeps(Step(w, events[0]), events[1..]);
    }
  }
}
