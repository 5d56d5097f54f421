/** What the command pipeline guarantees over every run. */
module CommandSafety {
  import opened Basics
  import opened OrderedDicts
  import Lru
  import opened Policy
  import opened DeviceModel
  import opened Reconcile
  import opened Commands
  import opened CommandRuns

  function After(now: real, devices: map<Device, Info>, events: seq<Event>): World {
    Exec(Initial(now, devices), events)
  }

  lemma Reached(now: real, devices: map<Device, Info>, events: seq<Event>)
    ensures WorldInv(After(now, devices, events))
  {
    ExecKeeps(Initial(now, devices), events);
  }

  // -- one command's life

  /** What a call has caused so far is exactly what its phase calls for, in that order, whatever
      else was going on. */
  lemma TraceIsExpected(now: real, devices: map<Device, Info>, events: seq<Event>, id: Id)
    ensures var w := After(now, devices, events);
            if id in w.calls then CallOk(id, w.calls[id]) && Trace(w.s.effects, id) == Expected(w.calls[id])
            else Trace(w.s.effects, id) == []
  {
    Reached(now, devices, events);
    assert Traced(After(now, devices, events), id);
  }

  function Statuses(log: seq<Effect>): seq<Status> {
    if log == [] then []
    else (if log[0].Remembered? then [log[0].command.status] else []) + Statuses(log[1..])
  }

  datatype Kind = K_WRITE | K_READ | K_REQUESTED | K_COMPLETED | K_OTHER

  function KindOf(e: Effect): Kind {
    match e
    case WriteCalled(_) => K_WRITE
    case ReadCalled(_) => K_READ
    case AuditRequested(_) => K_REQUESTED
    case AuditCompleted(_) => K_COMPLETED
    case _ => K_OTHER
  }

  function Count(log: seq<Effect>, k: Kind): nat {
    if log == [] then 0 else (if KindOf(log[0]) == k then 1 else 0) + Count(log[1..], k)
  }

  lemma CountCons(e: Effect, rest: seq<Effect>, k: Kind)
    ensures Count([e] + rest, k) == (if KindOf(e) == k then 1 else 0) + Count(rest, k)
    ensures Statuses([e] + rest) == (if e.Remembered? then [e.command.status] else []) + Statuses(rest)
  {
    assert ([e] + rest)[1..] == rest;
  }

  lemma {:induction false} CountConcat(a: seq<Effect>, b: seq<Effect>, k: Kind)
    ensures Count(a + b, k) == Count(a, k) + Count(b, k)
  {
    if a == [] {
      assert a + b == b;
    } else {
      assert a + b == [a[0]] + (a[1..] + b);
      CountCons(a[0], a[1..] + b, k);
      CountConcat(a[1..], b, k);
    }
  }

  lemma {:induction false} StatusesConcat(a: seq<Effect>, b: seq<Effect>)
    ensures Statuses(a + b) == Statuses(a) + Statuses(b)
  {
    if a == [] {
      assert a + b == b;
    } else {
      assert a + b == [a[0]] + (a[1..] + b);
      CountCons(a[0], a[1..] + b, K_OTHER);
      StatusesConcat(a[1..], b);
    }
  }

  lemma OpeningCounts(first: Command, running: Command, k: Kind)
    requires first.status == PENDING && running.status == RUNNING && k != K_OTHER
    ensures Count(Opening(first, running), k) == if k == K_REQUESTED then 1 else 0
    ensures Statuses(Opening(first, running)) == [PENDING, RUNNING]
  {
    var o := Opening(first, running);
    CountCons(o[3], [o[4]], k);
    CountCons(o[2], [o[3]] + [o[4]], k);
    CountCons(o[1], [o[2]] + ([o[3]] + [o[4]]), k);
    CountCons(o[0], [o[1]] + ([o[2]] + ([o[3]] + [o[4]])), k);
    assert o == [o[0]] + ([o[1]] + ([o[2]] + ([o[3]] + [o[4]])));
  }

  lemma ClosingCounts(final: Command, k: Kind)
    requires k != K_OTHER
    ensures Count(Closing(final), k) == if k == K_COMPLETED then 1 else 0
    ensures Statuses(Closing(final)) == [final.status]
  {
    var published := Announced(final);
    if published != [] { assert published == [published[0]]; }
    CountCons(AuditCompleted(final), published, k);
    CountCons(Remembered(final), [AuditCompleted(final)] + published, k);
    assert Closing(final) == [Remembered(final)] + ([AuditCompleted(final)] + published);
  }

  /** The device reports what the command asked for. */
  predicate Matched(c: Command, observed: DeviceState) {
    DesiredMatches(c.action, c.params, observed) == Some(true)
  }

  /** How a directly answered write is recorded: applied, and only that, as succeeded; unsure, and only that,
      as unknown; a rejection, an adapter error and a crash as failed; with the answer's own code if it has one. */
  predicate AnsweredWrite(w: WriteOutcome, final: Command) {
    && (final.status == SUCCEEDED <==> w.Applied?)
    && (final.status == UNKNOWN <==> w.Unsure?)
    && (final.status == FAILED <==> w.Rejected? || w.ProviderFailed? || w.Crashed?)
    && (final.failureCode == None <==> w.Applied? || (w.Unsure? && w.code == None))
    && (w.Rejected? && w.code.Some? && w.code.value != "" ==> final.failureCode == w.code)
    && (w.Rejected? && (w.code == None || w.code.value == "") ==> final.failureCode == Some("rejected"))
    && (w.Unsure? ==> final.failureCode == w.code)
    && (w.ProviderFailed? ==> final.failureCode == Some(w.failure))
    && (w.Crashed? ==> final.failureCode == Some("internal_error"))
  }

  /** How a write that timed out is recorded: succeeded exactly when the read-back arrived and matched,
      otherwise unknown, with a code that tells a missing read-back from one that did not match. */
  predicate AnsweredRead(running: Command, r: ReadOutcome, final: Command) {
    && (final.status == SUCCEEDED <==> r.Observed? && Matched(running, r.observed))
    && (final.status == UNKNOWN <==> final.status != SUCCEEDED)
    && (final.failureCode == None <==> final.status == SUCCEEDED)
    && (final.failureCode == Some("reconciliation_failed") <==> r.NotObserved?)
    && (final.failureCode == Some("device_response_timeout") <==> r.Observed? && final.status == UNKNOWN)
  }

  /** A command that came to an end called the adapter's write exactly once and read back at most once,
      only after a timeout; it was recorded PENDING, RUNNING and one terminal status; it left one
      requested and one completed audit entry; and its end is what the answer calls for. */
  lemma Lifecycle(now: real, devices: map<Device, Info>, events: seq<Event>, id: Id)
    requires var w := After(now, devices, events); id in w.calls && w.calls[id].phase.Done?
    ensures var w := After(now, devices, events);
            var c, log := w.calls[id], Trace(w.s.effects, id);
            var path, final := c.phase.path, c.phase.final;
            && Statuses(log) == [PENDING, RUNNING, final.status]
            && (final.status == SUCCEEDED || final.status == FAILED || final.status == UNKNOWN)
            && Count(log, K_WRITE) == 1
            && Count(log, K_READ) == (if path.AfterTimeout? then 1 else 0)
            && Count(log, K_REQUESTED) == 1
            && Count(log, K_COMPLETED) == 1
            && (if path.Direct? then AnsweredWrite(path.w, final) else AnsweredRead(c.running, path.r, final))
  {
    TraceIsExpected(now, devices, events, id);
    var c := After(now, devices, events).calls[id];
    LifecycleCounts(c, K_WRITE);
    LifecycleCounts(c, K_READ);
    LifecycleCounts(c, K_REQUESTED);
    LifecycleCounts(c, K_COMPLETED);
  }

  lemma LifecycleCounts(c: Call, k: Kind)
    requires c.phase.Done? && k != K_OTHER && c.first.status == PENDING && c.running.status == RUNNING
    ensures Statuses(Expected(c)) == [PENDING, RUNNING, c.phase.final.status]
    ensures Count(Expected(c), k) == if k == K_READ && c.phase.path.Direct? then 0 else 1
  {
    CountConcat(Opening(c.first, c.running), Middle(c), k);
    StatusesConcat(Opening(c.first, c.running), Middle(c));
    OpeningCounts(c.first, c.running, k);
    match c.phase.path {
      case Direct(w) => DirectCounts(c, k);
      case AfterTimeout(r) => TimeoutCounts(c, k);
    }
  }

  lemma DirectCounts(c: Call, k: Kind)
    requires c.phase.Done? && c.phase.path.Direct? && k != K_OTHER
    ensures Count(Middle(c), k) == if k == K_WRITE || k == K_COMPLETED then 1 else 0
    ensures Statuses(Middle(c)) == [c.phase.final.status]
  {
    var answer := Answer(c.running, Reported(c.phase.path.w), true, c.phase.final);
    AnswerCounts(c.running, Reported(c.phase.path.w), true, c.phase.final, k);
    CountCons(WriteCalled(c.running), answer, k);
  }

  lemma TimeoutCounts(c: Call, k: Kind)
    requires c.phase.Done? && c.phase.path.AfterTimeout? && k != K_OTHER
    ensures Count(Middle(c), k) == if k == K_WRITE || k == K_READ || k == K_COMPLETED then 1 else 0
    ensures Statuses(Middle(c)) == [c.phase.final.status]
  {
    var r := c.phase.path.r;
    var state := if r.Observed? then Some(r.observed) else None;
    var answer := Answer(c.running, state, false, c.phase.final);
    AnswerCounts(c.running, state, false, c.phase.final, k);
    var write, told, ask := WriteCalled(c.running), Published(COMMAND_TIMED_OUT, c.running), ReadCalled(c.running);
    CountCons(ask, answer, k);
    CountCons(told, [ask] + answer, k);
    CountCons(write, [told] + ([ask] + answer), k);
    assert [write] + [told, ask] + answer == [write] + ([told] + ([ask] + answer));
  }

  lemma AnswerCounts(running: Command, state: Option<DeviceState>, fromWrite: bool, final: Command, k: Kind)
    requires k != K_OTHER
    ensures Count(Answer(running, state, fromWrite, final), k) == if k == K_COMPLETED then 1 else 0
    ensures Statuses(Answer(running, state, fromWrite, final)) == [final.status]
  {
    ClosingCounts(final, k);
    if state.Some? {
      CountCons(Ingested(running, state.value, fromWrite), Closing(final), k);
    } else {
      assert Answer(running, state, fromWrite, final) == Closing(final);
    }
  }

  // -- what the live clients and the device registry are told

  function Notices(log: seq<Effect>): seq<Notice> {
    if log == [] then []
    else (if log[0].Published? then [log[0].notice] else []) + Notices(log[1..])
  }

  /** The states handed to the registry, and whether they came with the write's own answer. */
  function Ingests(log: seq<Effect>): seq<(DeviceState, bool)> {
    if log == [] then []
    else (if log[0].Ingested? then [(log[0].state, log[0].fromWrite)] else []) + Ingests(log[1..])
  }

  lemma ToldCons(e: Effect, rest: seq<Effect>)
    ensures Notices([e] + rest) == (if e.Published? then [e.notice] else []) + Notices(rest)
    ensures Ingests([e] + rest) == (if e.Ingested? then [(e.state, e.fromWrite)] else []) + Ingests(rest)
  {
    assert ([e] + rest)[1..] == rest;
  }

  lemma {:induction false} NoticesConcat(a: seq<Effect>, b: seq<Effect>)
    ensures Notices(a + b) == Notices(a) + Notices(b)
  {
    if a == [] {
      assert a + b == b;
    } else {
      assert a + b == [a[0]] + (a[1..] + b);
      ToldCons(a[0], a[1..] + b);
      NoticesConcat(a[1..], b);
    }
  }

  lemma {:induction false} IngestsConcat(a: seq<Effect>, b: seq<Effect>)
    ensures Ingests(a + b) == Ingests(a) + Ingests(b)
  {
    if a == [] {
      assert a + b == b;
    } else {
      assert a + b == [a[0]] + (a[1..] + b);
      ToldCons(a[0], a[1..] + b);
      IngestsConcat(a[1..], b);
    }
  }

  lemma OpeningTells(first: Command, running: Command)
    ensures Notices(Opening(first, running)) == [COMMAND_REQUESTED, COMMAND_STARTED]
    ensures Ingests(Opening(first, running)) == []
  {
    var o := Opening(first, running);
    ToldCons(o[3], [o[4]]);
    ToldCons(o[2], [o[3]] + [o[4]]);
    ToldCons(o[1], [o[2]] + ([o[3]] + [o[4]]));
    ToldCons(o[0], [o[1]] + ([o[2]] + ([o[3]] + [o[4]])));
    assert o == [o[0]] + ([o[1]] + ([o[2]] + ([o[3]] + [o[4]])));
  }

  /** The notice that tells how a command ended. */
  predicate Tells(notice: Notice, status: Status) {
    && (notice == COMMAND_SUCCEEDED <==> status == SUCCEEDED)
    && (notice == COMMAND_FAILED <==> status == FAILED)
    && (notice == COMMAND_TIMED_OUT <==> status == UNKNOWN)
  }

  lemma AnswerTells(running: Command, state: Option<DeviceState>, fromWrite: bool, final: Command)
    requires final.status == SUCCEEDED || final.status == FAILED || final.status == UNKNOWN
    ensures var told := Answer(running, state, fromWrite, final);
            && |Notices(told)| == 1 && Tells(Notices(told)[0], final.status)
            && Ingests(told) == if state.Some? then [(state.value, fromWrite)] else []
  {
    var a, b, c := Remembered(final), AuditCompleted(final), Announced(final)[0];
    ToldCons(b, [c]);
    ToldCons(a, [b] + [c]);
    assert Closing(final) == [a] + ([b] + [c]);
    if state.Some? {
      ToldCons(Ingested(running, state.value, fromWrite), Closing(final));
    } else {
      assert Answer(running, state, fromWrite, final) == Closing(final);
    }
  }

  /** The decided call was told a state by what decided it: the write's answer, or the read-back. */
  predicate Carries(path: Path, state: DeviceState) {
    match path
    case Direct(Applied(s)) => s == Some(state)
    case Direct(Rejected(s, _)) => s == Some(state)
    case Direct(Unsure(s, _)) => s == Some(state)
    case Direct(_) => false
    case AfterTimeout(r) => r == Observed(state)
  }

  /** What a finished command told the outside: requested, started, timed out if the write did, and one last
      notice for its end; and to the registry exactly the state its answer carried, if any. */
  lemma LifecycleTold(now: real, devices: map<Device, Info>, events: seq<Event>, id: Id)
    requires var w := After(now, devices, events); id in w.calls && w.calls[id].phase.Done?
    ensures var w := After(now, devices, events);
            var path, final, log := w.calls[id].phase.path, w.calls[id].phase.final, Trace(w.s.effects, id);
            var notices := Notices(log);
            && |notices| == (if path.AfterTimeout? then 4 else 3)
            && notices[..2] == [COMMAND_REQUESTED, COMMAND_STARTED]
            && (path.AfterTimeout? ==> notices[2] == COMMAND_TIMED_OUT)
            && Tells(notices[|notices| - 1], final.status)
            && (forall s :: Carries(path, s) ==> Ingests(log) == [(s, path.Direct?)])
            && ((forall s :: !Carries(path, s)) ==> Ingests(log) == [])
  {
    TraceIsExpected(now, devices, events, id);
    Lifecycle(now, devices, events, id);
    var c := After(now, devices, events).calls[id];
    ExpectedTells(c);
    CarriedExactly(c.phase.path);
  }

  function Carried(path: Path): Option<DeviceState> {
    match path
    case Direct(w) => Reported(w)
    case AfterTimeout(r) => if r.Observed? then Some(r.observed) else None
  }

  lemma CarriedExactly(path: Path)
    ensures forall s :: Carries(path, s) <==> Carried(path) == Some(s)
    ensures (forall s :: !Carries(path, s)) <==> Carried(path) == None
  {
    if Carried(path).Some? { assert Carries(path, Carried(path).value); }
  }

  lemma ExpectedTells(c: Call)
    requires c.phase.Done? && c.phase.final.status in {SUCCEEDED, FAILED, UNKNOWN}
    ensures var path, notices := c.phase.path, Notices(Expected(c));
            && |notices| == (if path.AfterTimeout? then 4 else 3)
            && notices[..2] == [COMMAND_REQUESTED, COMMAND_STARTED]
            && (path.AfterTimeout? ==> notices[2] == COMMAND_TIMED_OUT)
            && Tells(notices[|notices| - 1], c.phase.final.status)
    ensures Ingests(Expected(c))
            == if Carried(c.phase.path).Some? then [(Carried(c.phase.path).value, c.phase.path.Direct?)] else []
  {
    var path, final := c.phase.path, c.phase.final;
    OpeningTells(c.first, c.running);
    NoticesConcat(Opening(c.first, c.running), Middle(c));
    IngestsConcat(Opening(c.first, c.running), Middle(c));
    MiddleTells(c);
  }

  lemma MiddleTells(c: Call)
    requires c.phase.Done? && c.phase.final.status in {SUCCEEDED, FAILED, UNKNOWN}
    ensures var path, notices := c.phase.path, Notices(Middle(c));
            && |notices| == (if path.AfterTimeout? then 2 else 1)
            && (path.AfterTimeout? ==> notices[0] == COMMAND_TIMED_OUT)
            && Tells(notices[|notices| - 1], c.phase.final.status)
    ensures Ingests(Middle(c))
            == if Carried(c.phase.path).Some? then [(Carried(c.phase.path).value, c.phase.path.Direct?)] else []
  {
    var path, final := c.phase.path, c.phase.final;
    var answer := Answer(c.running, Carried(path), path.Direct?, final);
    AnswerTells(c.running, Carried(path), path.Direct?, final);
    var write := WriteCalled(c.running);
    if path.Direct? {
      ToldCons(write, answer);
    } else {
      var told, ask := Published(COMMAND_TIMED_OUT, c.running), ReadCalled(c.running);
      ToldCons(ask, answer);
      ToldCons(told, [ask] + answer);
      ToldCons(write, [told] + ([ask] + answer));
      assert Middle(c) == [write] + ([told] + ([ask] + answer));
    }
  }

  lemma {:induction false} InTrace(log: seq<Effect>, i: nat)
    requires i < |log| && About(log[i]).Some?
    ensures log[i] in Trace(log, About(log[i]).value)
    decreases |log|
  {
    if i < |log| - 1 {
      InTrace(log[..|log| - 1], i);
      assert log[..|log| - 1][i] == log[i];
    }
  }

  /** Neither an unlock nor an unlatch. */
  predicate Attended(c: Command) { c.action != UNLATCH && c.params != LockTo(UNLOCKED) }

  ghost predicate AllAttended(w: World) {
    forall id :: id in w.calls ==> Attended(w.calls[id].running)
  }

  lemma StepAttended(w: World, e: Event)
    requires AllAttended(w)
    ensures AllAttended(Step(w, e))
  {
    if e.Submit? { AdmittedExactly(w.devices, e.q); }
  }

  lemma {:induction false} ExecAttended(w: World, events: seq<Event>)
    requires AllAttended(w)
    ensures AllAttended(Exec(w, events))
    decreases |events|
  {
    if events != [] {
      StepAttended(w, events[0]);
      ExecAttended(Step(w, events[0]), events[1..]);
    }
  }

  /** No run ever writes an unlock or an unlatch to a device, or anything else of high risk. */
  lemma NoHighRiskWrite(now: real, devices: map<Device, Info>, events: seq<Event>, i: nat)
    requires var log := After(now, devices, events).s.effects; i < |log| && log[i].WriteCalled?
    ensures var c := After(now, devices, events).s.effects[i].command;
            c.action != UNLATCH && c.params != LockTo(UNLOCKED) && c.risk != HIGH
  {
    ExecAttended(Initial(now, devices), events);
    TraceIsExpected(now, devices, events, After(now, devices, events).s.effects[i].command.id);
    WrittenIsRunning(After(now, devices, events), i);
  }

  /** What is written is the record of a call. */
  lemma WrittenIsRunning(w: World, i: nat)
    requires i < |w.s.effects| && w.s.effects[i].WriteCalled?
    requires var id := w.s.effects[i].command.id;
             if id in w.calls then CallOk(id, w.calls[id]) && Trace(w.s.effects, id) == Expected(w.calls[id])
             else Trace(w.s.effects, id) == []
    ensures var c := w.s.effects[i].command; c.id in w.calls && c == w.calls[c.id].running && c.risk != HIGH
  {
    var e := w.s.effects[i];
    InTrace(w.s.effects, i);
    var c := w.calls[e.command.id];
    assert e in Opening(c.first, c.running) || e in Middle(c);
    assert e !in Closing(c.running);
    match c.phase {
      case Done(path, final) =>
        assert e !in Closing(final);
      case _ =>
    }
    assert e.command == c.running;
  }

  // -- one write at a time

  /** Two calls for one device hold the same lock exactly when, in every gap between two look-ups of the
      device from one's look-up to the other's, fewer than 256 other devices were looked up. */
  lemma SameLockIff(calls: map<Id, Call>, lookups: seq<Device>, a: Id, b: Id)
    requires Tickets(calls, lookups) && a in calls && b in calls
    requires calls[a].running.device == calls[b].running.device && calls[a].ticket <= calls[b].ticket
    ensures calls[a].lock == calls[b].lock
            <==> Lru.ShortGaps(MAX_DEVICE_LOCKS, lookups[..calls[b].ticket + 1], calls[a].ticket,
                               calls[a].running.device)
  {
    var ca, cb := calls[a], calls[b];
    assert Ticketed(ca, lookups) && Ticketed(cb, lookups);
    var h := lookups[..cb.ticket + 1];
    Lru.SameEntry(MAX_DEVICE_LOCKS, h, ca.ticket, ca.running.device);
    assert h[..ca.ticket + 1] == lookups[..ca.ticket + 1];
  }

  /** Two calls are inside execute or read-back for one device at the same time only if at least 256
      distinct other devices were looked up between their own look-ups. */
  lemma OverlapNeedsManyDevices(now: real, devices: map<Device, Info>, events: seq<Event>, a: Id, b: Id)
    requires var w := After(now, devices, events);
             && Inside(w.calls, a) && Inside(w.calls, b) && a != b
             && w.calls[a].running.device == w.calls[b].running.device
             && w.calls[a].ticket <= w.calls[b].ticket
    ensures var w := After(now, devices, events);
            && w.calls[a].ticket < w.calls[b].ticket < |w.lookups|
            && |Elems(w.lookups[w.calls[a].ticket + 1..w.calls[b].ticket]) - {w.calls[a].running.device}| >= 256
  {
    Reached(now, devices, events);
    var w := After(now, devices, events);
    DifferentLocks(w.calls, w.lookups, a, b);
  }

  lemma DifferentLocks(calls: map<Id, Call>, lookups: seq<Device>, a: Id, b: Id)
    requires Tickets(calls, lookups) && Exclusive(calls) && Inside(calls, a) && Inside(calls, b) && a != b
    requires calls[a].running.device == calls[b].running.device && calls[a].ticket <= calls[b].ticket
    ensures calls[a].ticket < calls[b].ticket < |lookups|
    ensures |Elems(lookups[calls[a].ticket + 1..calls[b].ticket]) - {calls[a].running.device}| >= 256
  {
    var ca, cb := calls[a], calls[b];
    assert ca.lock != cb.lock;
    LocksOf(ca, cb, lookups);
  }

  lemma LocksOf(a: Call, b: Call, lookups: seq<Device>)
    requires Ticketed(a, lookups) && Ticketed(b, lookups) && a.lock != b.lock
    requires a.running.device == b.running.device && a.ticket <= b.ticket
    ensures a.ticket < b.ticket < |lookups|
    ensures |Elems(lookups[a.ticket + 1..b.ticket]) - {a.running.device}| >= MAX_DEVICE_LOCKS
  {
    Lru.LostEntry(MAX_DEVICE_LOCKS, lookups, a.ticket, b.ticket, a.running.device);
  }

  lemma {:induction false} OnlyKnownLookedUp(w: World, events: seq<Event>)
    requires Elems(w.lookups) <= w.devices.Keys
    ensures Elems(Exec(w, events).lookups) <= Exec(w, events).devices.Keys
    decreases |events|
  {
    if events != [] {
      match events[0] {
        case Submit(q) => AdmittedExactly(w.devices, q); ElemsAppend(w.lookups, q.device);
        case _ =>
      }
      OnlyKnownLookedUp(Step(w, events[0]), events[1..]);
    }
  }

  /** With at most 256 devices a device never sees overlapping writes or read-backs, in any run. */
  lemma MutualExclusion(now: real, devices: map<Device, Info>, events: seq<Event>, a: Id, b: Id)
    requires |After(now, devices, events).devices| <= 256
    requires var w := After(now, devices, events);
             && Inside(w.calls, a) && Inside(w.calls, b)
             && w.calls[a].running.device == w.calls[b].running.device
    ensures a == b
  {
    Reached(now, devices, events);
    OnlyKnownLookedUp(Initial(now, devices), events);
    var w := After(now, devices, events);
    if w.calls[a].ticket <= w.calls[b].ticket { FewDevices(w, a, b); } else { FewDevices(w, b, a); }
  }

  lemma FewDevices(w: World, a: Id, b: Id)
    requires LockInv(w) && Elems(w.lookups) <= w.devices.Keys && |w.devices| <= 256
    requires Inside(w.calls, a) && Inside(w.calls, b) && w.calls[a].running.device == w.calls[b].running.device
    requires w.calls[a].ticket <= w.calls[b].ticket
    ensures a == b
  {
    if a != b {
      DifferentLocks(w.calls, w.lookups, a, b);
      assert Ticketed(w.calls[a], w.lookups);
      var d := w.calls[a].running.device;
      assert d in w.devices.Keys;
      SubsetCard(Elems(w.lookups[w.calls[a].ticket + 1..w.calls[b].ticket]) - {d}, w.devices.Keys - {d});
    }
  }

  // -- a run in which one device is written twice at once

  const SWITCH := Info({POWER}, None, None, ONLINE)

  /** 1 to n. */
  function Range(n: nat): (r: set<nat>)
    ensures |r| == n && forall i :: i in r <==> 1 <= i <= n
  {
    if n == 0 then {} else Range(n - 1) + {n}
  }

  /** Devices 0 to n. */
  function Fleet(n: nat): map<Device, Info> { map d | d in Range(n) + {0} :: SWITCH }

  function Switch(d: Device): Request { Request(7, d, SET_POWER, OnOff(true), "req") }

  /** Device 0 is being written; then devices 1 to n are asked for. */
  function Crowd(n: nat): seq<Event> {
    if n == 0 then [Submit(Switch(0)), Enter(0)] else Crowd(n - 1) + [Submit(Switch(n))]
  }

  /** 0 to n, in order. */
  function UpTo(n: nat): (r: seq<Device>)
    ensures |r| == n + 1
  {
    if n == 0 then [0] else UpTo(n - 1) + [n]
  }

  ghost predicate Crowded(w: World, n: nat) {
    && w.lookups == UpTo(n) && w.s.nextId == n + 1 && w.calls.Keys == Range(n) + {0}
    && w.calls[0].phase == Executing && w.calls[0].ticket == 0 && w.calls[0].running.device == 0
    && (forall id :: id in Range(n) ==> w.calls[id].phase == Waiting)
  }

  lemma {:induction false} ExecConcat(w: World, a: seq<Event>, b: seq<Event>)
    ensures Exec(w, a + b) == Exec(Exec(w, a), b)
    decreases |a|
  {
    if a == [] {
      assert a + b == b;
    } else {
      assert (a + b)[1..] == a[1..] + b;
      ExecConcat(Step(w, a[0]), a[1..], b);
    }
  }

  lemma AfterSnoc(now: real, devices: map<Device, Info>, events: seq<Event>, e: Event)
    ensures After(now, devices, events + [e]) == Step(After(now, devices, events), e)
  {
    ExecConcat(Initial(now, devices), events, [e]);
    assert [e][1..] == [];
    assert Exec(Step(After(now, devices, events), e), []) == Step(After(now, devices, events), e);
  }

  lemma FleetAdmits(n: nat, d: Device)
    requires d <= n
    ensures Gate(Fleet(n), Switch(d)) == Admit(LOW)
  {
    assert d in Range(n) + {0};
  }

  /** An admitted submit adds one waiting call and one look-up. */
  ghost predicate Joined(w: World, w': World, d: Device) {
    && w'.devices == w.devices && w'.lookups == w.lookups + [d] && w'.s.nextId == w.s.nextId + 1
    && w.s.nextId in w'.calls && w'.calls == w.calls[w.s.nextId := w'.calls[w.s.nextId]]
    && w'.calls[w.s.nextId].phase == Waiting && w'.calls[w.s.nextId].ticket == |w.lookups|
    && w'.calls[w.s.nextId].running.device == d
  }

  lemma SubmitSwitch(w: World, n: nat, d: Device)
    requires w.devices == Fleet(n) && d <= n
    ensures Joined(w, StepSubmit(w, Switch(d)), d)
  {
    FleetAdmits(n, d);
    OpeningLog(w.s, NewCommand(w.s, Switch(d), LOW));
  }

  lemma FirstStep(w0: World, w1: World)
    requires w0.lookups == [] && w0.s.nextId == 0 && w0.calls == map[] && Joined(w0, w1, 0)
    ensures Crowded(StepEnter(w1, 0), 0) && StepEnter(w1, 0).devices == w0.devices
  {
    assert !Held(w1.calls, w1.calls[0].lock);
    assert UpTo(0) == [0];
  }

  lemma CrowdStep(w: World, w': World, n: nat)
    requires Crowded(w, n) && Joined(w, w', n + 1)
    ensures Crowded(w', n + 1)
  {
    assert UpTo(n + 1) == UpTo(n) + [n + 1];
    assert 0 in w.calls.Keys;
    forall id | id in Range(n + 1) ensures w'.calls[id].phase == Waiting {
      if id <= n { assert id in Range(n) && id in w.calls.Keys; }
    }
  }

  lemma FirstTwoSteps(w0: World)
    ensures Exec(w0, Crowd(0)) == StepEnter(StepSubmit(w0, Switch(0)), 0)
  {
    ExecConcat(w0, [Submit(Switch(0))], [Enter(0)]);
    assert [Submit(Switch(0))] + [Enter(0)] == Crowd(0);
  }

  lemma FirstEnters(n: nat)
    ensures var w := After(0.0, Fleet(n), Crowd(0)); Crowded(w, 0) && w.devices == Fleet(n)
  {
    var w0 := Initial(0.0, Fleet(n));
    FirstTwoSteps(w0);
    SubmitSwitch(w0, n, 0);
    FirstStep(w0, StepSubmit(w0, Switch(0)));
  }

  lemma {:induction false} CrowdGathers(n: nat, m: nat)
    requires m <= n
    ensures var w := After(0.0, Fleet(n), Crowd(m)); Crowded(w, m) && w.devices == Fleet(n)
  {
    if m == 0 {
      FirstEnters(n);
    } else {
      CrowdGathers(n, m - 1);
      var w := After(0.0, Fleet(n), Crowd(m - 1));
      AfterSnoc(0.0, Fleet(n), Crowd(m - 1), Submit(Switch(m)));
      SubmitSwitch(w, n, m);
      CrowdStep(w, StepSubmit(w, Switch(m)), m - 1);
    }
  }

  lemma {:induction false} SinceUpTo(n: nat)
    ensures Elems(Lru.Since(UpTo(n), 0)) == Range(n)
  {
    if n == 0 {
      Lru.SinceAppend([], n, 0);
      assert UpTo(n) == [] + [n];
    } else {
      SinceUpTo(n - 1);
      SinceOneMore(UpTo(n - 1), n, Range(n - 1));
    }
  }

  lemma SinceOneMore(h: seq<Device>, n: nat, range: set<nat>)
    requires n > 0 && Elems(Lru.Since(h, 0)) == range
    ensures Elems(Lru.Since(h + [n], 0)) == range + {n}
  {
    Lru.SinceAppend(h, n, 0);
  }

  /** The informal claim "a device never sees overlapping writes" fails with 257 devices or more: after
      one call each for the others, device 0 gets a new lock while its first write is still running. */
  lemma OverlapHappens(n: nat)
    requires n >= 256
    ensures var w := After(0.0, Fleet(n), Crowd(n) + [Submit(Switch(0))] + [Enter(n + 1)]);
            && Inside(w.calls, 0) && Inside(w.calls, n + 1)
            && w.calls[0].running.device == w.calls[n + 1].running.device == 0
  {
    CrowdGathers(n, n);
    Reached(0.0, Fleet(n), Crowd(n) + [Submit(Switch(0))]);
    LastTwo(n, Crowd(n));
    CrowdOvertaken(After(0.0, Fleet(n), Crowd(n)), n);
  }

  lemma LastTwo(n: nat, events: seq<Event>)
    ensures var w := After(0.0, Fleet(n), events);
            && After(0.0, Fleet(n), events + [Submit(Switch(0))]) == StepSubmit(w, Switch(0))
            && After(0.0, Fleet(n), events + [Submit(Switch(0))] + [Enter(n + 1)])
               == StepEnter(StepSubmit(w, Switch(0)), n + 1)
  {
    AfterSnoc(0.0, Fleet(n), events, Submit(Switch(0)));
    AfterSnoc(0.0, Fleet(n), events + [Submit(Switch(0))], Enter(n + 1));
  }

  lemma CrowdOvertaken(w: World, n: nat)
    requires n >= 256 && Crowded(w, n) && w.devices == Fleet(n)
    requires LockInv(StepSubmit(w, Switch(0)))
    ensures var w2 := StepEnter(StepSubmit(w, Switch(0)), n + 1);
            && Inside(w2.calls, 0) && Inside(w2.calls, n + 1)
            && w2.calls[0].running.device == w2.calls[n + 1].running.device == 0
  {
    SubmitSwitch(w, n, 0);
    Overtaken(w, StepSubmit(w, Switch(0)), n);
  }

  lemma Overtaken(w: World, w1: World, n: nat)
    requires n >= 256 && Crowded(w, n) && Joined(w, w1, 0) && Tickets(w1.calls, w1.lookups)
    ensures var w2 := StepEnter(w1, n + 1);
            && Inside(w2.calls, 0) && Inside(w2.calls, n + 1)
            && w2.calls[0].running.device == w2.calls[n + 1].running.device == 0
  {
    NewLock(w, w1, n);
    SecondEnters(w, w1, n);
  }

  lemma SecondEnters(w: World, w1: World, n: nat)
    requires Crowded(w, n) && Joined(w, w1, 0)
    requires 0 in w1.calls && w1.calls[n + 1].lock != w1.calls[0].lock
    ensures var w2 := StepEnter(w1, n + 1);
            && Inside(w2.calls, 0) && Inside(w2.calls, n + 1)
            && w2.calls[0].running.device == w2.calls[n + 1].running.device == 0
  {
    assert 0 in w.calls.Keys;
    forall id | id in w1.calls && InCritical(w1.calls[id]) ensures w1.calls[id].lock != w1.calls[n + 1].lock {
      if id != n + 1 { assert id in w.calls.Keys; }
      assert id == 0;
    }
    assert !Held(w1.calls, w1.calls[n + 1].lock);
  }

  lemma LongWait(h: seq<Device>, n: nat)
    requires n >= 256 && h == UpTo(n) + [0]
    ensures |h| == n + 2 && h[..n + 2] == h && !Lru.ShortGaps(256, h, 0, 0)
  {
    var before := h[..n + 1];
    assert before == UpTo(n) && h[n + 1] == 0;
    assert |Elems(Lru.Since(before, 0))| >= 256 by { SinceUpTo(n); }
  }

  lemma NewLock(w: World, w1: World, n: nat)
    requires n >= 256 && Crowded(w, n) && Joined(w, w1, 0) && Tickets(w1.calls, w1.lookups)
    ensures 0 in w1.calls && n + 1 in w1.calls && w1.calls[n + 1].lock != w1.calls[0].lock
  {
    LongWait(w1.lookups, n);
    Oldest(w, w1, n);
    LockLost(w1.calls, w1.lookups, n);
  }

  lemma Oldest(w: World, w1: World, n: nat)
    requires Crowded(w, n) && Joined(w, w1, 0)
    ensures 0 in w1.calls && w1.calls[0].ticket == 0 && w1.calls[0].running.device == 0
    ensures n + 1 in w1.calls && w1.calls[n + 1].ticket == n + 1 && w1.calls[n + 1].running.device == 0
  {
    assert 0 in w.calls.Keys;
  }

  lemma LockLost(calls: map<Id, Call>, h: seq<Device>, n: nat)
    requires h[..|h|] == h && |h| == n + 2 && !Lru.ShortGaps(MAX_DEVICE_LOCKS, h, 0, 0) && Tickets(calls, h)
    requires 0 in calls && calls[0].ticket == 0 && calls[0].running.device == 0
    requires n + 1 in calls && calls[n + 1].ticket == n + 1 && calls[n + 1].running.device == 0
    ensures calls[n + 1].lock != calls[0].lock
  {
    SameLockIff(calls, h, 0, n + 1);
  }

  // -- finding a command's record

  /** A command's record can be fetched exactly while fewer than 500 other commands were recorded since
      its own last transition; what is fetched is that transition's record. */
  lemma RecordIsKept(now: real, devices: map<Device, Info>, events: seq<Event>, id: Id)
    ensures var s := After(now, devices, events).s;
            && (id in s.commands.entries <==>
                  id in Touched(s.effects) && |Elems(Lru.Since(Touched(s.effects), id))| < 500)
            && (id in s.commands.entries ==> LastRecord(s.effects, id) == Some(s.commands.entries[id]))
  {
    Reached(now, devices, events);
    var s := After(now, devices, events).s;
    Lru.Retained(MAX_TRACKED_COMMANDS, Touched(s.effects), id);
    assert id in s.commands.entries <==> id in Elems(s.commands.order);
  }
}
