/** Every interleaving of `create`, `cancel`, the clock and the single firing loop. A step is the code
    between two `await`s; a step that is not enabled changes nothing. */
module ScheduleRuns {
  import opened Basics
  import opened OrderedDicts
  import opened Policy
  import opened Schedules
  import opened TimerStore

  /** A RUN_FOR `create` waiting for its attended switch-on. */
  datatype Pending = Pending(q: Request, halves: int)

  /** `pass` is what is left of the loop's snapshot; its head has been submitted and not answered. */
  datatype World = World(s: Service, creating: seq<Pending>, pass: seq<Schedule>)

  datatype Event =
    | Advance(dt: Time)
    | Create(q: Request)
    | StartReturned(k: nat, result: SubmitResult)
    | CancelRequest(actor: Principal, id: Id)
    | Wake
    | FireReturned(result: SubmitResult)

  function Initial(now: Time): World {
    World(Service(now, OrderedDict([], map[]), 0, []), [], [])
  }

  function Step(cfg: Config, w: World, e: Event): (r: World)
    requires w.s.schedules.Valid()
    ensures r.s.schedules.Valid()
  {
    match e
    case Advance(dt) => if dt <= 0.0 then w else w.(s := w.s.(now := w.s.now + dt))
    case Create(q) =>
      var (s, opening) := Open(cfg, w.s, q);
      (match opening
       case Fail(_) => w.(s := s)
       case ArmNow(halves) => ArmKeepsValid(s, q, halves, None); w.(s := Arm(s, q, halves, None))
       case AwaitStart(halves) => w.(s := s, creating := w.creating + [Pending(q, halves)]))
    case StartReturned(k, result) =>
      if k >= |w.creating| then w
      else
        var p := w.creating[k];
        var rest := w.creating[..k] + w.creating[k + 1..];
        var (error, command) := AfterStart(result);
        ArmKeepsValid(w.s, p.q, p.halves, command);
        if error.Some? then w.(creating := rest)
        else w.(creating := rest, s := Arm(w.s, p.q, p.halves, command))
    case CancelRequest(actor, id) => w.(s := Cancel(w.s, actor, id))
    case Wake => if w.pass != [] then w else StartHead(w.(pass := Due(w.s)))
    case FireReturned(result) =>
      if w.pass == [] then w
      else StartHead(w.(s := FireEnd(w.s, w.pass[0], result), pass := w.pass[1..]))
  }

  /** The loop turns to the next timer of its snapshot. */
  function StartHead(w: World): World {
    if w.pass == [] then w else w.(s := FireStart(w.s, w.pass[0]))
  }

  function Exec(cfg: Config, w: World, events: seq<Event>): (r: World)
    requires w.s.schedules.Valid()
    ensures r.s.schedules.Valid()
    decreases |events|
  {
    if events == [] then w else Exec(cfg, Step(cfg, w, events[0]), events[1..])
  }

  lemma ArmKeepsValid(s: Service, q: Request, halves: int, command: Option<CommandId>)
    requires s.schedules.Valid()
    ensures Arm(s, q, halves, command).schedules.Valid()
  {
    var existing := ForDevice(s.schedules, q.device);
    SupersedeKeepsValid(s, existing, q.action);
    EvictExactly(Supersede(s, existing, q.action).schedules.Put(s.nextId, NewTimer(s, q, halves, command)));
  }

  // -- reading the effect log, one timer at a time

  function Settlements(log: seq<Effect>, id: Id): seq<Status> {
    if log == [] then []
    else
      var last := log[|log| - 1];
      Settlements(log[..|log| - 1], id)
      + if last.Settlement? && last.schedule.id == id then [last.schedule.status] else []
  }

  function Firings(log: seq<Effect>, id: Id): seq<Effect> {
    if log == [] then []
    else
      var last := log[|log| - 1];
      Firings(log[..|log| - 1], id)
      + if last.Submitted? && last.timer == Some(id) then [last] else []
  }

  function Births(log: seq<Effect>, id: Id): seq<Schedule> {
    if log == [] then []
    else
      var last := log[|log| - 1];
      Births(log[..|log| - 1], id)
      + if last.Created? && last.schedule.id == id then [last.schedule] else []
  }

  lemma LogOne(log: seq<Effect>, e: Effect, id: Id)
    ensures Settlements(log + [e], id) == Settlements(log, id)
              + if e.Settlement? && e.schedule.id == id then [e.schedule.status] else []
    ensures Firings(log + [e], id) == Firings(log, id)
              + if e.Submitted? && e.timer == Some(id) then [e] else []
    ensures Births(log + [e], id) == Births(log, id)
              + if e.Created? && e.schedule.id == id then [e.schedule] else []
  {
    assert (log + [e])[..|log|] == log;
  }

  lemma LogTwo(log: seq<Effect>, a: Effect, b: Effect, id: Id)
    requires b.Published?
    ensures Settlements(log + [a, b], id) == Settlements(log, id)
              + if a.Settlement? && a.schedule.id == id then [a.schedule.status] else []
    ensures Firings(log + [a, b], id) == Firings(log, id)
              + if a.Submitted? && a.timer == Some(id) then [a] else []
    ensures Births(log + [a, b], id) == Births(log, id)
              + if a.Created? && a.schedule.id == id then [a.schedule] else []
  {
    assert log + [a, b] == (log + [a]) + [b];
    LogOne(log, a, id);
    LogOne(log + [a], b, id);
  }

  // -- the invariant, timer by timer

  ghost predicate InPass(pass: seq<Schedule>, id: Id) {
    exists i :: 0 <= i < |pass| && pass[i].id == id
  }

  /** The loop holds this timer and has submitted it. */
  ghost predicate AtHead(pass: seq<Schedule>, started: bool, id: Id) {
    started && pass != [] && pass[0].id == id
  }

  predicate CalledOff(st: seq<Status>) {
    st == [] || st == [CANCELLED] || st == [SUPERSEDED]
  }

  predicate Outcome(st: Status) {
    st == COMPLETED || st == UNKNOWN || st == FAILED
  }

  /** A timer as `create` makes it: a released timed action, half-hour steps, and the direction its
      kind calls for. */
  ghost predicate WellMade(cfg: Config, t: Schedule) {
    && t.status == ARMED
    && t.action in TIMED_ACTIONS
    && t.device in cfg.capabilities
    && BaseCapability(t.action) in cfg.capabilities[t.device]
    && t.desired == (t.kind == DELAYED_START)
    && exists n: int :: DelayIs(t, n) && 0.5 <= n as real * 0.5 <= cfg.maxHours
  }

  ghost predicate DelayIs(t: Schedule, n: int) {
    t.dueAt == t.createdAt + n as real * 0.5
  }

  /** A firing submits exactly what was armed, and not before its moment. */
  ghost predicate FiredAs(f: Effect, t: Schedule) {
    && f.Submitted?
    && f == Submitted(Some(t.id), t.owner, t.device, t.action, t.desired, t.correlation, f.at)
    && f.at >= t.dueAt
  }

  ghost predicate TimerOk(cfg: Config, s: Service, pass: seq<Schedule>, started: bool, id: Id) {
    var st, fired, born := Settlements(s.effects, id), Firings(s.effects, id), Births(s.effects, id);
    if id >= s.nextId then
      st == [] && fired == [] && born == [] && !InPass(pass, id) && id !in s.schedules.entries
    else
      && |born| == 1 && born[0].id == id && WellMade(cfg, born[0])
      && |fired| <= 1 && (fired != [] ==> FiredAs(fired[0], born[0]))
      && (st == [] <==> Armed(s.schedules, id))
      && (id in s.schedules.entries ==>
            var record := s.schedules.entries[id];
            record == if st == [] then born[0]
                      else born[0].Settled(st[|st| - 1], record.failureCode, record.commandId))
      && (if fired == [] || AtHead(pass, started, id) then CalledOff(st)
          else |st| >= 1 && CalledOff(st[..|st| - 1]) && Outcome(st[|st| - 1]))
      && (AtHead(pass, started, id) ==> fired != [])
      && (InPass(pass, id) && !AtHead(pass, started, id) ==> fired == [])
  }

  ghost predicate PassOk(s: Service, pass: seq<Schedule>) {
    && DistinctIds(pass)
    && forall i :: 0 <= i < |pass| ==>
         pass[i].id < s.nextId && Births(s.effects, pass[i].id) == [pass[i]] && pass[i].dueAt <= s.now
  }

  /** Two armed timers for one function of one device are one timer. */
  ghost predicate OneArmed(store: Store) {
    forall a, b :: Armed(store, a) && Armed(store, b) && SameFunction(store.entries[a], store.entries[b])
      ==> a == b
  }

  predicate SameFunction(a: Schedule, b: Schedule) {
    a.device == b.device && a.action == b.action
  }

  ghost predicate Inv(cfg: Config, s: Service, pass: seq<Schedule>, started: bool) {
    && Keyed(s.schedules)
    && OneArmed(s.schedules)
    && PassOk(s, pass)
    && forall id: Id :: TimerOk(cfg, s, pass, started, id)
  }

  // -- each primitive keeps it

  /** Nothing about this timer changes, except that its settled record may have been forgotten. */
  lemma Untouched(cfg: Config, s: Service, pass: seq<Schedule>, started: bool,
                  s': Service, pass': seq<Schedule>, started': bool, id: Id)
    requires TimerOk(cfg, s, pass, started, id)
    requires Settlements(s'.effects, id) == Settlements(s.effects, id)
    requires Firings(s'.effects, id) == Firings(s.effects, id)
    requires Births(s'.effects, id) == Births(s.effects, id)
    requires s'.nextId == s.nextId || id < s.nextId < s'.nextId || s.nextId < s'.nextId <= id
    requires id in s'.schedules.entries ==>
               id in s.schedules.entries && s'.schedules.entries[id] == s.schedules.entries[id]
    requires Armed(s.schedules, id) ==> Armed(s'.schedules, id)
    requires InPass(pass', id) == InPass(pass, id) && AtHead(pass', started', id) == AtHead(pass, started, id)
    ensures TimerOk(cfg, s', pass', started', id)
  {
  }

  lemma PutSettled(store: Store, record: Schedule)
    requires Keyed(store) && OneArmed(store) && record.status != ARMED
    ensures Keyed(store.Put(record.id, record)) && OneArmed(store.Put(record.id, record))
  {
    var store' := store.Put(record.id, record);
    forall a, b | Armed(store', a) && Armed(store', b) && SameFunction(store'.entries[a], store'.entries[b])
      ensures a == b
    {
      assert Armed(store, a) && Armed(store, b);
    }
  }

  lemma SettleStep(cfg: Config, s: Service, pass: seq<Schedule>, started: bool, t: Schedule, to: Status,
                   actor: Option<Principal>)
    requires Inv(cfg, s, pass, started)
    requires Armed(s.schedules, t.id) && s.schedules.entries[t.id] == t
    requires to == CANCELLED || to == SUPERSEDED
    ensures Inv(cfg, Settle(s, t, to, None, None, actor), pass, started)
  {
    var s' := Settle(s, t, to, None, None, actor);
    PutSettled(s.schedules, t.Settled(to, None, None));
    forall id: Id ensures TimerOk(cfg, s', pass, started, id) {
      assert TimerOk(cfg, s, pass, started, id);
      if id == t.id {
        SettleTimerOk(cfg, s, pass, started, t, to, actor);
      } else {
        SettleLog(s, t, to, actor, id);
        Untouched(cfg, s, pass, started, s', pass, started, id);
      }
    }
    forall i | 0 <= i < |pass| ensures Births(s'.effects, pass[i].id) == [pass[i]] {
      SettleLog(s, t, to, actor, pass[i].id);
    }
  }

  lemma SettleLog(s: Service, t: Schedule, to: Status, actor: Option<Principal>, id: Id)
    ensures var s' := Settle(s, t, to, None, None, actor);
            && Settlements(s'.effects, id) == Settlements(s.effects, id) + (if id == t.id then [to] else [])
            && Firings(s'.effects, id) == Firings(s.effects, id)
            && Births(s'.effects, id) == Births(s.effects, id)
  {
    var record := t.Settled(to, None, None);
    var who := if actor.Some? then actor.value else t.owner;
    LogTwo(s.effects, Settlement(record, who, s.now), Published(false, t.id, to), id);
  }

  lemma SettleTimerOk(cfg: Config, s: Service, pass: seq<Schedule>, started: bool, t: Schedule, to: Status,
                      actor: Option<Principal>)
    requires TimerOk(cfg, s, pass, started, t.id)
    requires Armed(s.schedules, t.id) && s.schedules.entries[t.id] == t
    requires to == CANCELLED || to == SUPERSEDED
    ensures TimerOk(cfg, Settle(s, t, to, None, None, actor), pass, started, t.id)
  {
    SettleLog(s, t, to, actor, t.id);
    assert [] + [to] == [to];
  }

  /** The head's answer arrives: the snapshot record is settled, whatever has happened meanwhile. */
  lemma FireEndStep(cfg: Config, s: Service, pass: seq<Schedule>, result: SubmitResult)
    requires Inv(cfg, s, pass, true) && pass != []
    ensures Inv(cfg, FireEnd(s, pass[0], result), pass[1..], false)
  {
    var t := pass[0];
    var s' := FireEnd(s, t, result);
    var record := FireEndLog(s, t, result, t.id);
    PutSettled(s.schedules, record);
    forall id: Id ensures TimerOk(cfg, s', pass[1..], false, id) {
      assert TimerOk(cfg, s, pass, true, id);
      FireEndTimer(cfg, s, pass, result, id);
    }
    forall i | 0 <= i < |pass[1..]|
      ensures Births(s'.effects, pass[1..][i].id) == [pass[1..][i]] && pass[1..][i].id < s'.nextId
    {
      var _ := FireEndLog(s, t, result, pass[i + 1].id);
    }
  }

  /** A firing's outcome adds one settlement record and its publication. */
  lemma FireEndLog(s: Service, t: Schedule, result: SubmitResult, id: Id) returns (record: Schedule)
    ensures record == t.Settled(record.status, record.failureCode, record.commandId) && Outcome(record.status)
    ensures var s' := FireEnd(s, t, result);
            && s'.schedules == s.schedules.Put(t.id, record) && s'.now == s.now && s'.nextId == s.nextId
            && Settlements(s'.effects, id)
               == Settlements(s.effects, id) + (if id == t.id then [record.status] else [])
            && Firings(s'.effects, id) == Firings(s.effects, id)
            && Births(s'.effects, id) == Births(s.effects, id)
  {
    record := FireEnd(s, t, result).schedules.entries[t.id];
    LogTwo(s.effects, Settlement(record, t.owner, s.now), Published(false, t.id, record.status), id);
  }

  lemma FireEndTimer(cfg: Config, s: Service, pass: seq<Schedule>, result: SubmitResult, id: Id)
    requires pass != [] && PassOk(s, pass) && TimerOk(cfg, s, pass, true, id)
    ensures TimerOk(cfg, FireEnd(s, pass[0], result), pass[1..], false, id)
  {
    PassTail(pass, id);
    if id == pass[0].id {
      FireEndHead(cfg, s, pass, result);
    } else {
      var record := FireEndLog(s, pass[0], result, id);
      Untouched(cfg, s, pass, true, FireEnd(s, pass[0], result), pass[1..], false, id);
    }
  }

  lemma FireEndHead(cfg: Config, s: Service, pass: seq<Schedule>, result: SubmitResult)
    requires pass != [] && PassOk(s, pass) && TimerOk(cfg, s, pass, true, pass[0].id)
    requires !InPass(pass[1..], pass[0].id)
    ensures TimerOk(cfg, FireEnd(s, pass[0], result), pass[1..], false, pass[0].id)
  {
    var id := pass[0].id;
    var record := FireEndLog(s, pass[0], result, id);
    assert AtHead(pass, true, id) && InPass(pass, id);
    assert !AtHead(pass[1..], false, id);
    var st := Settlements(s.effects, id);
    var st' := st + [record.status];
    assert st'[..|st'| - 1] == st && st'[|st'| - 1] == record.status;
    assert Births(s.effects, id) == [pass[0]];
  }

  lemma PassTail(pass: seq<Schedule>, id: Id)
    requires pass != [] && DistinctIds(pass)
    ensures InPass(pass[1..], id) <==> InPass(pass, id) && pass[0].id != id
  {
    if InPass(pass, id) {
      var i :| 0 <= i < |pass| && pass[i].id == id;
      if i > 0 {
        assert pass[1..][i - 1].id == id;
      }
    }
  }

  lemma FireStartStep(cfg: Config, s: Service, pass: seq<Schedule>)
    requires Inv(cfg, s, pass, false) && pass != []
    ensures Inv(cfg, FireStart(s, pass[0]), pass, true)
  {
    var s' := FireStart(s, pass[0]);
    forall id: Id ensures TimerOk(cfg, s', pass, true, id) {
      assert TimerOk(cfg, s, pass, false, id);
      FireStartTimer(cfg, s, pass, id);
    }
    forall i | 0 <= i < |pass| ensures Births(s'.effects, pass[i].id) == [pass[i]] {
      LogOne(s.effects, s'.effects[|s.effects|], pass[i].id);
    }
  }

  lemma FireStartTimer(cfg: Config, s: Service, pass: seq<Schedule>, id: Id)
    requires pass != [] && PassOk(s, pass) && TimerOk(cfg, s, pass, false, id)
    ensures TimerOk(cfg, FireStart(s, pass[0]), pass, true, id)
  {
    if id == pass[0].id {
      FireStartHead(cfg, s, pass);
    } else {
      LogOne(s.effects, FireStart(s, pass[0]).effects[|s.effects|], id);
      Untouched(cfg, s, pass, false, FireStart(s, pass[0]), pass, true, id);
    }
  }

  lemma FireStartHead(cfg: Config, s: Service, pass: seq<Schedule>)
    requires pass != [] && PassOk(s, pass) && TimerOk(cfg, s, pass, false, pass[0].id)
    ensures TimerOk(cfg, FireStart(s, pass[0]), pass, true, pass[0].id)
  {
    var t := pass[0];
    var e := FireStart(s, t).effects[|s.effects|];
    LogOne(s.effects, e, t.id);
    assert InPass(pass, t.id);
    assert Firings(FireStart(s, t).effects, t.id) == [e];
    assert Births(s.effects, t.id) == [t] && FiredAs(e, t);
  }

  lemma WakeStep(cfg: Config, s: Service)
    requires Inv(cfg, s, [], true)
    ensures Inv(cfg, s, Due(s), false)
  {
    DueListExactly(s);
    var pass := Due(s);
    forall i | 0 <= i < |pass|
      ensures pass[i].id < s.nextId && Births(s.effects, pass[i].id) == [pass[i]] && pass[i].dueAt <= s.now
    {
      assert pass[i] in pass;
      assert TimerOk(cfg, s, [], true, pass[i].id);
    }
    forall id: Id ensures TimerOk(cfg, s, pass, false, id) {
      assert TimerOk(cfg, s, [], true, id);
      if InPass(pass, id) {
        var i :| 0 <= i < |pass| && pass[i].id == id;
        assert pass[i] in pass;
      }
    }
  }

  lemma AdvanceStep(cfg: Config, s: Service, pass: seq<Schedule>, dt: Time)
    requires Inv(cfg, s, pass, true) && dt > 0.0
    ensures Inv(cfg, s.(now := s.now + dt), pass, true)
  {
    var s' := s.(now := s.now + dt);
    forall id: Id ensures TimerOk(cfg, s', pass, true, id) {
      assert TimerOk(cfg, s, pass, true, id);
    }
  }

  lemma QuietStep(cfg: Config, s: Service, pass: seq<Schedule>, e: Effect)
    requires Inv(cfg, s, pass, true)
    requires e.Denied? || (e.Submitted? && e.timer == None)
    ensures Inv(cfg, s.Log([e]), pass, true)
  {
    forall id: Id ensures TimerOk(cfg, s.Log([e]), pass, true, id) {
      LogOne(s.effects, e, id);
      Untouched(cfg, s, pass, true, s.Log([e]), pass, true, id);
    }
    forall i | 0 <= i < |pass| ensures Births(s.Log([e]).effects, pass[i].id) == [pass[i]] {
      LogOne(s.effects, e, pass[i].id);
    }
  }

  /** Every record listed is an armed timer of the store. */
  ghost predicate Listed(s: Service, existing: seq<Schedule>) {
    && DistinctIds(existing)
    && forall i :: 0 <= i < |existing| ==>
         Armed(s.schedules, existing[i].id) && s.schedules.entries[existing[i].id] == existing[i]
  }

  function SupersedeHead(s: Service, existing: seq<Schedule>, action: Action): Service
    requires existing != []
  {
    if existing[0].action == action then Settle(s, existing[0], SUPERSEDED, None, None, None) else s
  }

  lemma ListedTail(s: Service, existing: seq<Schedule>, action: Action)
    requires Listed(s, existing) && existing != []
    ensures Listed(SupersedeHead(s, existing, action), existing[1..])
  {
    var next := SupersedeHead(s, existing, action);
    forall i | 0 <= i < |existing[1..]|
      ensures Armed(next.schedules, existing[1..][i].id)
              && next.schedules.entries[existing[1..][i].id] == existing[1..][i]
    {
      assert existing[1..][i] == existing[i + 1];
    }
  }

  /** Superseding settles the listed timers of that action and touches nothing else. */
  lemma {:induction false} SupersedeStore(s: Service, existing: seq<Schedule>, action: Action)
    requires Listed(s, existing)
    ensures var s' := Supersede(s, existing, action);
            && s'.now == s.now && s'.nextId == s.nextId
            && s'.schedules.entries.Keys == s.schedules.entries.Keys
            && (forall id :: Armed(s'.schedules, id) ==>
                  Armed(s.schedules, id) && s'.schedules.entries[id] == s.schedules.entries[id])
            && (forall i :: 0 <= i < |existing| && existing[i].action == action ==>
                  !Armed(s'.schedules, existing[i].id))
    decreases |existing|
  {
    if existing != [] {
      ListedTail(s, existing, action);
      SupersedeStore(SupersedeHead(s, existing, action), existing[1..], action);
      assert forall i :: 0 < i < |existing| ==> existing[i] == existing[1..][i - 1];
    }
  }

  lemma {:induction false} SupersedeStep(cfg: Config, s: Service, pass: seq<Schedule>, existing: seq<Schedule>,
                                         action: Action)
    requires Inv(cfg, s, pass, true) && Listed(s, existing)
    ensures Inv(cfg, Supersede(s, existing, action), pass, true)
    decreases |existing|
  {
    if existing != [] {
      if existing[0].action == action {
        SettleStep(cfg, s, pass, true, existing[0], SUPERSEDED, None);
      }
      ListedTail(s, existing, action);
      SupersedeStep(cfg, SupersedeHead(s, existing, action), pass, existing[1..], action);
    }
  }

  /** What the gates of `create` guarantee about a request that went through. */
  ghost predicate Admissible(cfg: Config, q: Request, halves: int) {
    && q.action in TIMED_ACTIONS
    && q.device in cfg.capabilities
    && BaseCapability(q.action) in cfg.capabilities[q.device]
    && IsHalves(q.hours, cfg.maxHours, halves)
  }

  lemma OpenGates(cfg: Config, s: Service, q: Request)
    ensures var (s', opening) := Open(cfg, s, q);
            match opening
            case Fail(error) => s' == s || (exists reason :: s' == s.Log([Denied(q.owner, q.device, q.action, reason)]))
            case ArmNow(halves) => Admissible(cfg, q, halves) && q.kind == DELAYED_START && s' == s
            case AwaitStart(halves) =>
              && Admissible(cfg, q, halves) && q.kind == RUN_FOR
              && s' == s.Log([Submitted(None, q.owner, q.device, q.action, true, q.correlation, s.now)])
    ensures (exists halves :: Admissible(cfg, q, halves)) ==> !Open(cfg, s, q).1.Fail?
  {
    HoursAccepted(q.hours, cfg.maxHours);
  }

  lemma AddStep(cfg: Config, s: Service, pass: seq<Schedule>, t: Schedule)
    requires Inv(cfg, s, pass, true)
    requires t.id == s.nextId && WellMade(cfg, t)
    requires forall id :: Armed(s.schedules, id) ==> !SameFunction(s.schedules.entries[id], t)
    ensures Inv(cfg, Added(s, t), pass, true)
  {
    var s' := Added(s, t);
    assert TimerOk(cfg, s, pass, true, t.id);
    AddStore(s.schedules, t);
    forall id: Id ensures TimerOk(cfg, s', pass, true, id) {
      assert TimerOk(cfg, s, pass, true, id);
      if id == t.id {
        AddTimerOk(cfg, s, pass, t);
      } else {
        LogTwo(s.effects, Created(t, s.now), Published(true, t.id, ARMED), id);
        Untouched(cfg, s, pass, true, s', pass, true, id);
      }
    }
    forall i | 0 <= i < |pass| ensures Births(s'.effects, pass[i].id) == [pass[i]] {
      LogTwo(s.effects, Created(t, s.now), Published(true, t.id, ARMED), pass[i].id);
    }
  }

  lemma AddTimerOk(cfg: Config, s: Service, pass: seq<Schedule>, t: Schedule)
    requires Inv(cfg, s, pass, true)
    requires t.id == s.nextId && WellMade(cfg, t)
    requires forall id :: Armed(s.schedules, id) ==> !SameFunction(s.schedules.entries[id], t)
    ensures TimerOk(cfg, Added(s, t), pass, true, t.id)
  {
    assert TimerOk(cfg, s, pass, true, t.id);
    AddStore(s.schedules, t);
    LogTwo(s.effects, Created(t, s.now), Published(true, t.id, ARMED), t.id);
    assert Births(Added(s, t).effects, t.id) == [t];
  }

  /** The tail of `Arm`: remember the timer, audit it, publish it. */
  function Added(s: Service, t: Schedule): Service
    requires s.schedules.Valid()
  {
    s.(schedules := Evict(s.schedules.Put(t.id, t)), nextId := s.nextId + 1)
     .Log([Created(t, s.now), Published(true, t.id, ARMED)])
  }

  lemma AddStore(store: Store, t: Schedule)
    requires Keyed(store) && OneArmed(store) && t.id !in store.entries && t.status == ARMED
    requires forall id :: Armed(store, id) ==> !SameFunction(store.entries[id], t)
    ensures var r := Evict(store.Put(t.id, t));
            && Keyed(r) && OneArmed(r) && Armed(r, t.id) && r.entries[t.id] == t
            && (forall id :: id in r.entries && id != t.id ==>
                  id in store.entries && r.entries[id] == store.entries[id])
            && (forall id :: Armed(store, id) ==> Armed(r, id))
  {
    var full := store.Put(t.id, t);
    EvictExactly(full);
    var r := Evict(full);
    forall id | Armed(store, id) ensures Armed(r, id) {
      assert Armed(full, id);
    }
    assert Armed(full, t.id);
    forall a, b | Armed(r, a) && Armed(r, b) && SameFunction(r.entries[a], r.entries[b]) ensures a == b {
      if a != t.id { assert Armed(store, a); }
      if b != t.id { assert Armed(store, b); }
    }
  }

  lemma NewTimerIsWellMade(cfg: Config, s: Service, q: Request, halves: int, command: Option<CommandId>)
    requires Admissible(cfg, q, halves)
    ensures WellMade(cfg, NewTimer(s, q, halves, command))
  {
    assert DelayIs(NewTimer(s, q, halves, command), halves);
  }

  lemma ArmIsAdded(s: Service, q: Request, halves: int, command: Option<CommandId>)
    requires Keyed(s.schedules)
    ensures var cleared := Supersede(s, ForDevice(s.schedules, q.device), q.action);
            && cleared.schedules.Valid()
            && Arm(s, q, halves, command) == Added(cleared, NewTimer(s, q, halves, command))
  {
    var existing := ForDevice(s.schedules, q.device);
    SupersedeKeepsValid(s, existing, q.action);
    NoneLeft(s, q);
  }

  lemma ArmStep(cfg: Config, s: Service, pass: seq<Schedule>, q: Request, halves: int, command: Option<CommandId>)
    requires Inv(cfg, s, pass, true) && Admissible(cfg, q, halves)
    ensures Inv(cfg, Arm(s, q, halves, command), pass, true)
  {
    NoneLeft(s, q);
    ArmIsAdded(s, q, halves, command);
    var existing := ForDevice(s.schedules, q.device);
    SupersedeStep(cfg, s, pass, existing, q.action);
    NewTimerIsWellMade(cfg, s, q, halves, command);
    AddStep(cfg, Supersede(s, existing, q.action), pass, NewTimer(s, q, halves, command));
  }

  /** After superseding, no timer is armed for the requested function. */
  lemma NoneLeft(s: Service, q: Request)
    requires Keyed(s.schedules)
    ensures Listed(s, ForDevice(s.schedules, q.device))
    ensures var s' := Supersede(s, ForDevice(s.schedules, q.device), q.action);
            && s'.now == s.now && s'.nextId == s.nextId
            && forall id :: Armed(s'.schedules, id) ==>
                 !(s'.schedules.entries[id].device == q.device && s'.schedules.entries[id].action == q.action)
  {
    var existing := ForDevice(s.schedules, q.device);
    ForDeviceExactly(s.schedules, q.device);
    assert forall i :: 0 <= i < |existing| ==> existing[i] in existing;
    SupersedeStore(s, existing, q.action);
    var s' := Supersede(s, existing, q.action);
    forall id | Armed(s'.schedules, id)
      ensures !(s'.schedules.entries[id].device == q.device && s'.schedules.entries[id].action == q.action)
    {
      assert Armed(s.schedules, id);
      var e := s.schedules.entries[id];
      assert e in existing <==> e.device == q.device;
    }
  }

  // -- all runs

  /** Every submission this service ever makes is for a timed action released for that device. */
  ghost predicate OnlyTimed(cfg: Config, log: seq<Effect>) {
    forall i :: 0 <= i < |log| && log[i].Submitted? ==>
      && log[i].action in TIMED_ACTIONS
      && log[i].device in cfg.capabilities
      && BaseCapability(log[i].action) in cfg.capabilities[log[i].device]
  }

  ghost predicate WorldInv(cfg: Config, w: World) {
    && Inv(cfg, w.s, w.pass, true)
    && (forall i :: 0 <= i < |w.creating| ==> Admissible(cfg, w.creating[i].q, w.creating[i].halves))
    && OnlyTimed(cfg, w.s.effects)
  }

  lemma InitialInv(cfg: Config, now: Time)
    ensures WorldInv(cfg, Initial(now))
  {
    var w := Initial(now);
    forall id: Id ensures TimerOk(cfg, w.s, w.pass, true, id) {
    }
  }

  lemma StartHeadStep(cfg: Config, w: World)
    requires Inv(cfg, w.s, w.pass, false) && OnlyTimed(cfg, w.s.effects)
    ensures Inv(cfg, StartHead(w).s, w.pass, true) && OnlyTimed(cfg, StartHead(w).s.effects)
  {
    if w.pass == [] {
      forall id: Id ensures TimerOk(cfg, w.s, w.pass, true, id) {
        assert TimerOk(cfg, w.s, w.pass, false, id);
      }
    } else {
      FireStartStep(cfg, w.s, w.pass);
      assert TimerOk(cfg, w.s, w.pass, false, w.pass[0].id);
    }
  }

  lemma {:induction false} SupersedeTimed(cfg: Config, s: Service, existing: seq<Schedule>, action: Action)
    requires OnlyTimed(cfg, s.effects)
    ensures OnlyTimed(cfg, Supersede(s, existing, action).effects)
    decreases |existing|
  {
    if existing != [] {
      SupersedeTimed(cfg, SupersedeHead(s, existing, action), existing[1..], action);
    }
  }

  lemma StepKeeps(cfg: Config, w: World, e: Event)
    requires WorldInv(cfg, w)
    ensures WorldInv(cfg, Step(cfg, w, e))
  {
    match e
    case Advance(dt) => if dt > 0.0 { AdvanceStep(cfg, w.s, w.pass, dt); }
    case Create(q) => CreateKeeps(cfg, w, q);
    case StartReturned(k, result) => StartKeeps(cfg, w, k, result);
    case CancelRequest(actor, id) => CancelKeeps(cfg, w, actor, id);
    case Wake => WakeKeeps(cfg, w);
    case FireReturned(result) => FireKeeps(cfg, w, result);
  }

  lemma StartKeeps(cfg: Config, w: World, k: nat, result: SubmitResult)
    requires WorldInv(cfg, w)
    ensures WorldInv(cfg, Step(cfg, w, StartReturned(k, result)))
  {
    if k < |w.creating| {
      var p := w.creating[k];
      var (error, command) := AfterStart(result);
      if error.None? {
        ArmKeeps(cfg, w.s, w.pass, p.q, p.halves, command);
      }
    }
  }

  lemma CancelKeeps(cfg: Config, w: World, actor: Principal, id: Id)
    requires WorldInv(cfg, w)
    ensures WorldInv(cfg, Step(cfg, w, CancelRequest(actor, id)))
  {
    if Armed(w.s.schedules, id) {
      SettleStep(cfg, w.s, w.pass, true, w.s.schedules.entries[id], CANCELLED, Some(actor));
    }
  }

  lemma WakeKeeps(cfg: Config, w: World)
    requires WorldInv(cfg, w)
    ensures WorldInv(cfg, Step(cfg, w, Wake))
  {
    if w.pass == [] {
      WakeStep(cfg, w.s);
      StartHeadStep(cfg, w.(pass := Due(w.s)));
    }
  }

  lemma FireKeeps(cfg: Config, w: World, result: SubmitResult)
    requires WorldInv(cfg, w)
    ensures WorldInv(cfg, Step(cfg, w, FireReturned(result)))
  {
    if w.pass != [] {
      FireEndStep(cfg, w.s, w.pass, result);
      StartHeadStep(cfg, w.(s := FireEnd(w.s, w.pass[0], result), pass := w.pass[1..]));
    }
  }

  lemma ArmKeeps(cfg: Config, s: Service, pass: seq<Schedule>, q: Request, halves: int, command: Option<CommandId>)
    requires Inv(cfg, s, pass, true) && Admissible(cfg, q, halves) && OnlyTimed(cfg, s.effects)
    ensures Inv(cfg, Arm(s, q, halves, command), pass, true)
    ensures OnlyTimed(cfg, Arm(s, q, halves, command).effects)
  {
    ArmStep(cfg, s, pass, q, halves, command);
    SupersedeTimed(cfg, s, ForDevice(s.schedules, q.device), q.action);
  }

  lemma CreateKeeps(cfg: Config, w: World, q: Request)
    requires WorldInv(cfg, w)
    ensures WorldInv(cfg, Step(cfg, w, Create(q)))
  {
    OpenGates(cfg, w.s, q);
    var (s, opening) := Open(cfg, w.s, q);
    match opening
    case Fail(_) =>
      if s != w.s {
        QuietStep(cfg, w.s, w.pass, s.effects[|w.s.effects|]);
      }
    case ArmNow(halves) => ArmKeeps(cfg, s, w.pass, q, halves, None);
    case AwaitStart(halves) => QuietStep(cfg, w.s, w.pass, s.effects[|w.s.effects|]);
  }

  lemma {:induction false} ExecKeeps(cfg: Config, w: World, events: seq<Event>)
    requires WorldInv(cfg, w)
    ensures WorldInv(cfg, Exec(cfg, w, events))
    decreases |events|
  {
    if events != [] {
      StepKeeps(cfg, w, events[0]);
      ExecKeeps(cfg, Step(cfg, w, events[0]), events[1..]);
    }
  }
}
