/** Where everything the timer service does comes from: each timer from one request, each firing from that
    request, each settlement from the event that called for it. */
module TimerOrigins {
  import opened Basics
  import opened OrderedDicts
  import opened Policy
  import opened Schedules
  import opened TimerStore
  import opened ScheduleRuns
  import opened TimerSafety

  // -- which step an entry of the log is from

  /** Entry `i` of the log was written by event `j`. */
  ghost predicate WrittenAt(cfg: Config, start: Time, events: seq<Event>, i: nat, j: nat) {
    && j < |events|
    && var w := After(cfg, start, events[..j]);
       var w' := Step(cfg, w, events[j]);
       && WorldInv(cfg, w) && |w.s.effects| <= i < |w'.s.effects|
       && i < |After(cfg, start, events).s.effects|
       && w'.s.effects <= After(cfg, start, events).s.effects
  }

  lemma {:induction false} StepOf(cfg: Config, start: Time, events: seq<Event>, i: nat) returns (j: nat)
    requires i < |After(cfg, start, events).s.effects|
    ensures WrittenAt(cfg, start, events, i, j)
    decreases |events|
  {
    var n := |events| - 1;
    var before := events[..n];
    assert events == before + [events[n]];
    AfterSnoc(cfg, start, before, events[n]);
    Reached(cfg, start, before);
    StepGrows(cfg, After(cfg, start, before), events[n]);
    if i < |After(cfg, start, before).s.effects| {
      j := StepOf(cfg, start, before, i);
      assert before[..j] == events[..j];
    } else {
      j := n;
    }
  }

  // -- what each entry must be, in terms of the event and the requests alone

  /** `t` is the timer asked for by `q` and armed at `now`: for that function, person and kind, due the
      requested number of half hours later, and switching on exactly when it is a delayed start. */
  ghost predicate AsAsked(cfg: Config, q: Request, now: Time, t: Schedule) {
    && t.owner == q.owner && t.device == q.device && t.action == q.action && t.kind == q.kind
    && t.correlation == q.correlation && (t.desired <==> q.kind == DELAYED_START)
    && t.status == ARMED && t.failureCode == None && t.createdAt == now
    && exists n: int :: IsHalves(q.hours, cfg.maxHours, n) && DelayIs(t, n)
  }

  ghost predicate Permitted(cfg: Config, q: Request) {
    exists n: int :: Admissible(cfg, q, n)
  }

  /** The attended switch-on took, or may have taken. */
  predicate Switched(r: SubmitResult) {
    r.Returned? && (r.status == C_SUCCEEDED || r.status == C_UNKNOWN)
  }

  /** A record settled by the pipeline's answer: completed exactly when it succeeded, unknown exactly when
      it cannot be told, failed in every other case; with the answer's own code and command. */
  predicate AsAnswered(answer: SubmitResult, r: Schedule) {
    && (r.status == COMPLETED <==> answer.Returned? && answer.status == C_SUCCEEDED)
    && (r.status == UNKNOWN <==> answer.Returned? && answer.status == C_UNKNOWN)
    && (r.status == FAILED <==> !Switched(answer))
    && r.commandId == (if answer.Returned? then Some(answer.command) else None)
    && (answer.Returned? ==> r.failureCode == answer.code)
    && (answer.Refused? ==> r.failureCode == Some(answer.problem))
    && (answer.Crashed? ==> r.failureCode == Some("internal_error"))
  }

  ghost predicate CreatedBy(cfg: Config, w: World, e: Event, t: Schedule, at: Time) {
    && at == w.s.now && t.id == w.s.nextId
    && (e.Create? || (e.StartReturned? && e.k < |w.creating|))
    && var q := if e.Create? then e.q else w.creating[e.k].q;
       && Permitted(cfg, q) && AsAsked(cfg, q, w.s.now, t)
       && (e.Create? ==> q.kind == DELAYED_START && t.commandId == None)
       && (e.StartReturned? ==> Switched(e.result) && t.commandId == Some(e.result.command))
  }

  /** Submitted unattended: the record the timer was born with, at or after its moment. Attended: the
      switch-on of a RUN_FOR request, now. */
  ghost predicate SubmittedBy(cfg: Config, w: World, e: Event, x: Effect)
    requires x.Submitted?
  {
    && x.at == w.s.now
    && match x.timer
       case None => e.Create? && e.q.kind == RUN_FOR && Permitted(cfg, e.q) && x.on
                    && x.owner == e.q.owner && x.device == e.q.device && x.action == e.q.action
                    && x.correlation == e.q.correlation
       case Some(id) => (e.Wake? || e.FireReturned?) && exists t :: Births(w.s.effects, id) == [t] && FiredAs(x, t)
  }

  ghost predicate SettledBy(w: World, e: Event, r: Schedule, actor: Principal, at: Time) {
    && at == w.s.now
    && (exists t :: Births(w.s.effects, r.id) == [t] && r == t.Settled(r.status, r.failureCode, r.commandId))
    && (r.status == CANCELLED || r.status == SUPERSEDED ==> r.failureCode == None && r.commandId == None)
    && match r.status
       case ARMED => false
       case CANCELLED => e == CancelRequest(actor, r.id)
       case SUPERSEDED =>
         && (e.Create? || (e.StartReturned? && e.k < |w.creating| && Switched(e.result))) && actor == r.owner
         && var q := if e.Create? then e.q else w.creating[e.k].q;
            q.device == r.device && q.action == r.action
       case _ => e.FireReturned? && w.pass != [] && w.pass[0].id == r.id && actor == r.owner && AsAnswered(e.result, r)
  }

  ghost predicate DeniedBy(cfg: Config, e: Event, x: Effect)
    requires x.Denied?
  {
    && e.Create? && x.owner == e.q.owner && x.device == e.q.device && x.action == e.q.action
    && x.reason == (if e.q.action in TIMED_ACTIONS then "capability_not_supported" else "not_schedulable")
    && e.q.device in cfg.capabilities && !Permitted(cfg, e.q)
  }

  ghost predicate Explained(cfg: Config, w: World, e: Event, x: Effect) {
    match x
    case Created(t, at) => CreatedBy(cfg, w, e, t, at)
    case Submitted(_, _, _, _, _, _, _) => SubmittedBy(cfg, w, e, x)
    case Settlement(r, actor, at) => SettledBy(w, e, r, actor, at)
    case Denied(_, _, _, _) => DeniedBy(cfg, e, x)
    case Published(_, _, _) => true
  }

  // -- each step writes only that

  /** A settlement of one of the listed timers by superseding. */
  ghost predicate Replaced(existing: seq<Schedule>, action: Action, now: Time, x: Effect) {
    exists t :: t in existing && t.action == action && x == Settlement(t.Settled(SUPERSEDED, None, None), t.owner, now)
  }

  lemma {:induction false} SupersedeWrites(s: Service, existing: seq<Schedule>, action: Action, i: nat)
    requires |s.effects| <= i < |Supersede(s, existing, action).effects|
    ensures var x := Supersede(s, existing, action).effects[i]; x.Published? || Replaced(existing, action, s.now, x)
    decreases |existing|
  {
    var next := SupersedeHead(s, existing, action);
    SupersedeGrows(next, existing[1..], action);
    if i >= |next.effects| {
      SupersedeWrites(next, existing[1..], action, i);
    } else {
      assert existing[0] in existing;
    }
  }

  lemma NewTimerAsAsked(cfg: Config, s: Service, q: Request, halves: int, command: Option<CommandId>)
    requires IsHalves(q.hours, cfg.maxHours, halves)
    ensures AsAsked(cfg, q, s.now, NewTimer(s, q, halves, command))
  {
    assert DelayIs(NewTimer(s, q, halves, command), halves);
  }

  /** A settlement of a timer for the requested function by superseding. */
  ghost predicate Supplanted(s: Service, q: Request, x: Effect) {
    exists t: Schedule :: Births(s.effects, t.id) == [t] && t.device == q.device && t.action == q.action
                       && x == Settlement(t.Settled(SUPERSEDED, None, None), t.owner, s.now)
  }

  lemma ArmWrites(cfg: Config, s: Service, pass: seq<Schedule>, q: Request, halves: int, command: Option<CommandId>,
                  i: nat)
    requires Inv(cfg, s, pass, true) && |s.effects| <= i < |Arm(s, q, halves, command).effects|
    ensures var x := Arm(s, q, halves, command).effects[i];
            || x.Published? || x == Created(NewTimer(s, q, halves, command), s.now)
            || Supplanted(s, q, x)
  {
    var existing := ForDevice(s.schedules, q.device);
    var cleared := Supersede(s, existing, q.action);
    SupersedeGrows(s, existing, q.action);
    if i < |cleared.effects| {
      SupersedeWrites(s, existing, q.action, i);
      var x := cleared.effects[i];
      if !x.Published? { ReplacedIsSupplanted(cfg, s, pass, q, x); }
    } else {
      NoneLeft(s, q);
    }
  }

  lemma ReplacedIsSupplanted(cfg: Config, s: Service, pass: seq<Schedule>, q: Request, x: Effect)
    requires Inv(cfg, s, pass, true) && Replaced(ForDevice(s.schedules, q.device), q.action, s.now, x)
    ensures Supplanted(s, q, x)
  {
    var existing := ForDevice(s.schedules, q.device);
    ForDeviceExactly(s.schedules, q.device);
    var t :| t in existing && t.action == q.action
      && x == Settlement(t.Settled(SUPERSEDED, None, None), t.owner, s.now);
    assert TimerOk(cfg, s, pass, true, t.id);
    assert Births(s.effects, t.id) == [t];
  }

  /** An arming writes the settlements of what it replaces, and the new timer. */
  lemma ArmExplained(cfg: Config, w: World, e: Event, q: Request, halves: int, command: Option<CommandId>, i: nat)
    requires WorldInv(cfg, w) && Admissible(cfg, q, halves)
    requires |w.s.effects| <= i < |Arm(w.s, q, halves, command).effects|
    requires || (e == Create(q) && q.kind == DELAYED_START && command == None)
             || (e.StartReturned? && e.k < |w.creating| && w.creating[e.k].q == q && Switched(e.result)
                 && command == Some(e.result.command))
    ensures Explained(cfg, w, e, Arm(w.s, q, halves, command).effects[i])
  {
    ArmWrites(cfg, w.s, w.pass, q, halves, command, i);
    NewTimerAsAsked(cfg, w.s, q, halves, command);
  }

  lemma CreateExplained(cfg: Config, w: World, q: Request, i: nat)
    requires WorldInv(cfg, w) && |w.s.effects| <= i < |Step(cfg, w, Create(q)).s.effects|
    ensures Explained(cfg, w, Create(q), Step(cfg, w, Create(q)).s.effects[i])
  {
    OpenGates(cfg, w.s, q);
    var (s, opening) := Open(cfg, w.s, q);
    match opening
    case ArmNow(halves) => ArmExplained(cfg, w, Create(q), q, halves, None, i);
    case AwaitStart(halves) => assert Permitted(cfg, q);
    case Fail(_) =>
  }

  lemma StartExplained(cfg: Config, w: World, k: nat, result: SubmitResult, i: nat)
    requires WorldInv(cfg, w) && |w.s.effects| <= i < |Step(cfg, w, StartReturned(k, result)).s.effects|
    ensures Explained(cfg, w, StartReturned(k, result), Step(cfg, w, StartReturned(k, result)).s.effects[i])
  {
    var p := w.creating[k];
    ArmExplained(cfg, w, StartReturned(k, result), p.q, p.halves, AfterStart(result).1, i);
  }

  lemma CancelExplained(cfg: Config, w: World, actor: Principal, id: Id, i: nat)
    requires WorldInv(cfg, w) && |w.s.effects| <= i < |Step(cfg, w, CancelRequest(actor, id)).s.effects|
    ensures Explained(cfg, w, CancelRequest(actor, id), Step(cfg, w, CancelRequest(actor, id)).s.effects[i])
  {
    assert TimerOk(cfg, w.s, w.pass, true, id);
    assert Births(w.s.effects, id) == [w.s.schedules.entries[id]];
  }

  /** Starting the head submits the record it was born with. */
  lemma HeadExplained(cfg: Config, w: World, e: Event, s: Service, pass: seq<Schedule>)
    requires pass != [] && PassOk(s, pass) && s.now == w.s.now && (e.Wake? || e.FireReturned?)
    requires Births(s.effects, pass[0].id) == Births(w.s.effects, pass[0].id)
    ensures var s' := FireStart(s, pass[0]);
            |s'.effects| == |s.effects| + 1 && Explained(cfg, w, e, s'.effects[|s.effects|])
  {
    assert FiredAs(FireStart(s, pass[0]).effects[|s.effects|], pass[0]);
  }

  lemma WakeExplained(cfg: Config, w: World, i: nat)
    requires WorldInv(cfg, w) && |w.s.effects| <= i < |Step(cfg, w, Wake).s.effects|
    ensures Explained(cfg, w, Wake, Step(cfg, w, Wake).s.effects[i])
  {
    WakeStep(cfg, w.s);
    HeadExplained(cfg, w, Wake, w.s, Due(w.s));
  }

  /** An answer settles the head as answered, and nothing else. */
  lemma AnswerWrites(s: Service, t: Schedule, answer: SubmitResult) returns (r: Schedule)
    ensures FireEnd(s, t, answer).effects
            == s.effects + [Settlement(r, t.owner, s.now), Published(false, t.id, r.status)]
    ensures r == t.Settled(r.status, r.failureCode, r.commandId) && AsAnswered(answer, r)
    ensures FireEnd(s, t, answer).schedules == s.schedules.Put(t.id, r)
  {
    r := FireEnd(s, t, answer).schedules.entries[t.id];
  }

  lemma NextExplained(cfg: Config, w: World, answer: SubmitResult)
    requires WorldInv(cfg, w) && |w.pass| > 1
    ensures var s := FireEnd(w.s, w.pass[0], answer);
            var s' := FireStart(s, w.pass[1..][0]);
            |s'.effects| == |s.effects| + 1 && Explained(cfg, w, FireReturned(answer), s'.effects[|s.effects|])
  {
    FireEndStep(cfg, w.s, w.pass, answer);
    var _ := FireEndLog(w.s, w.pass[0], answer, w.pass[1].id);
    HeadExplained(cfg, w, FireReturned(answer), FireEnd(w.s, w.pass[0], answer), w.pass[1..]);
  }

  lemma AnswerExplained(cfg: Config, w: World, answer: SubmitResult, r: Schedule)
    requires WorldInv(cfg, w) && w.pass != [] && AsAnswered(answer, r)
    requires r == w.pass[0].Settled(r.status, r.failureCode, r.commandId)
    ensures Explained(cfg, w, FireReturned(answer), Settlement(r, r.owner, w.s.now))
  {
    assert Births(w.s.effects, w.pass[0].id) == [w.pass[0]];
  }

  lemma FireExplained(cfg: Config, w: World, answer: SubmitResult, i: nat)
    requires WorldInv(cfg, w) && |w.s.effects| <= i < |Step(cfg, w, FireReturned(answer)).s.effects|
    ensures Explained(cfg, w, FireReturned(answer), Step(cfg, w, FireReturned(answer)).s.effects[i])
  {
    var r := AnswerWrites(w.s, w.pass[0], answer);
    AnswerExplained(cfg, w, answer, r);
    var s := FireEnd(w.s, w.pass[0], answer);
    if i >= |s.effects| {
      NextExplained(cfg, w, answer);
    } else {
      assert Step(cfg, w, FireReturned(answer)).s.effects[i] == s.effects[i];
    }
  }

  lemma StepExplained(cfg: Config, w: World, e: Event, i: nat)
    requires WorldInv(cfg, w) && |w.s.effects| <= i < |Step(cfg, w, e).s.effects|
    ensures Explained(cfg, w, e, Step(cfg, w, e).s.effects[i])
  {
    match e
    case Create(q) => CreateExplained(cfg, w, q, i);
    case StartReturned(k, result) => StartExplained(cfg, w, k, result, i);
    case CancelRequest(actor, id) => CancelExplained(cfg, w, actor, id, i);
    case Wake => WakeExplained(cfg, w, i);
    case FireReturned(answer) => FireExplained(cfg, w, answer, i);
  }

  /** Everything in the log of a run is there because of one event of that run, which calls for exactly
      that: timers as asked, submits of what was armed, settlements by the call-off or the answer. */
  lemma EverythingIsExplained(cfg: Config, start: Time, events: seq<Event>, i: nat) returns (j: nat)
    requires i < |After(cfg, start, events).s.effects|
    ensures j < |events|
    ensures Explained(cfg, After(cfg, start, events[..j]), events[j], After(cfg, start, events).s.effects[i])
  {
    j := StepOf(cfg, start, events, i);
    StepExplained(cfg, After(cfg, start, events[..j]), events[j], i);
  }

  // -- what each step of asking and answering must write

  /** An answer, told apart exactly: it settles the head of the pass, audits and publishes that, stores it,
      and goes on to submit the next of the pass. */
  lemma AnswerSettlesHead(cfg: Config, w: World, answer: SubmitResult) returns (r: Schedule)
    requires WorldInv(cfg, w) && w.pass != []
    ensures AsAnswered(answer, r) && r == w.pass[0].Settled(r.status, r.failureCode, r.commandId)
    ensures var w' := Step(cfg, w, FireReturned(answer));
            && w'.pass == w.pass[1..] && Stored(w'.s, r)
            && w'.s.effects == w.s.effects + [Settlement(r, r.owner, w.s.now), Published(false, r.id, r.status)]
                 + if |w.pass| > 1 then [UnattendedSubmit(w.pass[1], w.s.now)] else []
  {
    r := AnswerWrites(w.s, w.pass[0], answer);
  }

  predicate Stored(s: Service, r: Schedule) {
    r.id in s.schedules.entries && s.schedules.entries[r.id] == r
  }

  function UnattendedSubmit(t: Schedule, now: Time): Effect {
    Submitted(Some(t.id), t.owner, t.device, t.action, t.desired, t.correlation, now)
  }

  /** A new timer was born, with this record, and is armed. */
  ghost predicate NewlyArmed(w: World, w': World, t: Schedule) {
    && t.id == w.s.nextId && w'.s.nextId == w.s.nextId + 1
    && Births(w'.s.effects, t.id) == [t] && Armed(w'.s.schedules, t.id) && Stored(w'.s, t)
  }

  lemma ArmIsNewlyArmed(cfg: Config, w: World, w': World, q: Request, halves: int, command: Option<CommandId>)
    requires WorldInv(cfg, w) && WorldInv(cfg, w') && Admissible(cfg, q, halves)
    requires w'.s == Arm(w.s, q, halves, command)
    ensures NewlyArmed(w, w', NewTimer(w.s, q, halves, command))
  {
    var t := NewTimer(w.s, q, halves, command);
    var log := w'.s.effects[..|w'.s.effects| - 2];
    NoneLeft(w.s, q);
    assert w'.s.effects == log + [Created(t, w.s.now), Published(true, t.id, ARMED)];
    LogTwo(log, Created(t, w.s.now), Published(true, t.id, ARMED), t.id);
    var cleared := Supersede(w.s, ForDevice(w.s.schedules, q.device), q.action);
    SupersedeKeepsValid(w.s, ForDevice(w.s.schedules, q.device), q.action);
    EvictExactly(cleared.schedules.Put(t.id, t));
    assert Armed(cleared.schedules.Put(t.id, t), t.id);
    assert TimerOk(cfg, w'.s, w'.pass, true, t.id);
  }

  /** The attended switch-on was submitted, and the request waits for it. */
  ghost predicate SwitchingOn(cfg: Config, w: World, w': World, q: Request) {
    && (exists n: int :: Admissible(cfg, q, n) && w'.creating == w.creating + [Pending(q, n)])
    && NoTimerTouched(w, w')
    && w'.s.effects == w.s.effects + [Submitted(None, q.owner, q.device, q.action, true, q.correlation, w.s.now)]
  }

  ghost predicate NoTimerTouched(w: World, w': World) {
    w'.s.schedules == w.s.schedules && w'.s.nextId == w.s.nextId
  }

  /** Asking: a permitted delayed start is armed at once, a permitted RUN_FOR is switched on and waits, and
      anything else changes no timer. */
  lemma AskingExactly(cfg: Config, w: World, q: Request) returns (t: Schedule)
    requires WorldInv(cfg, w)
    ensures var w' := Step(cfg, w, Create(q));
            && w'.pass == w.pass
            && (if !Permitted(cfg, q) then NoTimerTouched(w, w') && w'.creating == w.creating
                else if q.kind == RUN_FOR then SwitchingOn(cfg, w, w', q)
                else NewlyArmed(w, w', t) && AsAsked(cfg, q, w.s.now, t) && t.commandId == None
                     && w'.creating == w.creating)
  {
    StepKeeps(cfg, w, Create(q));
    OpenGates(cfg, w.s, q);
    var (s, opening) := Open(cfg, w.s, q);
    t := NewTimer(w.s, q, if opening.ArmNow? then opening.halves else 0, None);
    if opening.ArmNow? {
      ArmIsNewlyArmed(cfg, w, Step(cfg, w, Create(q)), q, opening.halves, None);
      NewTimerAsAsked(cfg, w.s, q, opening.halves, None);
    }
  }

  /** The answer to an attended switch-on: if it took, or may have taken, the timer that was asked for is
      armed with that command's id; otherwise nothing happens. Either way the request no longer waits. */
  lemma StartingExactly(cfg: Config, w: World, k: nat, answer: SubmitResult) returns (t: Schedule)
    requires WorldInv(cfg, w) && k < |w.creating|
    ensures var w' := Step(cfg, w, StartReturned(k, answer));
            && w'.creating == w.creating[..k] + w.creating[k + 1..] && w'.pass == w.pass
            && (if Switched(answer) then
                  && NewlyArmed(w, w', t) && AsAsked(cfg, w.creating[k].q, w.s.now, t)
                  && t.commandId == Some(answer.command)
                else w'.s == w.s)
  {
    StepKeeps(cfg, w, StartReturned(k, answer));
    var p, command := w.creating[k], AfterStart(answer).1;
    t := NewTimer(w.s, p.q, p.halves, command);
    if Switched(answer) {
      ArmIsNewlyArmed(cfg, w, Step(cfg, w, StartReturned(k, answer)), p.q, p.halves, command);
      NewTimerAsAsked(cfg, w.s, p.q, p.halves, command);
    }
  }

  // -- over whole runs: every timer has a request of its own

  /** Timer `t` was asked for by event `k` and armed by event `j` of the run. */
  ghost predicate BornFrom(cfg: Config, start: Time, events: seq<Event>, t: Schedule, k: nat, j: nat) {
    && k <= j < |events| && events[k].Create?
    && var q := events[k].q;
       && Permitted(cfg, q) && AsAsked(cfg, q, After(cfg, start, events[..j]).s.now, t)
       && (q.kind == DELAYED_START ==> j == k && t.commandId == None)
       && (q.kind == RUN_FOR ==>
             events[j].StartReturned? && Switched(events[j].result) && t.commandId == Some(events[j].result.command))
  }

  /** The requests behind the timers (`of`) and behind the RUN_FOR creates still waiting (`waits`): all
      different. */
  ghost predicate Sourced(cfg: Config, start: Time, events: seq<Event>, of: map<Id, nat>, waits: seq<nat>) {
    && TimersSourced(cfg, start, events, of)
    && WaitingFor(cfg, events, After(cfg, start, events).creating, waits)
    && Apart(of, waits)
  }

  ghost predicate TimersSourced(cfg: Config, start: Time, events: seq<Event>, of: map<Id, nat>) {
    var s := After(cfg, start, events).s;
    && (forall id: Id :: id in of <==> id < s.nextId)
    && (forall id: Id :: id in of ==> SourcedTimer(cfg, start, events, s.effects, id, of[id]))
  }

  ghost predicate WaitingFor(cfg: Config, events: seq<Event>, creating: seq<Pending>, waits: seq<nat>) {
    && |waits| == |creating|
    && forall m :: 0 <= m < |waits| ==>
         && waits[m] < |events| && events[waits[m]] == Create(creating[m].q) && creating[m].q.kind == RUN_FOR
         && Permitted(cfg, creating[m].q)
  }

  ghost predicate SourcedTimer(cfg: Config, start: Time, events: seq<Event>, log: seq<Effect>, id: Id, k: nat) {
    exists t: Schedule, j: nat :: Births(log, id) == [t] && BornFrom(cfg, start, events, t, k, j)
  }

  ghost predicate Apart(of: map<Id, nat>, waits: seq<nat>) {
    && (forall a, b :: a in of && b in of && of[a] == of[b] ==> a == b)
    && (forall m, n :: 0 <= m < n < |waits| ==> waits[m] != waits[n])
    && (forall a, m :: a in of && 0 <= m < |waits| ==> of[a] != waits[m])
  }

  lemma SourcedGrows(cfg: Config, start: Time, events: seq<Event>, e: Event, log: seq<Effect>, log': seq<Effect>,
                     id: Id, k: nat)
    requires SourcedTimer(cfg, start, events, log, id, k) && Births(log', id) == Births(log, id)
    ensures SourcedTimer(cfg, start, events + [e], log', id, k)
  {
    var t: Schedule, j: nat :| Births(log, id) == [t] && BornFrom(cfg, start, events, t, k, j);
    assert (events + [e])[..j] == events[..j];
    assert BornFrom(cfg, start, events + [e], t, k, j);
  }

  lemma {:induction false} BirthsGrow(log: seq<Effect>, log': seq<Effect>, id: Id)
    requires log <= log'
    ensures Births(log, id) <= Births(log', id)
    decreases |log'|
  {
    if |log| < |log'| {
      BirthsGrow(log, log'[..|log'| - 1], id);
    } else {
      assert log == log';
    }
  }

  lemma BornBefore(cfg: Config, w: World, e: Event, id: Id)
    requires WorldInv(cfg, w) && id < w.s.nextId && w.s.nextId <= Step(cfg, w, e).s.nextId
    ensures Births(Step(cfg, w, e).s.effects, id) == Births(w.s.effects, id)
  {
    StepGrows(cfg, w, e);
    StepKeeps(cfg, w, e);
    BirthsGrow(w.s.effects, Step(cfg, w, e).s.effects, id);
    assert TimerOk(cfg, w.s, w.pass, true, id);
    assert TimerOk(cfg, Step(cfg, w, e).s, Step(cfg, w, e).pass, true, id);
  }

  /** Where no timer is born, the timers keep their requests. */
  lemma NoneBorn(cfg: Config, start: Time, events: seq<Event>, e: Event, of: map<Id, nat>)
    requires TimersSourced(cfg, start, events, of)
    requires After(cfg, start, events).s.nextId == After(cfg, start, events + [e]).s.nextId
    ensures TimersSourced(cfg, start, events + [e], of)
  {
    forall id: Id | id in of
      ensures SourcedTimer(cfg, start, events + [e], After(cfg, start, events + [e]).s.effects, id, of[id])
    {
      StillSourced(cfg, start, events, e, of, id);
    }
  }

  lemma StillSourced(cfg: Config, start: Time, events: seq<Event>, e: Event, of: map<Id, nat>, id: Id)
    requires TimersSourced(cfg, start, events, of) && id in of
    requires After(cfg, start, events).s.nextId <= After(cfg, start, events + [e]).s.nextId
    ensures SourcedTimer(cfg, start, events + [e], After(cfg, start, events + [e]).s.effects, id, of[id])
  {
    var w := After(cfg, start, events);
    Reached(cfg, start, events);
    AfterSnoc(cfg, start, events, e);
    BornBefore(cfg, w, e, id);
    SourcedGrows(cfg, start, events, e, w.s.effects, Step(cfg, w, e).s.effects, id, of[id]);
  }

  lemma NewlySourced(cfg: Config, start: Time, events: seq<Event>, e: Event, t: Schedule, k: nat, q: Request)
    requires NewlyArmed(After(cfg, start, events), After(cfg, start, events + [e]), t)
    requires k <= |events| && (events + [e])[k] == Create(q)
    requires Permitted(cfg, q) && AsAsked(cfg, q, After(cfg, start, events).s.now, t)
    requires if q.kind == DELAYED_START then k == |events| && t.commandId == None
             else e.StartReturned? && Switched(e.result) && t.commandId == Some(e.result.command)
    ensures SourcedTimer(cfg, start, events + [e], After(cfg, start, events + [e]).s.effects, t.id, k)
  {
    assert (events + [e])[..|events|] == events;
    assert BornFrom(cfg, start, events + [e], t, k, |events|);
  }

  /** The new timer, from event `k` of the run or from the one just happening. */
  lemma OneBorn(cfg: Config, start: Time, events: seq<Event>, e: Event, of: map<Id, nat>, t: Schedule, k: nat,
                q: Request)
    requires TimersSourced(cfg, start, events, of)
    requires NewlyArmed(After(cfg, start, events), After(cfg, start, events + [e]), t)
    requires k <= |events| && (events + [e])[k] == Create(q)
    requires Permitted(cfg, q) && AsAsked(cfg, q, After(cfg, start, events).s.now, t)
    requires if q.kind == DELAYED_START then k == |events| && t.commandId == None
             else e.StartReturned? && Switched(e.result) && t.commandId == Some(e.result.command)
    ensures TimersSourced(cfg, start, events + [e], of[t.id := k])
  {
    NewlySourced(cfg, start, events, e, t, k, q);
    forall id: Id | id in of
      ensures SourcedTimer(cfg, start, events + [e], After(cfg, start, events + [e]).s.effects, id, of[id])
    {
      StillSourced(cfg, start, events, e, of, id);
    }
  }

  lemma StopsWaiting(cfg: Config, events: seq<Event>, e: Event, creating: seq<Pending>, of: map<Id, nat>,
                     waits: seq<nat>, k: nat, id: Id)
    requires WaitingFor(cfg, events, creating, waits) && Apart(of, waits) && k < |waits| && id !in of
    ensures var waits' := waits[..k] + waits[k + 1..];
            && WaitingFor(cfg, events + [e], creating[..k] + creating[k + 1..], waits')
            && Apart(of, waits') && Apart(of[id := waits[k]], waits')
  {
    var waits' := waits[..k] + waits[k + 1..];
    assert forall m :: 0 <= m < |waits'| ==> waits'[m] == waits[if m < k then m else m + 1];
  }

  /** A request made just now is nobody else's. */
  lemma NewRequest(cfg: Config, start: Time, events: seq<Event>, of: map<Id, nat>, waits: seq<nat>, id: Id)
    requires Sourced(cfg, start, events, of, waits) && id !in of
    ensures Apart(of, waits + [|events|]) && Apart(of[id := |events|], waits)
  {
    var log := After(cfg, start, events).s.effects;
    forall a | a in of ensures of[a] < |events| {
      assert SourcedTimer(cfg, start, events, log, a, of[a]);
    }
  }

  lemma StillWaiting(cfg: Config, events: seq<Event>, e: Event, creating: seq<Pending>, waits: seq<nat>)
    requires WaitingFor(cfg, events, creating, waits)
    ensures WaitingFor(cfg, events + [e], creating, waits)
    ensures forall q: Request, n: int :: e == Create(q) && Permitted(cfg, q) && q.kind == RUN_FOR ==>
              WaitingFor(cfg, events + [e], creating + [Pending(q, n)], waits + [|events|])
  {
  }

  lemma SourcedCreate(cfg: Config, start: Time, events: seq<Event>, q: Request, of: map<Id, nat>, waits: seq<nat>)
    returns (of': map<Id, nat>, waits': seq<nat>)
    requires Sourced(cfg, start, events, of, waits)
    ensures Sourced(cfg, start, events + [Create(q)], of', waits')
  {
    var w, e := After(cfg, start, events), Create(q);
    Reached(cfg, start, events);
    AfterSnoc(cfg, start, events, e);
    var t := AskingExactly(cfg, w, q);
    NewRequest(cfg, start, events, of, waits, w.s.nextId);
    StillWaiting(cfg, events, e, w.creating, waits);
    if Permitted(cfg, q) && q.kind == DELAYED_START {
      OneBorn(cfg, start, events, e, of, t, |events|, q);
      of', waits' := of[t.id := |events|], waits;
    } else {
      NoneBorn(cfg, start, events, e, of);
      of', waits' := of, if Permitted(cfg, q) then waits + [|events|] else waits;
    }
  }

  lemma SourcedStart(cfg: Config, start: Time, events: seq<Event>, k: nat, answer: SubmitResult,
                     of: map<Id, nat>, waits: seq<nat>) returns (of': map<Id, nat>, waits': seq<nat>)
    requires Sourced(cfg, start, events, of, waits) && k < |waits|
    ensures Sourced(cfg, start, events + [StartReturned(k, answer)], of', waits')
  {
    var w, e := After(cfg, start, events), StartReturned(k, answer);
    Reached(cfg, start, events);
    AfterSnoc(cfg, start, events, e);
    var t := StartingExactly(cfg, w, k, answer);
    StopsWaiting(cfg, events, e, w.creating, of, waits, k, w.s.nextId);
    of', waits' := of, waits[..k] + waits[k + 1..];
    if Switched(answer) {
      OneBorn(cfg, start, events, e, of, t, waits[k], w.creating[k].q);
      of' := of[t.id := waits[k]];
    } else {
      NoneBorn(cfg, start, events, e, of);
    }
  }

  lemma SourcedElse(cfg: Config, start: Time, events: seq<Event>, e: Event, of: map<Id, nat>, waits: seq<nat>)
    requires Sourced(cfg, start, events, of, waits)
    requires !e.Create? && (e.StartReturned? ==> e.k >= |waits|)
    ensures Sourced(cfg, start, events + [e], of, waits)
  {
    Reached(cfg, start, events);
    AfterSnoc(cfg, start, events, e);
    NoneBorn(cfg, start, events, e, of);
  }

  /** In every run each timer has a create request of its own: no two timers have the same one, and the timer
      has exactly that request's function, owner, kind and delay, armed when it was asked for or, for a
      RUN_FOR, when its switch-on took. */
  lemma {:induction false} EveryTimerWasAskedFor(cfg: Config, start: Time, events: seq<Event>)
    returns (of: map<Id, nat>, waits: seq<nat>)
    ensures Sourced(cfg, start, events, of, waits)
    decreases |events|
  {
    if events == [] {
      of, waits := map[], [];
    } else {
      var before, e := events[..|events| - 1], events[|events| - 1];
      assert events == before + [e];
      of, waits := EveryTimerWasAskedFor(cfg, start, before);
      if e.Create? {
        of, waits := SourcedCreate(cfg, start, before, e.q, of, waits);
      } else if e.StartReturned? && e.k < |waits| {
        of, waits := SourcedStart(cfg, start, before, e.k, e.result, of, waits);
      } else {
        SourcedElse(cfg, start, before, e, of, waits);
      }
    }
  }

  /** What reaches the command pipeline unattended is what somebody asked for: the firing of a timer carries
      the owner, device, action and direction of that timer's own request, and comes at least the requested
      number of half hours after the moment it was armed. */
  ghost predicate FiresAsAsked(cfg: Config, start: Time, events: seq<Event>, f: Effect, k: nat) {
    && f.Submitted? && k < |events| && events[k].Create?
    && var q := events[k].q;
       && f.owner == q.owner && f.device == q.device && f.action == q.action && f.correlation == q.correlation
       && f.on == (q.kind == DELAYED_START)
       && exists n: int, j: nat :: IsHalves(q.hours, cfg.maxHours, n) && HoursAfter(cfg, start, events, f.at, k, j, n)
  }

  /** `at` is at least `n` half hours after the moment of event `j`, which is not before event `k`. */
  ghost predicate HoursAfter(cfg: Config, start: Time, events: seq<Event>, at: Time, k: nat, j: nat, n: int) {
    k <= j < |events| && at >= After(cfg, start, events[..j]).s.now + n as real * 0.5
  }

  lemma FiredAsAsked(cfg: Config, start: Time, events: seq<Event>, id: Id) returns (k: nat)
    requires Firings(After(cfg, start, events).s.effects, id) != []
    ensures FiresAsAsked(cfg, start, events, Firings(After(cfg, start, events).s.effects, id)[0], k)
  {
    var log := After(cfg, start, events).s.effects;
    var of, waits := EveryTimerWasAskedFor(cfg, start, events);
    FiresAtMostOnce(cfg, start, events, id);
    Reached(cfg, start, events);
    assert TimerOk(cfg, After(cfg, start, events).s, After(cfg, start, events).pass, true, id);
    k := of[id];
    var t: Schedule, j: nat :| Births(log, id) == [t] && BornFrom(cfg, start, events, t, k, j);
    var n: int :| IsHalves(events[k].q.hours, cfg.maxHours, n) && DelayIs(t, n);
    assert HoursAfter(cfg, start, events, Firings(log, id)[0].at, k, j, n);
  }

  // -- every change is published, and nothing else is

  /** What goes out on the event bus for an entry of the audit log. */
  function Notice(x: Effect): Option<Effect> {
    match x
    case Created(t, _) => Some(Published(true, t.id, ARMED))
    case Settlement(r, _, _) => Some(Published(false, r.id, r.status))
    case _ => None
  }

  ghost predicate Announced(log: seq<Effect>) {
    && (forall i :: 0 <= i < |log| && Notice(log[i]).Some? ==>
          i + 1 < |log| && log[i + 1] == Notice(log[i]).value)
    && (forall i :: 0 <= i < |log| && log[i].Published? ==> i > 0 && Notice(log[i - 1]) == Some(log[i]))
  }

  lemma AnnouncePair(log: seq<Effect>, x: Effect)
    requires Announced(log) && Notice(x).Some?
    ensures Announced(log + [x, Notice(x).value])
  {
  }

  lemma AnnounceNothing(log: seq<Effect>, x: Effect)
    requires Announced(log) && Notice(x).None? && !x.Published?
    ensures Announced(log + [x])
  {
  }

  lemma {:induction false} SupersedeAnnounced(s: Service, existing: seq<Schedule>, action: Action)
    requires Announced(s.effects)
    ensures Announced(Supersede(s, existing, action).effects)
    decreases |existing|
  {
    if existing != [] {
      AnnouncePair(s.effects, Settlement(existing[0].Settled(SUPERSEDED, None, None), existing[0].owner, s.now));
      SupersedeAnnounced(SupersedeHead(s, existing, action), existing[1..], action);
    }
  }

  lemma ArmAnnounced(s: Service, q: Request, halves: int, command: Option<CommandId>)
    requires s.schedules.Valid() && Announced(s.effects)
    ensures Announced(Arm(s, q, halves, command).effects)
  {
    var existing := ForDevice(s.schedules, q.device);
    SupersedeAnnounced(s, existing, q.action);
    AnnouncePair(Supersede(s, existing, q.action).effects, Created(NewTimer(s, q, halves, command), s.now));
  }

  lemma HeadAnnounced(w: World)
    requires Announced(w.s.effects)
    ensures Announced(StartHead(w).s.effects)
  {
    if w.pass != [] { AnnounceNothing(w.s.effects, UnattendedSubmit(w.pass[0], w.s.now)); }
  }

  lemma StepAnnounced(cfg: Config, w: World, e: Event)
    requires WorldInv(cfg, w) && Announced(w.s.effects)
    ensures Announced(Step(cfg, w, e).s.effects)
  {
    match e
    case Advance(_) =>
    case Create(q) =>
      OpenGates(cfg, w.s, q);
      var (s, opening) := Open(cfg, w.s, q);
      if s != w.s { AnnounceNothing(w.s.effects, s.effects[|w.s.effects|]); }
      if opening.ArmNow? { ArmAnnounced(w.s, q, opening.halves, None); }
    case StartReturned(k, answer) =>
      if k < |w.creating| { ArmAnnounced(w.s, w.creating[k].q, w.creating[k].halves, AfterStart(answer).1); }
    case CancelRequest(actor, id) =>
      if Armed(w.s.schedules, id) {
        AnnouncePair(w.s.effects, Settlement(w.s.schedules.entries[id].Settled(CANCELLED, None, None), actor, w.s.now));
      }
    case Wake => HeadAnnounced(w.(pass := if w.pass == [] then Due(w.s) else w.pass));
    case FireReturned(answer) =>
      if w.pass != [] {
        var r := AnswerWrites(w.s, w.pass[0], answer);
        AnnouncePair(w.s.effects, Settlement(r, w.pass[0].owner, w.s.now));
        HeadAnnounced(w.(s := FireEnd(w.s, w.pass[0], answer), pass := w.pass[1..]));
      }
  }

  /** In every run the live clients are told of each new and each settled timer right after it is audited, with
      the very status that was recorded, and of nothing else. */
  lemma {:induction false} EveryChangeIsPublished(cfg: Config, start: Time, events: seq<Event>)
    ensures Announced(After(cfg, start, events).s.effects)
    decreases |events|
  {
    if events != [] {
      var before, e := events[..|events| - 1], events[|events| - 1];
      assert events == before + [e];
      EveryChangeIsPublished(cfg, start, before);
      Reached(cfg, start, before);
      AfterSnoc(cfg, start, before, e);
      StepAnnounced(cfg, After(cfg, start, before), e);
    }
  }

  /** Which error a refused request gets: the first thing wrong with it, in the order device, action, delay,
      capability; a RUN_FOR whose switch-on did not take tells an outcome from a refusal. */
  lemma RefusedExactly(cfg: Config, s: Service, q: Request, answer: SubmitResult)
    ensures var known, timed := q.device in cfg.capabilities, q.action in TIMED_ACTIONS;
            var apt := exists n: int :: IsHalves(q.hours, cfg.maxHours, n);
            var opening := Open(cfg, s, q).1;
            && (opening.Fail? <==> !Permitted(cfg, q))
            && (opening == Fail(DEVICE_NOT_FOUND) <==> !known)
            && (opening == Fail(OUT_OF_RANGE) <==> known && timed && !apt)
            && (opening == Fail(CAPABILITY_NOT_SUPPORTED) <==> known && (timed ==> apt) && !Permitted(cfg, q))
    ensures var error := AfterStart(answer).0;
            && (error == None <==> Switched(answer))
            && (error == Some(DEVICE_UNAVAILABLE) <==> answer.Returned? && !Switched(answer))
            && (error == Some(SUBMIT_REFUSED) <==> !answer.Returned?)
  {
    HoursAccepted(q.hours, cfg.maxHours);
    OpenGates(cfg, s, q);
  }
}
