/** What one-shot timers guarantee over every run. */
module TimerSafety {
  import opened Basics
  import opened OrderedDicts
  import opened Policy
  import opened Schedules
  import opened TimerStore
  import opened ScheduleRuns

  /** The world after a run from the empty service. */
  function After(cfg: Config, start: Time, events: seq<Event>): World {
    Exec(cfg, Initial(start), events)
  }

  lemma Reached(cfg: Config, start: Time, events: seq<Event>)
    ensures WorldInv(cfg, After(cfg, start, events))
  {
    InitialInv(cfg, start);
    ExecKeeps(cfg, Initial(start), events);
  }

  /** In every interleaving a timer causes at most one firing, of exactly what was armed, never before
      its due time; and that time is its creation plus a permitted number of half hours. */
  lemma FiresAtMostOnce(cfg: Config, start: Time, events: seq<Event>, id: Id)
    ensures var log := After(cfg, start, events).s.effects;
            && |Firings(log, id)| <= 1
            && |Births(log, id)| <= 1
            && (Births(log, id) != [] ==> Births(log, id)[0].id == id && WellMade(cfg, Births(log, id)[0]))
            && (Firings(log, id) != [] ==> Births(log, id) != [] && FiredAs(Firings(log, id)[0], Births(log, id)[0]))
  {
    Reached(cfg, start, events);
    var w := After(cfg, start, events);
    assert TimerOk(cfg, w.s, w.pass, true, id);
  }

  /** Whatever is asked, the service submits only heater and filter switches on devices that
      were released for them. */
  lemma OnlyTimedActions(cfg: Config, start: Time, events: seq<Event>)
    ensures OnlyTimed(cfg, After(cfg, start, events).s.effects)
  {
    Reached(cfg, start, events);
  }

  /** At most one armed timer per device and action, even with overlapping RUN_FOR creates. */
  lemma OneArmedPerFunction(cfg: Config, start: Time, events: seq<Event>)
    ensures OneArmed(After(cfg, start, events).s.schedules)
  {
    Reached(cfg, start, events);
  }

  /** A timer is never forgotten while it owes an action: created and not yet settled means stored,
      armed, with the record it was created with. */
  lemma ArmedIsKept(cfg: Config, start: Time, events: seq<Event>, id: Id)
    ensures var s := After(cfg, start, events).s;
            Births(s.effects, id) != [] && Settlements(s.effects, id) == [] ==>
              Armed(s.schedules, id) && [s.schedules.entries[id]] == Births(s.effects, id)
  {
    Reached(cfg, start, events);
    var w := After(cfg, start, events);
    assert TimerOk(cfg, w.s, w.pass, true, id);
  }

  // -- the bound on stored timers

  function Functions(devices: set<Device>): set<(Device, Action)> {
    set d, a | d in devices && a in TIMED_ACTIONS :: (d, a)
  }

  lemma FunctionsCard(devices: set<Device>)
    ensures |Functions(devices)| <= 2 * |devices|
  {
    if devices == {} {
      assert Functions(devices) == {};
    } else {
      var d :| d in devices;
      FunctionsCard(devices - {d});
      var pair := {(d, SET_HEATER), (d, SET_FILTER)};
      assert Functions(devices) == Functions(devices - {d}) + pair;
    }
  }

  /** Different keys, different values: no more keys than values. */
  lemma {:induction false} Pigeonhole(order: seq<Id>, f: map<Id, (Device, Action)>, holes: set<(Device, Action)>)
    requires NoDup(order)
    requires forall i :: 0 <= i < |order| ==> order[i] in f && f[order[i]] in holes
    requires forall i, j :: 0 <= i < j < |order| ==> f[order[i]] != f[order[j]]
    ensures |order| <= |holes|
  {
    if order != [] {
      var hole := f[order[0]];
      forall i | 0 <= i < |order[1..]| ensures f[order[1..][i]] in holes - {hole} {
        assert order[1..][i] == order[i + 1];
      }
      Pigeonhole(order[1..], f, holes - {hole});
    }
  }

  /** Distinct armed timers are no more than the functions that can be timed. */
  lemma ArmedCount(cfg: Config, s: Service, pass: seq<Schedule>, ids: seq<Id>)
    requires Inv(cfg, s, pass, true) && NoDup(ids)
    requires forall i :: 0 <= i < |ids| ==> Armed(s.schedules, ids[i])
    ensures |ids| <= 2 * |cfg.capabilities|
  {
    var entries := s.schedules.entries;
    var f := map id | id in entries :: (entries[id].device, entries[id].action);
    var holes := Functions(cfg.capabilities.Keys);
    forall i | 0 <= i < |ids| ensures ids[i] in f && f[ids[i]] in holes {
      assert TimerOk(cfg, s, pass, true, ids[i]);
    }
    forall i, j | 0 <= i < j < |ids| ensures f[ids[i]] != f[ids[j]] {
      if f[ids[i]] == f[ids[j]] {
        assert Armed(s.schedules, ids[i]) && Armed(s.schedules, ids[j]);
        assert SameFunction(entries[ids[i]], entries[ids[j]]);
      }
    }
    Pigeonhole(ids, f, holes);
    FunctionsCard(cfg.capabilities.Keys);
  }

  lemma ArmedBound(cfg: Config, s: Service, pass: seq<Schedule>)
    requires Inv(cfg, s, pass, true)
    requires forall id :: id in s.schedules.entries ==> s.schedules.entries[id].status == ARMED
    ensures |s.schedules.order| <= 2 * |cfg.capabilities|
  {
    assert forall id :: id in s.schedules.order ==> id in Elems(s.schedules.order);
    ArmedCount(cfg, s, pass, s.schedules.order);
  }

  /** What an arming leaves at most: the tracking limit or, in a large house, two timers for each device. */
  function Room(cfg: Config): nat { Max(MAX_TRACKED, 2 * |cfg.capabilities|) }

  /** Whatever is stored before it, an arming leaves no more timers than that: two hundred with up to a
      hundred devices. */
  lemma StoreIsBounded(cfg: Config, w: World, q: Request, halves: int, command: Option<CommandId>)
    requires WorldInv(cfg, w) && Admissible(cfg, q, halves)
    ensures |Arm(w.s, q, halves, command).schedules.order| <= Room(cfg)
  {
    ArmStep(cfg, w.s, w.pass, q, halves, command);
    var s' := Arm(w.s, q, halves, command);
    var cleared := Supersede(w.s, ForDevice(w.s.schedules, q.device), q.action);
    SupersedeKeepsValid(w.s, ForDevice(w.s.schedules, q.device), q.action);
    EvictExactly(cleared.schedules.Put(w.s.nextId, NewTimer(w.s, q, halves, command)));
    if |s'.schedules.order| > MAX_TRACKED {
      ArmedBound(cfg, s', w.pass);
    }
  }

  // -- settling

  /** Settled (or never created to be settled again) and not in the loop's hands. */
  ghost predicate AtRest(w: World, id: Id) {
    id < w.s.nextId && !Armed(w.s.schedules, id) && !InPass(w.pass, id)
  }

  /** From `w` to `w'` the timer was not submitted, not settled again, and its record, while it is
      still stored, is the same. */
  ghost predicate Undisturbed(w: World, w': World, id: Id) {
    && Firings(w'.s.effects, id) == Firings(w.s.effects, id)
    && Settlements(w'.s.effects, id) == Settlements(w.s.effects, id)
    && (id in w'.s.schedules.entries ==>
          id in w.s.schedules.entries && w'.s.schedules.entries[id] == w.s.schedules.entries[id])
  }

  lemma {:induction false} SupersedeUndisturbed(s: Service, existing: seq<Schedule>, action: Action, id: Id)
    requires forall t :: t in existing ==> t.id != id
    ensures var s' := Supersede(s, existing, action);
            && Firings(s'.effects, id) == Firings(s.effects, id)
            && Settlements(s'.effects, id) == Settlements(s.effects, id)
            && (id in s'.schedules.entries <==> id in s.schedules.entries)
            && (id in s.schedules.entries ==> s'.schedules.entries[id] == s.schedules.entries[id])
    decreases |existing|
  {
    if existing != [] {
      SettleLog(s, existing[0], SUPERSEDED, None, id);
      SupersedeUndisturbed(SupersedeHead(s, existing, action), existing[1..], action, id);
    }
  }

  lemma ArmUndisturbed(cfg: Config, s: Service, pass: seq<Schedule>, q: Request, halves: int,
                       command: Option<CommandId>, id: Id)
    requires Inv(cfg, s, pass, true) && id < s.nextId && !Armed(s.schedules, id)
    ensures var s' := Arm(s, q, halves, command);
            && Firings(s'.effects, id) == Firings(s.effects, id)
            && Settlements(s'.effects, id) == Settlements(s.effects, id)
            && s'.nextId == s.nextId + 1
            && (id in s'.schedules.entries ==>
                  id in s.schedules.entries && s'.schedules.entries[id] == s.schedules.entries[id])
  {
    var existing := ForDevice(s.schedules, q.device);
    ForDeviceExactly(s.schedules, q.device);
    SupersedeUndisturbed(s, existing, q.action, id);
    SupersedeKeepsValid(s, existing, q.action);
    var cleared := Supersede(s, existing, q.action);
    var t := NewTimer(s, q, halves, command);
    EvictExactly(cleared.schedules.Put(t.id, t));
    LogTwo(cleared.effects, Created(t, s.now), Published(true, t.id, ARMED), id);
  }

  lemma RestStep(cfg: Config, w: World, e: Event, id: Id)
    requires WorldInv(cfg, w) && AtRest(w, id)
    ensures AtRest(Step(cfg, w, e), id) && Undisturbed(w, Step(cfg, w, e), id)
  {
    match e
    case Advance(_) =>
    case Create(q) =>
      OpenGates(cfg, w.s, q);
      var (s, opening) := Open(cfg, w.s, q);
      if s != w.s { LogOne(w.s.effects, s.effects[|w.s.effects|], id); }
      if opening.ArmNow? { ArmUndisturbed(cfg, w.s, w.pass, q, opening.halves, None, id); }
    case StartReturned(k, result) =>
      if k < |w.creating| {
        var p := w.creating[k];
        ArmUndisturbed(cfg, w.s, w.pass, p.q, p.halves, AfterStart(result).1, id);
      }
    case CancelRequest(actor, other) => RestCancel(cfg, w, actor, other, id);
    case Wake => RestWake(cfg, w, id);
    case FireReturned(result) => RestFire(cfg, w, result, id);
  }

  lemma RestCancel(cfg: Config, w: World, actor: Principal, other: Id, id: Id)
    requires WorldInv(cfg, w) && AtRest(w, id)
    ensures AtRest(Step(cfg, w, CancelRequest(actor, other)), id)
    ensures Undisturbed(w, Step(cfg, w, CancelRequest(actor, other)), id)
  {
    if Armed(w.s.schedules, other) {
      SettleLog(w.s, w.s.schedules.entries[other], CANCELLED, Some(actor), id);
    }
  }

  lemma RestWake(cfg: Config, w: World, id: Id)
    requires WorldInv(cfg, w) && AtRest(w, id)
    ensures AtRest(Step(cfg, w, Wake), id) && Undisturbed(w, Step(cfg, w, Wake), id)
  {
    if w.pass == [] {
      DueListExactly(w.s);
      var pass := Due(w.s);
      assert forall i :: 0 <= i < |pass| ==> pass[i] in pass;
      RestHead(w.(pass := pass), id);
    }
  }

  lemma RestHead(w: World, id: Id)
    requires AtRest(w, id)
    ensures AtRest(StartHead(w), id) && Undisturbed(w, StartHead(w), id)
  {
    if w.pass != [] {
      LogOne(w.s.effects, StartHead(w).s.effects[|w.s.effects|], id);
      assert InPass(w.pass, w.pass[0].id);
    }
  }

  /** The head's answer settles the head, and no other timer. */
  lemma RestAnswer(cfg: Config, w: World, result: SubmitResult, id: Id)
    requires WorldInv(cfg, w) && AtRest(w, id) && w.pass != []
    ensures var w' := w.(s := FireEnd(w.s, w.pass[0], result), pass := w.pass[1..]);
            AtRest(w', id) && Undisturbed(w, w', id)
  {
    assert InPass(w.pass, w.pass[0].id);
    var _ := FireEndLog(w.s, w.pass[0], result, id);
    PassTail(w.pass, id);
  }

  lemma RestFire(cfg: Config, w: World, result: SubmitResult, id: Id)
    requires WorldInv(cfg, w) && AtRest(w, id)
    ensures AtRest(Step(cfg, w, FireReturned(result)), id)
    ensures Undisturbed(w, Step(cfg, w, FireReturned(result)), id)
  {
    if w.pass != [] {
      RestAnswer(cfg, w, result, id);
      RestHead(w.(s := FireEnd(w.s, w.pass[0], result), pass := w.pass[1..]), id);
    }
  }

  /** A timer cancelled or superseded while outside the loop's pass is over for good: in every
      continuation it is never submitted, never settled again, never armed again, and its record
      stays as it is until it is forgotten. */
  lemma {:induction false} SettledStaysSettled(cfg: Config, w: World, events: seq<Event>, id: Id)
    requires WorldInv(cfg, w) && AtRest(w, id)
    ensures AtRest(Exec(cfg, w, events), id) && Undisturbed(w, Exec(cfg, w, events), id)
    decreases |events|
  {
    if events != [] {
      RestStep(cfg, w, events[0], id);
      StepKeeps(cfg, w, events[0]);
      SettledStaysSettled(cfg, Step(cfg, w, events[0]), events[1..], id);
    }
  }

  /** In the pass or not: once not armed, never armed again. */
  lemma {:induction false} NeverRearmed(cfg: Config, w: World, events: seq<Event>, id: Id)
    requires WorldInv(cfg, w) && id < w.s.nextId && !Armed(w.s.schedules, id)
    ensures !Armed(Exec(cfg, w, events).s.schedules, id)
    decreases |events|
  {
    if events != [] {
      StepKeeps(cfg, w, events[0]);
      NotRearmedByStep(cfg, w, events[0], id);
      NeverRearmed(cfg, Step(cfg, w, events[0]), events[1..], id);
    }
  }

  lemma NotRearmedByStep(cfg: Config, w: World, e: Event, id: Id)
    requires WorldInv(cfg, w) && id < w.s.nextId && !Armed(w.s.schedules, id)
    ensures !Armed(Step(cfg, w, e).s.schedules, id) && id < Step(cfg, w, e).s.nextId
  {
    match e
    case Advance(_) =>
    case Create(q) => NotRearmedByCreate(cfg, w, q, id);
    case StartReturned(k, result) =>
      if k < |w.creating| {
        var p := w.creating[k];
        ArmUndisturbed(cfg, w.s, w.pass, p.q, p.halves, AfterStart(result).1, id);
      }
    case CancelRequest(_, _) =>
    case Wake =>
    case FireReturned(result) => NotRearmedByAnswer(cfg, w, result, id);
  }

  lemma NotRearmedByCreate(cfg: Config, w: World, q: Request, id: Id)
    requires WorldInv(cfg, w) && id < w.s.nextId && !Armed(w.s.schedules, id)
    ensures var w' := Step(cfg, w, Create(q)); !Armed(w'.s.schedules, id) && id < w'.s.nextId
  {
    OpenGates(cfg, w.s, q);
    var (s, opening) := Open(cfg, w.s, q);
    if opening.ArmNow? { ArmUndisturbed(cfg, w.s, w.pass, q, opening.halves, None, id); }
  }

  /** What an answer does to the store is settling the head of the pass; going on submits, no more. */
  lemma AnswerStore(cfg: Config, w: World, result: SubmitResult)
    requires w.s.schedules.Valid() && w.pass != []
    ensures var w' := Step(cfg, w, FireReturned(result));
            && w'.pass == w.pass[1..]
            && w'.s.schedules == FireEnd(w.s, w.pass[0], result).schedules && w'.s.nextId == w.s.nextId
  {
  }

  lemma AnsweredNotArmed(s: Service, t: Schedule, result: SubmitResult, id: Id)
    requires !Armed(s.schedules, id)
    ensures !Armed(FireEnd(s, t, result).schedules, id)
  {
    var _ := FireEndLog(s, t, result, id);
  }

  lemma NotRearmedByAnswer(cfg: Config, w: World, result: SubmitResult, id: Id)
    requires w.s.schedules.Valid() && id < w.s.nextId && !Armed(w.s.schedules, id)
    ensures var w' := Step(cfg, w, FireReturned(result)); !Armed(w'.s.schedules, id) && id < w'.s.nextId
  {
    if w.pass != [] {
      AnswerStore(cfg, w, result);
      AnsweredNotArmed(w.s, w.pass[0], result, id);
    }
  }

  /** A timer is settled at most twice; if twice, it was first called off and then its firing, already
      in the loop's pass, overwrote that with the outcome. */
  lemma AtMostTwoSettlements(cfg: Config, start: Time, events: seq<Event>, id: Id)
    ensures var log := After(cfg, start, events).s.effects;
            var st := Settlements(log, id);
            && |st| <= 2
            && (|st| == 1 && Firings(log, id) == [] ==> st[0] == CANCELLED || st[0] == SUPERSEDED)
            && (|st| == 2 ==> (st[0] == CANCELLED || st[0] == SUPERSEDED) && Outcome(st[1]) && Firings(log, id) != [])
  {
    Reached(cfg, start, events);
    var w := After(cfg, start, events);
    assert TimerOk(cfg, w.s, w.pass, true, id);
  }

  // -- "a settled timer never fires again", exactly

  /** Waiting in the loop's snapshot behind the timer being fired. */
  ghost predicate Waiting(w: World, id: Id) {
    w.pass != [] && InPass(w.pass[1..], id)
  }

  /** How many answers of the command pipeline to a firing `events` holds. */
  function AnswersIn(events: seq<Event>): nat {
    if events == [] then 0 else (if events[0].FireReturned? then 1 else 0) + AnswersIn(events[1..])
  }

  /** Answers come off the head of the pass, and nothing else does while it lasts. */
  lemma PassStep(cfg: Config, w: World, e: Event)
    requires WorldInv(cfg, w) && w.pass != []
    ensures Step(cfg, w, e).pass == if e.FireReturned? then w.pass[1..] else w.pass
  {
  }

  /** In every continuation, a timer waiting in the loop's snapshot is submitted by the time the answers for
      those before it are in, whatever else happens meanwhile: called off or not. */
  lemma {:induction false} WaitingIsFired(cfg: Config, w: World, events: seq<Event>, k: nat, id: Id)
    requires WorldInv(cfg, w) && k < |w.pass| && w.pass[k].id == id && AnswersIn(events) >= k
    ensures Firings(Exec(cfg, w, events).s.effects, id) != []
    decreases |events|
  {
    if k == 0 {
      HeadIsFired(cfg, w, id);
      LogGrows(cfg, w, events);
      FiringsGrow(w.s.effects, Exec(cfg, w, events).s.effects, id);
    } else {
      StepKeeps(cfg, w, events[0]);
      PassStep(cfg, w, events[0]);
      WaitingIsFired(cfg, Step(cfg, w, events[0]), events[1..], if events[0].FireReturned? then k - 1 else k, id);
    }
  }

  function Answers(n: nat): (events: seq<Event>)
    ensures AnswersIn(events) == n
  {
    if n == 0 then [] else [FireReturned(Crashed)] + Answers(n - 1)
  }

  lemma HeadIsFired(cfg: Config, w: World, id: Id)
    requires WorldInv(cfg, w) && w.pass != [] && w.pass[0].id == id
    ensures Firings(w.s.effects, id) != []
  {
    assert TimerOk(cfg, w.s, w.pass, true, id);
  }

  lemma WaitingNotYetFired(cfg: Config, w: World, k: nat)
    requires WorldInv(cfg, w) && 0 < k < |w.pass|
    ensures Firings(w.s.effects, w.pass[k].id) == []
  {
    assert TimerOk(cfg, w.s, w.pass, true, w.pass[k].id);
    assert InPass(w.pass, w.pass[k].id);
  }

  /** A timer that is no longer armed will never be submitted (again) if and only if it is not
      waiting in the pass the loop is working through. */
  lemma NeverFiresIff(cfg: Config, w: World, id: Id)
    requires WorldInv(cfg, w) && id < w.s.nextId && !Armed(w.s.schedules, id)
    ensures (forall events :: Firings(Exec(cfg, w, events).s.effects, id) == Firings(w.s.effects, id))
            <==> !Waiting(w, id)
  {
    if Waiting(w, id) {
      var i :| 0 <= i < |w.pass[1..]| && w.pass[1..][i].id == id;
      assert w.pass[i + 1] == w.pass[1..][i];
      WaitingIsFired(cfg, w, Answers(i + 1), i + 1, id);
      WaitingNotYetFired(cfg, w, i + 1);
    } else {
      forall events ensures Firings(Exec(cfg, w, events).s.effects, id) == Firings(w.s.effects, id) {
        NotWaitingNotFired(cfg, w, events, id);
      }
    }
  }

  lemma {:induction false} SupersedeGrows(s: Service, existing: seq<Schedule>, action: Action)
    ensures s.effects <= Supersede(s, existing, action).effects
    decreases |existing|
  {
    if existing != [] { SupersedeGrows(SupersedeHead(s, existing, action), existing[1..], action); }
  }

  lemma ArmGrows(s: Service, q: Request, halves: int, command: Option<CommandId>)
    requires s.schedules.Valid()
    ensures s.effects <= Arm(s, q, halves, command).effects
  {
    SupersedeGrows(s, ForDevice(s.schedules, q.device), q.action);
  }

  lemma OpenGrows(cfg: Config, s: Service, q: Request)
    ensures s.effects <= Open(cfg, s, q).0.effects && Open(cfg, s, q).0.schedules == s.schedules
  {
  }

  lemma StepGrows(cfg: Config, w: World, e: Event)
    requires w.s.schedules.Valid()
    ensures w.s.effects <= Step(cfg, w, e).s.effects
  {
    match e
    case Create(q) =>
      OpenGrows(cfg, w.s, q);
      var (s, opening) := Open(cfg, w.s, q);
      if opening.ArmNow? { ArmGrows(s, q, opening.halves, None); }
    case StartReturned(k, result) =>
      if k < |w.creating| {
        ArmGrows(w.s, w.creating[k].q, w.creating[k].halves, AfterStart(result).1);
      }
    case _ =>
  }

  lemma {:induction false} LogGrows(cfg: Config, w: World, events: seq<Event>)
    requires w.s.schedules.Valid()
    ensures w.s.effects <= Exec(cfg, w, events).s.effects
    decreases |events|
  {
    if events != [] {
      StepGrows(cfg, w, events[0]);
      LogGrows(cfg, Step(cfg, w, events[0]), events[1..]);
    }
  }

  lemma {:induction false} FiringsGrow(log: seq<Effect>, log': seq<Effect>, id: Id)
    requires log <= log'
    ensures Firings(log, id) <= Firings(log', id)
    decreases |log'|
  {
    if |log| < |log'| {
      FiringsGrow(log, log'[..|log'| - 1], id);
    } else {
      assert log == log';
    }
  }

  lemma {:induction false} NotWaitingNotFired(cfg: Config, w: World, events: seq<Event>, id: Id)
    requires WorldInv(cfg, w) && id < w.s.nextId && !Armed(w.s.schedules, id) && !Waiting(w, id)
    ensures Firings(Exec(cfg, w, events).s.effects, id) == Firings(w.s.effects, id)
    decreases |events|
  {
    if !InPass(w.pass, id) {
      SettledStaysSettled(cfg, w, events, id);
    } else {
      ExecKeeps(cfg, w, events);
      var w' := Exec(cfg, w, events);
      var i :| 0 <= i < |w.pass| && w.pass[i].id == id;
      assert forall j :: 0 < j < |w.pass| ==> w.pass[1..][j - 1] == w.pass[j];
      assert i == 0;
      assert TimerOk(cfg, w.s, w.pass, true, id);
      LogGrows(cfg, w, events);
      FiringsGrow(w.s.effects, w'.s.effects, id);
      assert TimerOk(cfg, w'.s, w'.pass, true, id);
    }
  }

  // -- a run in which a cancelled timer fires

  lemma {:induction false} SupersedeNone(s: Service, existing: seq<Schedule>, action: Action)
    requires forall t :: t in existing ==> t.action != action
    ensures Supersede(s, existing, action) == s
    decreases |existing|
  {
    if existing != [] { SupersedeNone(s, existing[1..], action); }
  }

  lemma ArmSimple(s: Service, q: Request, halves: int)
    requires Keyed(s.schedules) && |s.schedules.order| < MAX_TRACKED && s.nextId !in s.schedules.entries
    requires forall id :: Armed(s.schedules, id) ==> s.schedules.entries[id].action != q.action
    ensures var t := NewTimer(s, q, halves, None);
            Arm(s, q, halves, None)
            == s.(schedules := OrderedDict(s.schedules.order + [t.id], s.schedules.entries[t.id := t]),
                  nextId := s.nextId + 1)
                .Log([Created(t, s.now), Published(true, t.id, ARMED)])
  {
    ForDeviceExactly(s.schedules, q.device);
    SupersedeNone(s, ForDevice(s.schedules, q.device), q.action);
  }

  const POOL := Config(map[0 := {HEATING, FILTER}], 24.0)

  function HalfHour(action: Action): Request {
    Request(7, 0, action, DELAYED_START, 0.5, "req")
  }

  function Timer(id: Id, action: Action): Schedule {
    Schedule(id, 0, DELAYED_START, action, true, 7, 0.0, 0.5, "req", ARMED, None, None)
  }

  lemma {:induction false} ExecConcat(cfg: Config, w: World, a: seq<Event>, b: seq<Event>)
    requires w.s.schedules.Valid()
    ensures Exec(cfg, w, a + b) == Exec(cfg, Exec(cfg, w, a), b)
    decreases |a|
  {
    if a == [] {
      assert a + b == b;
    } else {
      assert (a + b)[1..] == a[1..] + b;
      ExecConcat(cfg, Step(cfg, w, a[0]), a[1..], b);
    }
  }

  lemma AfterSnoc(cfg: Config, start: Time, events: seq<Event>, e: Event)
    ensures After(cfg, start, events + [e]) == Step(cfg, After(cfg, start, events), e)
  {
    ExecConcat(cfg, Initial(start), events, [e]);
    var w := After(cfg, start, events);
    assert Exec(cfg, Step(cfg, w, e), []) == Step(cfg, w, e);
    assert [e][1..] == [];
  }

  const HEATER := Timer(0, SET_HEATER)
  const PUMP := Timer(1, SET_FILTER)

  const R1 := [Create(HalfHour(SET_HEATER))]
  const R2 := R1 + [Create(HalfHour(SET_FILTER))]
  const R3 := R2 + [Advance(1.0)]
  /** Both pool timers come due in one pass. */
  const R4 := R3 + [Wake]
  /** The pump's is cancelled while the heater's is being fired. */
  const R5 := R4 + [CancelRequest(7, 1)]

  lemma CreateSimple(w: World, action: Action)
    requires action in TIMED_ACTIONS && w.s.now == 0.0
    requires Keyed(w.s.schedules) && |w.s.schedules.order| < MAX_TRACKED && w.s.nextId !in w.s.schedules.entries
    requires forall id :: Armed(w.s.schedules, id) ==> w.s.schedules.entries[id].action != action
    ensures var w', t := Step(POOL, w, Create(HalfHour(action))), Timer(w.s.nextId, action);
            && w'.s.schedules == OrderedDict(w.s.schedules.order + [t.id], w.s.schedules.entries[t.id := t])
            && w'.s.nextId == w.s.nextId + 1 && w'.s.now == 0.0 && w'.pass == w.pass
  {
    HalvesAreUnique(0.5, 1);
    ArmSimple(w.s, HalfHour(action), 1);
  }

  lemma FirstArmed()
    ensures var w := After(POOL, 0.0, R1);
            && w.s.schedules == OrderedDict([0], map[0 := HEATER])
            && w.s.nextId == 1 && w.s.now == 0.0 && w.pass == []
  {
    AfterSnoc(POOL, 0.0, [], R1[0]);
    assert [] + [R1[0]] == R1;
    CreateSimple(Initial(0.0), SET_HEATER);
  }

  lemma SecondArmed()
    ensures var w := After(POOL, 0.0, R2);
            && w.s.schedules == OrderedDict([0, 1], map[0 := HEATER, 1 := PUMP])
            && w.s.nextId == 2 && w.s.now == 0.0 && w.pass == []
  {
    FirstArmed();
    AfterSnoc(POOL, 0.0, R1, Create(HalfHour(SET_FILTER)));
    CreateSimple(After(POOL, 0.0, R1), SET_FILTER);
  }

  lemma BothDue(s: Service)
    requires s.schedules == OrderedDict([0, 1], map[0 := HEATER, 1 := PUMP]) && s.now == 1.0
    ensures Due(s) == [HEATER, PUMP]
  {
    assert [0, 1][1..] == [1] && [1][1..] == [];
    assert ArmedAmong([1], s.schedules.entries) == [PUMP];
    assert [HEATER, PUMP][1..] == [PUMP] && [PUMP][1..] == [];
    assert DueAmong([PUMP], 1.0) == [PUMP];
  }

  lemma PassStarted()
    ensures After(POOL, 0.0, R4).pass == [HEATER, PUMP] && Armed(After(POOL, 0.0, R4).s.schedules, 1)
    ensures After(POOL, 0.0, R4).s.schedules.entries[1] == PUMP && After(POOL, 0.0, R4).s.nextId == 2
  {
    SecondArmed();
    AfterSnoc(POOL, 0.0, R2, Advance(1.0));
    AfterSnoc(POOL, 0.0, R3, Wake);
    BothDue(After(POOL, 0.0, R3).s);
  }

  /** The informal claim "a settled timer never fires" fails on this run: the pump timer, cancelled
      while the heater timer of the same pass is being fired, is submitted all the same. */
  lemma CancelledTimerFires()
    ensures var before, after := After(POOL, 0.0, R5), After(POOL, 0.0, R5 + Answers(1));
            && Settlements(before.s.effects, 1) == [CANCELLED] && Firings(before.s.effects, 1) == []
            && Firings(after.s.effects, 1) != []
  {
    PassStarted();
    AfterSnoc(POOL, 0.0, R4, CancelRequest(7, 1));
    Reached(POOL, 0.0, R4);
    Reached(POOL, 0.0, R5);
    var w, w' := After(POOL, 0.0, R4), After(POOL, 0.0, R5);
    assert w'.pass[1] == PUMP;
    assert TimerOk(POOL, w.s, w.pass, true, 1);
    SettleLog(w.s, PUMP, CANCELLED, Some(7), 1);
    WaitingNotYetFired(POOL, w', 1);
    WaitingIsFired(POOL, w', Answers(1), 1, 1);
    ExecConcat(POOL, Initial(0.0), R5, Answers(1));
  }
}
