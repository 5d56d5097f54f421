/** Where every command comes from and what decided it: one request, admitted by the gates, and one answer. */
module CommandOrigins {
  import opened Basics
  import opened OrderedDicts
  import opened Policy
  import opened DeviceModel
  import opened Commands
  import opened CommandRuns
  import opened CommandSafety

  /** `c` is about exactly what `q` asks for, on behalf of the same person. */
  predicate Wishes(q: Request, c: Command) {
    c.owner == q.owner && c.device == q.device && c.action == q.action && c.params == q.params
    && c.correlation == q.correlation
  }

  /** A request the gateway may carry out: a known device, well-formed parameters, released for exactly this,
      in the device's own range, no unlock or unlatch, and not offline. */
  predicate Permitted(devices: map<Device, Info>, q: Request) {
    && q.device in devices && Validates(q.action, q.params)
    && RequiredCapability(q.action, q.params) in devices[q.device].capabilities
    && (q.params.TargetTemperature? ==>
          var minC, maxC := devices[q.device].minC, devices[q.device].maxC;
          minC.Some? && maxC.Some? && minC.value <= q.params.celsius && q.params.celsius <= maxC.value)
    && q.action != UNLATCH && q.params != LockTo(UNLOCKED)
    && devices[q.device].availability != OFFLINE
  }

  /** The record `c` was made by event `j` of the run, a permitted request for just that. */
  ghost predicate AskedAt(now: real, devices: map<Device, Info>, events: seq<Event>, c: Command, j: nat) {
    && j < |events| && events[j].Submit?
    && var w, q := After(now, devices, events[..j]), events[j].q;
       && Permitted(w.devices, q) && Wishes(q, c) && c.risk == Classify(q.action, q.params)
       && c.id == w.s.nextId && c.createdAt == w.s.now && c.expiresAt == w.s.now + 120.0
  }

  ghost predicate TimedOutAt(events: seq<Event>, id: Id, b: nat) {
    b < |events| && events[b] == WriteReturned(id, TimedOut)
  }

  /** The call was decided by event `a`: the adapter's answer to it or, after its time-out, the read-back. */
  ghost predicate DecidedAt(now: real, devices: map<Device, Info>, events: seq<Event>, id: Id, path: Path,
                            final: Command, a: nat)
  {
    && a < |events| && final.completedAt == Some(After(now, devices, events[..a]).s.now)
    && match path
       case Direct(w) => events[a] == WriteReturned(id, w) && !w.TimedOut?
       case AfterTimeout(r) => events[a] == ReadReturned(id, r) && exists b: nat :: b < a && TimedOutAt(events, id, b)
  }

  ghost predicate CallSourced(now: real, devices: map<Device, Info>, events: seq<Event>, id: Id, c: Call, j: nat) {
    && AskedAt(now, devices, events, c.first, j) && c.first.id == id
    && c.running.startedAt == Some(c.first.createdAt)
    && (c.phase.Reconciling? ==> exists b: nat :: TimedOutAt(events, id, b))
    && (c.phase.Done? ==> exists a: nat :: DecidedAt(now, devices, events, id, c.phase.path, c.phase.final, a))
  }

  lemma AskedBefore(now: real, devices: map<Device, Info>, events: seq<Event>, e: Event, c: Command, j: nat)
    requires AskedAt(now, devices, events, c, j)
    ensures AskedAt(now, devices, events + [e], c, j)
  {
    assert (events + [e])[..j] == events[..j];
  }

  lemma DecidedBefore(now: real, devices: map<Device, Info>, events: seq<Event>, e: Event, id: Id, path: Path,
                      final: Command, a: nat)
    requires DecidedAt(now, devices, events, id, path, final, a)
    ensures DecidedAt(now, devices, events + [e], id, path, final, a)
  {
    assert (events + [e])[..a] == events[..a];
    if path.AfterTimeout? {
      var b: nat :| b < a && TimedOutAt(events, id, b);
      assert TimedOutAt(events + [e], id, b);
    }
  }

  /** A call that stays as it is keeps its sources. */
  lemma CallBefore(now: real, devices: map<Device, Info>, events: seq<Event>, e: Event, id: Id, c: Call, j: nat)
    requires CallSourced(now, devices, events, id, c, j)
    ensures CallSourced(now, devices, events + [e], id, c, j)
  {
    AskedBefore(now, devices, events, e, c.first, j);
    if c.phase.Reconciling? {
      var b: nat :| TimedOutAt(events, id, b);
      assert TimedOutAt(events + [e], id, b);
    }
    if c.phase.Done? {
      var a: nat :| DecidedAt(now, devices, events, id, c.phase.path, c.phase.final, a);
      DecidedBefore(now, devices, events, e, id, c.phase.path, c.phase.final, a);
    }
  }

  /** What an event may do to a call that is already there. */
  ghost predicate Moves(now: real, id: Id, c: Call, e: Event, c': Call) {
    && c'.first == c.first && c'.running == c.running
    && match c'.phase
       case Waiting => c.phase.Waiting?
       case Executing => c.phase == c'.phase || e == Enter(id)
       case Reconciling => c.phase == c'.phase || e == WriteReturned(id, TimedOut)
       case Done(path, final) =>
         || c.phase == c'.phase
         || (final.completedAt == Some(now)
             && match path
                case Direct(o) => e == WriteReturned(id, o) && !o.TimedOut?
                case AfterTimeout(r) => c.phase.Reconciling? && e == ReadReturned(id, r))
  }

  lemma PermittedIsAdmitted(devices: map<Device, Info>, q: Request)
    ensures Permitted(devices, q) <==> Gate(devices, q).Admit?
    ensures Permitted(devices, q) ==> Gate(devices, q) == Admit(Classify(q.action, q.params))
  {
    AdmittedExactly(devices, q);
  }

  /** A permitted request becomes a call; a refused one does not. */
  lemma AskingExactly(w: World, q: Request)
    requires WorldInv(w)
    ensures var w' := Step(w, Submit(q));
            && w'.devices == w.devices && w'.s.now == w.s.now
            && (!Permitted(w.devices, q) ==> w'.calls == w.calls && w'.s.nextId == w.s.nextId)
            && (Permitted(w.devices, q) ==>
                  && w'.s.nextId == w.s.nextId + 1 && w.s.nextId in w'.calls
                  && w'.calls == w.calls[w.s.nextId := w'.calls[w.s.nextId]]
                  && NewCall(w, q, w'.calls[w.s.nextId]))
  {
    PermittedIsAdmitted(w.devices, q);
    if Permitted(w.devices, q) { PermittedStep(w, q); }
  }

  lemma PermittedStep(w: World, q: Request)
    requires Permitted(w.devices, q)
    ensures var w', c := Step(w, Submit(q)), NewCommand(w.s, q, Classify(q.action, q.params));
            && w'.devices == w.devices && w'.s.now == w.s.now && w'.s.nextId == w.s.nextId + 1
            && w.s.nextId in w'.calls && w'.calls == w.calls[w.s.nextId := w'.calls[w.s.nextId]]
            && NewCall(w, q, w'.calls[w.s.nextId])
  {
    PermittedIsAdmitted(w.devices, q);
    var c := NewCommand(w.s, q, Classify(q.action, q.params));
    OpeningLog(w.s, c);
    var (s, running, lock) := Start(Create(w.s, c), c);
    assert Step(w, Submit(q)).calls == w.calls[c.id := Call(c, running, lock, |w.lookups|, Waiting)];
  }

  /** A call just begun for `q`. */
  ghost predicate NewCall(w: World, q: Request, c: Call)
    requires Validates(q.action, q.params)
  {
    && c.phase == Waiting && Wishes(q, c.first) && c.first.risk == Classify(q.action, q.params)
    && c.first.id == w.s.nextId && c.first.createdAt == w.s.now && c.first.expiresAt == w.s.now + 120.0
    && c.running.startedAt == Some(w.s.now)
  }

  lemma CallStays(now: real, id: Id, c: Call, e: Event)
    ensures Moves(now, id, c, e, c)
  {
  }

  lemma EnterMoves(w: World, other: Id, id: Id)
    requires id in w.calls
    ensures id in StepEnter(w, other).calls
    ensures Moves(w.s.now, id, w.calls[id], Enter(other), StepEnter(w, other).calls[id])
  {
    CallStays(w.s.now, id, w.calls[id], Enter(other));
  }

  lemma AnswerMoves(w: World, other: Id, outcome: WriteOutcome, id: Id)
    requires WorldInv(w) && id in w.calls
    ensures id in StepAnswer(w, other, outcome).calls
    ensures Moves(w.s.now, id, w.calls[id], WriteReturned(other, outcome), StepAnswer(w, other, outcome).calls[id])
  {
    CallStays(w.s.now, id, w.calls[id], WriteReturned(other, outcome));
    assert Traced(w, id);
  }

  lemma ReadMoves(w: World, other: Id, r: ReadOutcome, id: Id)
    requires WorldInv(w) && id in w.calls
    ensures id in StepRead(w, other, r).calls
    ensures Moves(w.s.now, id, w.calls[id], ReadReturned(other, r), StepRead(w, other, r).calls[id])
  {
    CallStays(w.s.now, id, w.calls[id], ReadReturned(other, r));
    assert Traced(w, id);
  }

  lemma SubmitMoves(w: World, q: Request, id: Id)
    requires WorldInv(w) && id in w.calls
    ensures id in Step(w, Submit(q)).calls && Step(w, Submit(q)).calls[id] == w.calls[id]
  {
    AskingExactly(w, q);
  }

  lemma CallMoves(w: World, e: Event, id: Id)
    requires WorldInv(w) && id in w.calls
    ensures id in Step(w, e).calls && Moves(w.s.now, id, w.calls[id], e, Step(w, e).calls[id])
  {
    CallStays(w.s.now, id, w.calls[id], e);
    match e
    case Submit(q) => SubmitMoves(w, q, id);
    case Enter(other) => EnterMoves(w, other, id);
    case WriteReturned(other, outcome) => AnswerMoves(w, other, outcome, id);
    case ReadReturned(other, r) => ReadMoves(w, other, r, id);
    case _ =>
  }

  lemma CallAfter(now: real, devices: map<Device, Info>, events: seq<Event>, e: Event, id: Id, c: Call, c': Call,
                  j: nat)
    requires CallSourced(now, devices, events, id, c, j)
    requires Moves(After(now, devices, events).s.now, id, c, e, c')
    ensures CallSourced(now, devices, events + [e], id, c', j)
  {
    CallBefore(now, devices, events, e, id, c, j);
    var all := events + [e];
    assert all[..|events|] == events && all[|events|] == e;
    match c'.phase {
      case Reconciling =>
        if c.phase != c'.phase { assert TimedOutAt(all, id, |events|); }
      case Done(path, final) =>
        if c.phase != c'.phase {
          if path.AfterTimeout? {
            var b: nat :| TimedOutAt(events, id, b);
            assert TimedOutAt(all, id, b);
          }
          assert DecidedAt(now, devices, all, id, path, final, |events|);
        }
      case _ =>
    }
  }

  // -- over whole runs

  /** The events behind the calls of a run. */
  ghost predicate CallsSourced(now: real, devices: map<Device, Info>, events: seq<Event>, of: map<Id, nat>) {
    AllSourced(now, devices, events, After(now, devices, events).calls, of)
  }

  ghost predicate AllSourced(now: real, devices: map<Device, Info>, events: seq<Event>, calls: map<Id, Call>,
                             of: map<Id, nat>)
  {
    of.Keys == calls.Keys && Kept(now, devices, events, calls, of)
  }

  /** The calls named by `of` are there, each from its own event. */
  ghost predicate Kept(now: real, devices: map<Device, Info>, events: seq<Event>, calls: map<Id, Call>,
                       of: map<Id, nat>)
  {
    forall id: Id :: id in of ==> id in calls && CallSourced(now, devices, events, id, calls[id], of[id])
  }

  /** Event `j`, if it is a submission, is behind a call exactly when it was permitted. */
  ghost predicate Heard(now: real, devices: map<Device, Info>, events: seq<Event>, of: map<Id, nat>, j: nat)
    requires j < |events|
  {
    events[j].Submit? ==>
      (Behind(of, j) <==> Permitted(After(now, devices, events[..j]).devices, events[j].q))
  }

  ghost predicate Behind(of: map<Id, nat>, j: nat) {
    exists id: Id :: id in of && of[id] == j
  }

  ghost predicate Sourced(now: real, devices: map<Device, Info>, events: seq<Event>, of: map<Id, nat>) {
    && CallsSourced(now, devices, events, of)
    && forall j: nat :: j < |events| ==> Heard(now, devices, events, of, j)
  }

  lemma OldCalls(now: real, devices: map<Device, Info>, events: seq<Event>, e: Event, of: map<Id, nat>)
    requires CallsSourced(now, devices, events, of)
    ensures Kept(now, devices, events + [e], After(now, devices, events + [e]).calls, of)
  {
    var w := After(now, devices, events);
    Reached(now, devices, events);
    AfterSnoc(now, devices, events, e);
    forall id: Id | id in of
      ensures id in After(now, devices, events + [e]).calls
      ensures CallSourced(now, devices, events + [e], id, After(now, devices, events + [e]).calls[id], of[id])
    {
      CallMoves(w, e, id);
      CallAfter(now, devices, events, e, id, w.calls[id], Step(w, e).calls[id], of[id]);
    }
  }

  lemma HeardBefore(now: real, devices: map<Device, Info>, events: seq<Event>, e: Event, of: map<Id, nat>, id: Id,
                    j: nat)
    requires j < |events| && Heard(now, devices, events, of, j) && id !in of
    ensures Heard(now, devices, events + [e], of, j) && Heard(now, devices, events + [e], of[id := |events|], j)
  {
    assert (events + [e])[..j] == events[..j] && (events + [e])[j] == events[j];
    BehindAlso(of, id, |events|, j);
  }

  lemma BehindAlso(of: map<Id, nat>, id: Id, n: nat, j: nat)
    requires id !in of && j != n
    ensures Behind(of[id := n], j) <==> Behind(of, j)
  {
    if Behind(of, j) {
      var a: Id :| a in of && of[a] == j;
      assert a in of[id := n] && of[id := n][a] == j;
    }
  }

  lemma CallFromNow(now: real, devices: map<Device, Info>, events: seq<Event>, q: Request, c: Call)
    requires Permitted(After(now, devices, events).devices, q) && NewCall(After(now, devices, events), q, c)
    ensures CallSourced(now, devices, events + [Submit(q)], c.first.id, c, |events|)
  {
    var all, n := events + [Submit(q)], |events|;
    assert all[..n] == events && all[n] == Submit(q);
    assert AskedAt(now, devices, all, c.first, n);
  }

  lemma OneMore(now: real, devices: map<Device, Info>, events: seq<Event>, calls: map<Id, Call>, of: map<Id, nat>,
                id: Id, n: nat)
    requires id !in of && calls.Keys == of.Keys + {id} && CallSourced(now, devices, events, id, calls[id], n)
    requires Kept(now, devices, events, calls, of)
    ensures AllSourced(now, devices, events, calls, of[id := n])
  {
  }

  lemma NewCallMade(now: real, devices: map<Device, Info>, events: seq<Event>, q: Request)
    requires Permitted(After(now, devices, events).devices, q)
    ensures var w, w' := After(now, devices, events), After(now, devices, events + [Submit(q)]);
            && w.s.nextId !in w.calls && w'.calls.Keys == w.calls.Keys + {w.s.nextId}
            && NewCall(w, q, w'.calls[w.s.nextId])
  {
    Reached(now, devices, events);
    AfterSnoc(now, devices, events, Submit(q));
    AskingExactly(After(now, devices, events), q);
  }

  lemma NewCallSourced(now: real, devices: map<Device, Info>, events: seq<Event>, q: Request, of: map<Id, nat>)
    requires CallsSourced(now, devices, events, of) && Permitted(After(now, devices, events).devices, q)
    ensures var id := After(now, devices, events).s.nextId;
            id !in of && CallsSourced(now, devices, events + [Submit(q)], of[id := |events|])
  {
    var id, calls' := After(now, devices, events).s.nextId, After(now, devices, events + [Submit(q)]).calls;
    NewCallMade(now, devices, events, q);
    OldCalls(now, devices, events, Submit(q), of);
    CallFromNow(now, devices, events, q, calls'[id]);
    OneMore(now, devices, events + [Submit(q)], calls', of, id, |events|);
  }

  lemma PermittedSourced(now: real, devices: map<Device, Info>, events: seq<Event>, q: Request, of: map<Id, nat>)
    requires Sourced(now, devices, events, of) && Permitted(After(now, devices, events).devices, q)
    ensures var id := After(now, devices, events).s.nextId;
            id !in of && Sourced(now, devices, events + [Submit(q)], of[id := |events|])
  {
    var e, n, id := Submit(q), |events|, After(now, devices, events).s.nextId;
    NewCallSourced(now, devices, events, q, of);
    var all, of' := events + [e], of[id := n];
    forall j: nat | j < |all| ensures Heard(now, devices, all, of', j) {
      if j < n {
        HeardBefore(now, devices, events, e, of, id, j);
      } else {
        assert all[..n] == events && all[n] == e;
        assert id in of' && of'[id] == n;
      }
    }
  }

  lemma NoNewCalls(now: real, devices: map<Device, Info>, events: seq<Event>, e: Event, of: map<Id, nat>)
    requires CallsSourced(now, devices, events, of)
    requires e.Submit? ==> !Permitted(After(now, devices, events).devices, e.q)
    ensures CallsSourced(now, devices, events + [e], of)
  {
    Reached(now, devices, events);
    AfterSnoc(now, devices, events, e);
    OldCalls(now, devices, events, e, of);
    SameCalls(After(now, devices, events), e);
  }

  lemma OthersSourced(now: real, devices: map<Device, Info>, events: seq<Event>, e: Event, of: map<Id, nat>)
    requires Sourced(now, devices, events, of)
    requires e.Submit? ==> !Permitted(After(now, devices, events).devices, e.q)
    ensures Sourced(now, devices, events + [e], of)
  {
    NoNewCalls(now, devices, events, e, of);
    NotBehind(now, devices, events, of);
    var n, all, id := |events|, events + [e], After(now, devices, events).s.nextId;
    Reached(now, devices, events);
    forall j: nat | j < |all| ensures Heard(now, devices, all, of, j) {
      if j < n {
        HeardBefore(now, devices, events, e, of, id, j);
      } else {
        assert all[..n] == events && all[n] == e;
      }
    }
  }

  lemma NotBehind(now: real, devices: map<Device, Info>, events: seq<Event>, of: map<Id, nat>)
    requires CallsSourced(now, devices, events, of)
    ensures !Behind(of, |events|)
  {
    var w := After(now, devices, events);
    forall id: Id | id in of ensures of[id] < |events| {
      assert CallSourced(now, devices, events, id, w.calls[id], of[id]);
    }
  }

  lemma SameCalls(w: World, e: Event)
    requires WorldInv(w) && (e.Submit? ==> !Permitted(w.devices, e.q))
    ensures Step(w, e).calls.Keys == w.calls.Keys
  {
    if e.Submit? { AskingExactly(w, e.q); }
  }

  /** In every run the commands are the permitted requests, one for one: each command is about exactly what
      its own request asked for, a request that is not permitted leads to none, and what decided a command is
      the answer of its own write or, after that timed out, of its own read-back. */
  lemma {:induction false} EveryCommandWasAskedFor(now: real, devices: map<Device, Info>, events: seq<Event>)
    returns (of: map<Id, nat>)
    ensures Sourced(now, devices, events, of)
    ensures forall a, b :: a in of && b in of && of[a] == of[b] ==> a == b
    decreases |events|
  {
    if events == [] {
      of := map[];
    } else {
      var before, e := events[..|events| - 1], events[|events| - 1];
      assert events == before + [e];
      of := EveryCommandWasAskedFor(now, devices, before);
      var w := After(now, devices, before);
      if e.Submit? && Permitted(w.devices, e.q) {
        PermittedSourced(now, devices, before, e.q, of);
        of := of[w.s.nextId := |before|];
      } else {
        OthersSourced(now, devices, before, e, of);
      }
    }
    assert forall id: Id :: id in of ==>
      id == After(now, devices, events).calls[id].first.id == After(now, devices, events[..of[id]]).s.nextId;
  }

  /** The same wish, in a later record. */
  predicate SameWish(c: Command, first: Command) {
    && c.id == first.id && c.owner == first.owner && c.device == first.device && c.action == first.action
    && c.params == first.params && c.correlation == first.correlation
  }

  lemma ClosingKeepsWish(running: Command, state: Option<DeviceState>, fromWrite: bool, final: Command, e: Effect)
    requires SameWish(final, running) && e in Answer(running, state, fromWrite, final)
    ensures !e.AuditDenied? && SameWish(e.command, running)
  {
    assert e in Ingest(running, state, fromWrite) || e in Closing(final);
  }

  /** Whatever the log holds about a command carries the wish of that command's record. */
  lemma LogKeepsWish(c: Call, id: Id, e: Effect)
    requires CallOk(id, c) && e in Expected(c)
    ensures !e.AuditDenied? && SameWish(e.command, c.first)
  {
    if e in Middle(c) && c.phase.Done? {
      match c.phase.path {
        case Direct(w) =>
          var answer := Answer(c.running, Reported(w), true, c.phase.final);
          assert e in [WriteCalled(c.running)] || e in answer;
          if e in answer { ClosingKeepsWish(c.running, Reported(w), true, c.phase.final, e); }
        case AfterTimeout(r) =>
          var state := if r.Observed? then Some(r.observed) else None;
          var answer := Answer(c.running, state, false, c.phase.final);
          if e in answer { ClosingKeepsWish(c.running, state, false, c.phase.final, e); }
      }
    } else {
      assert e in Opening(c.first, c.running) || e in Middle(c);
    }
  }

  /** Nothing is ever recorded, audited, published, written to a device or read back that nobody asked for:
      whatever the log holds about a command is about what one permitted request of that run asked for, the
      same request for all entries of one command and another for another. */
  lemma NothingUnasked(now: real, devices: map<Device, Info>, events: seq<Event>, i: nat) returns (j: nat)
    requires i < |After(now, devices, events).s.effects| && !After(now, devices, events).s.effects[i].AuditDenied?
    ensures j < |events| && events[j].Submit?
    ensures var c, w := After(now, devices, events).s.effects[i].command, After(now, devices, events[..j]);
            Permitted(w.devices, events[j].q) && Wishes(events[j].q, c) && c.id == w.s.nextId
  {
    var log := After(now, devices, events).s.effects;
    var of := EveryCommandWasAskedFor(now, devices, events);
    var id := log[i].command.id;
    TraceIsExpected(now, devices, events, id);
    InTrace(log, i);
    j := of[id];
    LogKeepsWish(After(now, devices, events).calls[id], id, log[i]);
  }
}
