/** The bound on stored timers is reached: for every number of devices, a run that stores exactly that many. */
module TimerPeak {
  import opened Basics
  import opened OrderedDicts
  import opened Policy
  import opened Schedules
  import opened TimerStore
  import opened ScheduleRuns
  import opened TimerSafety
  import opened TimerBounds

  // -- requests, round after round

  /** A request for the `i`-th function: the heaters have even numbers and the filters odd ones. */
  function Ask(i: nat): Request {
    Request(7, i / 2, if i % 2 == 0 then SET_HEATER else SET_FILTER, DELAYED_START, 0.5, "req")
  }

  predicate ForSlot(t: Schedule, i: nat) {
    t.action in TIMED_ACTIONS && i == 2 * t.device + if t.action == SET_HEATER then 0 else 1
  }

  lemma AskedFor(s: Service, i: nat)
    ensures ForSlot(NewTimer(s, Ask(i), 1, None), i) && NewTimer(s, Ask(i), 1, None).dueAt == s.now + 0.5
  {
  }

  /** Only the timer for the `j`-th function answers to its request. */
  lemma SlotsApart(t: Schedule, i: nat, j: nat)
    requires ForSlot(t, i) && t.device == Ask(j).device && t.action == Ask(j).action
    ensures i == j
  {
  }

  lemma OneRequest(t: Schedule, i: nat)
    requires ForSlot(t, i)
    ensures t.device == Ask(i).device && t.action == Ask(i).action
  {
  }

  /** Round after round over `m` functions: which one the request numbered `j` is for. */
  function Slot(m: nat, j: nat): (i: nat)
    requires m > 0
    ensures i < m
  {
    if j < m then j else Slot(m, j - m)
  }

  /** No function comes up twice within a round. */
  lemma {:induction false} RoundApart(m: nat, a: nat, b: nat)
    requires a < b < a + m
    ensures Slot(m, a) != Slot(m, b)
  {
    if a >= m { RoundApart(m, a - m, b - m); }
  }

  /** The requests numbered from `from` on. */
  ghost predicate InOrder(m: nat, from: nat, events: seq<Event>)
    requires m > 0
  {
    forall j :: 0 <= j < |events| ==> events[j] == Create(Ask(Slot(m, from + j)))
  }

  function Asks(m: nat, from: nat, k: nat): (events: seq<Event>)
    requires m > 0
    ensures |events| == k && InOrder(m, from, events)
  {
    seq(k, (j: nat) => Create(Ask(Slot(m, from + j))))
  }

  /** The first `m` functions can be timed half an hour ahead. */
  ghost predicate Offers(cfg: Config, m: nat) {
    forall i: nat :: i < m ==> Admissible(cfg, Ask(i), 1)
  }

  lemma CreateArms(cfg: Config, w: World, i: nat)
    requires w.s.schedules.Valid() && Admissible(cfg, Ask(i), 1)
    ensures Step(cfg, w, Create(Ask(i))) == w.(s := Arm(w.s, Ask(i), 1, None))
  {
    HalvesAreUnique(0.5, 1);
  }

  // -- what is stored after so many requests

  /** `lo`, `lo + 1` and so on. */
  ghost predicate Consecutive(ids: seq<Id>, lo: nat) {
    forall i :: 0 <= i < |ids| ==> ids[i] == lo + i
  }

  /** The timers from `lo` up to `hi` are stored in order; the last `m` of them are armed, the others settled. */
  ghost predicate Window(store: Store, m: nat, lo: nat, hi: nat) {
    && lo <= hi && store.Valid() && |store.order| == hi - lo && Consecutive(store.order, lo)
    && (forall id: Id :: id in store.entries <==> lo <= id < hi)
    && (forall id: Id :: lo <= id < hi ==> (Armed(store, id) <==> id + m >= hi))
  }

  /** The armed timers are each for the function of their turn, and due before long. */
  ghost predicate InTurn(store: Store, m: nat, latest: Time)
    requires m > 0
  {
    forall id: Id {:trigger Armed(store, id)} ::
      Armed(store, id) ==> ForSlot(store.entries[id], Slot(m, id)) && store.entries[id].dueAt <= latest
  }

  /** What the store settles at over many rounds. */
  function Limit(m: nat): nat { Max(MAX_TRACKED, m) }

  function Lowest(m: nat, hi: nat): nat { if hi <= Limit(m) then 0 else hi - Limit(m) }

  /** After `hi` requests, `m` to the round. */
  ghost predicate Full(w: World, m: nat, hi: nat)
    requires m > 0
  {
    && w.s.nextId == hi && Window(w.s.schedules, m, Lowest(m, hi), hi) && InTurn(w.s.schedules, m, w.s.now + 0.5)
  }

  // -- one more request

  lemma {:induction false} SupersedeOthers(s: Service, existing: seq<Schedule>, action: Action, id: Id)
    requires forall t :: t in existing && t.action == action ==> t.id != id
    ensures var s' := Supersede(s, existing, action);
            && (id in s'.schedules.entries <==> id in s.schedules.entries)
            && (id in s.schedules.entries ==> s'.schedules.entries[id] == s.schedules.entries[id])
    decreases |existing|
  {
    if existing != [] { SupersedeOthers(SupersedeHead(s, existing, action), existing[1..], action, id); }
  }

  lemma {:induction false} SupersedeInPlace(s: Service, existing: seq<Schedule>, action: Action)
    requires forall i :: 0 <= i < |existing| ==> existing[i].id in s.schedules.entries
    ensures var s' := Supersede(s, existing, action);
            s'.schedules.order == s.schedules.order && s'.schedules.entries.Keys == s.schedules.entries.Keys
    decreases |existing|
  {
    if existing != [] { SupersedeInPlace(SupersedeHead(s, existing, action), existing[1..], action); }
  }

  /** The store once whatever was armed for the `i`-th function is superseded. */
  function Cleared(s: Service, i: nat): Store {
    Supersede(s, ForDevice(s.schedules, Ask(i).device), Ask(i).action).schedules
  }

  /** Superseding settles the timer of one round ago, if there is one, and leaves all others as they are. */
  lemma OnlyTheOld(w: World, m: nat, hi: nat)
    requires m > 0 && Keyed(w.s.schedules) && Full(w, m, hi)
    ensures var store := Cleared(w.s, Slot(m, hi));
            && store.Valid() && store.order == w.s.schedules.order && store.entries.Keys == w.s.schedules.entries.Keys
            && (forall id: Id :: id in store.entries && id + m != hi ==>
                  store.entries[id] == w.s.schedules.entries[id])
            && (forall id: Id :: id + m == hi ==> !Armed(store, id))
  {
    var store, q := Cleared(w.s, Slot(m, hi)), Ask(Slot(m, hi));
    var existing := ForDevice(w.s.schedules, q.device);
    ForDeviceExactly(w.s.schedules, q.device);
    SupersedeKeepsValid(w.s, existing, q.action);
    assert forall i :: 0 <= i < |existing| ==> existing[i] in existing;
    SupersedeInPlace(w.s, existing, q.action);
    forall id: Id | id in store.entries && id + m != hi ensures store.entries[id] == w.s.schedules.entries[id] {
      OthersStay(w, m, hi, id);
    }
    forall id: Id | id + m == hi ensures !Armed(store, id) {
      OldIsSettled(w, m, hi, id);
    }
  }

  lemma OthersStay(w: World, m: nat, hi: nat, id: Id)
    requires m > 0 && Keyed(w.s.schedules) && Full(w, m, hi) && id in w.s.schedules.entries && id + m != hi
    ensures var store := Cleared(w.s, Slot(m, hi));
            id in store.entries && store.entries[id] == w.s.schedules.entries[id]
  {
    var q := Ask(Slot(m, hi));
    var existing := ForDevice(w.s.schedules, q.device);
    ForDeviceExactly(w.s.schedules, q.device);
    forall t | t in existing && t.action == q.action ensures t.id != id {
      if t.id == id {
        SlotsApart(t, Slot(m, id), Slot(m, hi));
        RoundApart(m, id, hi);
      }
    }
    SupersedeOthers(w.s, existing, q.action, id);
  }

  lemma OldIsSettled(w: World, m: nat, hi: nat, id: Id)
    requires m > 0 && Keyed(w.s.schedules) && Full(w, m, hi) && id + m == hi
    ensures !Armed(Cleared(w.s, Slot(m, hi)), id)
  {
    var q := Ask(Slot(m, hi));
    var existing := ForDevice(w.s.schedules, q.device);
    NoneLeft(w.s, q);
    SupersedeStore(w.s, existing, q.action);
    if Armed(Cleared(w.s, Slot(m, hi)), id) {
      assert ForSlot(w.s.schedules.entries[id], Slot(m, hi));
      OneRequest(w.s.schedules.entries[id], Slot(m, hi));
    }
  }

  /** The new timer goes last. */
  lemma NewGoesLast(was: Store, store: Store, t: Schedule, m: nat, lo: nat, hi: nat)
    requires m > 0 && Window(was, m, lo, hi) && t.status == ARMED
    requires store.Valid() && store.order == was.order && store.entries.Keys == was.entries.Keys
    requires forall id: Id :: id in store.entries && id + m != hi ==> store.entries[id] == was.entries[id]
    requires forall id: Id :: id + m == hi ==> !Armed(store, id)
    ensures Window(store.Put(hi, t), m, lo, hi + 1)
  {
    assert forall id: Id :: id in store.entries.Keys <==> id in was.entries.Keys;
    var put := store.Put(hi, t);
    forall id: Id | lo <= id < hi + 1 ensures Armed(put, id) <==> id + m >= hi + 1 {
      if id + m == hi {
        assert !Armed(store, id);
      } else if id < hi {
        assert id in store.entries && put.entries[id] == was.entries[id];
        assert Armed(was, id) <==> id + m >= hi;
      }
    }
  }

  lemma NewInTurn(was: Store, store: Store, t: Schedule, m: nat, hi: nat, latest: Time)
    requires m > 0 && InTurn(was, m, latest) && ForSlot(t, Slot(m, hi)) && t.dueAt <= latest
    requires store.entries.Keys == was.entries.Keys
    requires forall id: Id :: id in store.entries && id + m != hi ==> store.entries[id] == was.entries[id]
    requires forall id: Id :: id + m == hi ==> !Armed(store, id)
    ensures InTurn(store.Put(hi, t), m, latest)
  {
    var put := store.Put(hi, t);
    forall id: Id | Armed(put, id)
      ensures ForSlot(put.entries[id], Slot(m, id)) && put.entries[id].dueAt <= latest
    {
      if id != hi { assert Armed(store, id) && id in was.entries.Keys && Armed(was, id); }
    }
  }

  lemma WithoutFirst(ids: seq<Id>, lo: nat)
    requires ids != [] && Consecutive(ids, lo)
    ensures Without(ids, lo) == ids[1..] && Consecutive(ids[1..], lo + 1)
  {
    assert ids[0] == lo && lo !in ids[1..];
    WithoutExactly(ids[1..], lo);
  }

  /** Within the limit there is nothing to forget. */
  lemma NothingForgotten(store: Store, m: nat, lo: nat, hi: nat)
    requires Window(store, m, lo, hi) && hi - lo <= Limit(m)
    ensures Evict(store) == store
  {
    if hi - lo > MAX_TRACKED {
      assert forall id: Id :: id in store.entries ==> Armed(store, id);
    }
  }

  /** One too many: the first is settled, and is forgotten. */
  lemma FirstForgotten(store: Store, m: nat, lo: nat, hi: nat)
    requires Window(store, m, lo, hi) && hi - lo == Limit(m) + 1
    ensures Evict(store) == store.Remove(lo) && Window(store.Remove(lo), m, lo + 1, hi)
  {
    assert store.order[0] == lo && !Armed(store, lo);
    WithoutFirst(store.order, lo);
    forall id: Id | lo + 1 <= id < hi ensures Armed(store.Remove(lo), id) <==> id + m >= hi {
      assert Armed(store.Remove(lo), id) <==> Armed(store, id);
    }
    NothingForgotten(store.Remove(lo), m, lo + 1, hi);
  }

  lemma EvictWindow(store: Store, m: nat, lo: nat, hi: nat)
    requires Window(store, m, lo, hi) && hi - lo <= Limit(m) + 1
    ensures Window(Evict(store), m, if hi - lo <= Limit(m) then lo else lo + 1, hi)
  {
    if hi - lo <= Limit(m) {
      NothingForgotten(store, m, lo, hi);
    } else {
      FirstForgotten(store, m, lo, hi);
    }
  }

  lemma EvictInTurn(store: Store, m: nat, latest: Time)
    requires m > 0 && store.Valid() && InTurn(store, m, latest)
    ensures InTurn(Evict(store), m, latest)
  {
    EvictExactly(store);
    forall id: Id | Armed(Evict(store), id)
      ensures ForSlot(Evict(store).entries[id], Slot(m, id)) && Evict(store).entries[id].dueAt <= latest
    {
      assert Armed(store, id);
    }
  }

  lemma ArmIsEvict(s: Service, i: nat)
    requires s.schedules.Valid()
    ensures var s' := Arm(s, Ask(i), 1, None);
            && Cleared(s, i).Valid()
            && s'.schedules == Evict(Cleared(s, i).Put(s.nextId, NewTimer(s, Ask(i), 1, None)))
            && s'.nextId == s.nextId + 1 && s'.now == s.now
  {
    SupersedeKeepsValid(s, ForDevice(s.schedules, Ask(i).device), Ask(i).action);
    SupersedeClock(s, ForDevice(s.schedules, Ask(i).device), Ask(i).action);
  }

  lemma {:induction false} SupersedeClock(s: Service, existing: seq<Schedule>, action: Action)
    ensures Supersede(s, existing, action).now == s.now
    decreases |existing|
  {
    if existing != [] { SupersedeClock(SupersedeHead(s, existing, action), existing[1..], action); }
  }

  lemma AskStep(cfg: Config, w: World, m: nat, hi: nat)
    requires m > 0 && Offers(cfg, m) && WorldInv(cfg, w) && Full(w, m, hi)
    ensures var w' := Step(cfg, w, Create(Ask(Slot(m, hi))));
            WorldInv(cfg, w') && Full(w', m, hi + 1) && w'.pass == w.pass && w'.s.now == w.s.now
  {
    var i := Slot(m, hi);
    var store, t := Cleared(w.s, i), NewTimer(w.s, Ask(i), 1, None);
    StepKeeps(cfg, w, Create(Ask(i)));
    CreateArms(cfg, w, i);
    OnlyTheOld(w, m, hi);
    AskedFor(w.s, i);
    NewGoesLast(w.s.schedules, store, t, m, Lowest(m, hi), hi);
    NewInTurn(w.s.schedules, store, t, m, hi, w.s.now + 0.5);
    EvictWindow(store.Put(hi, t), m, Lowest(m, hi), hi + 1);
    EvictInTurn(store.Put(hi, t), m, w.s.now + 0.5);
    ArmIsEvict(w.s, i);
  }

  /** Rounds of requests for the same functions leave the latest timers: the last round's armed, the others
      superseded, and only as many as the limit. */
  lemma {:induction false} AsksRun(cfg: Config, w: World, m: nat, from: nat, to: nat, events: seq<Event>)
    requires m > 0 && Offers(cfg, m) && WorldInv(cfg, w) && Full(w, m, from)
    requires InOrder(m, from, events) && from + |events| == to
    ensures var w' := Exec(cfg, w, events);
            WorldInv(cfg, w') && Full(w', m, to) && w'.pass == w.pass && w'.s.now == w.s.now
    decreases |events|
  {
    if events != [] {
      AskStep(cfg, w, m, from);
      assert forall j :: 0 <= j < |events[1..]| ==> events[1..][j] == events[j + 1];
      AsksRun(cfg, Step(cfg, w, events[0]), m, from + 1, to, events[1..]);
    }
  }

  // -- the pass: the timers of the first round all come due at once

  lemma {:induction false} AllArmed(order: seq<Id>, entries: map<Id, Schedule>)
    requires forall i :: 0 <= i < |order| ==> order[i] in entries && entries[order[i]].status == ARMED
    ensures |ArmedAmong(order, entries)| == |order|
    ensures forall i :: 0 <= i < |order| ==> ArmedAmong(order, entries)[i] == entries[order[i]]
  {
    if order != [] { AllArmed(order[1..], entries); }
  }

  lemma {:induction false} AllDue(armed: seq<Schedule>, now: Time)
    requires forall i :: 0 <= i < |armed| ==> armed[i].dueAt <= now
    ensures DueAmong(armed, now) == armed
  {
    if armed != [] { AllDue(armed[1..], now); }
  }

  lemma FirstRoundDue(s: Service, m: nat)
    requires m > 0 && Keyed(s.schedules) && Window(s.schedules, m, 0, m) && InTurn(s.schedules, m, s.now)
    ensures |Due(s)| == m && forall i :: 0 <= i < m ==> Due(s)[i].id == i
  {
    var d := s.schedules;
    forall i | 0 <= i < |d.order|
      ensures d.order[i] == i && Armed(d, i) && d.entries[i].id == i && d.entries[i].dueAt <= s.now
    {
    }
    AllArmed(d.order, d.entries);
    AllDue(ArmedAmong(d.order, d.entries), s.now);
  }

  /** The loop takes all `m` timers of the first round into one pass. */
  lemma AllInOnePass(cfg: Config, w: World, m: nat)
    requires m > 0 && WorldInv(cfg, w) && Full(w, m, m) && w.pass == []
    ensures var w' := Step(cfg, Step(cfg, w, Advance(0.5)), Wake);
            && WorldInv(cfg, w') && Full(w', m, m)
            && |w'.pass| == m && forall i :: 0 <= i < m ==> w'.pass[i].id < m
  {
    StepKeeps(cfg, w, Advance(0.5));
    var later := Step(cfg, w, Advance(0.5));
    FirstRoundDue(later.s, m);
    StepKeeps(cfg, later, Wake);
  }

  // -- the outcomes put the forgotten records back

  lemma {:induction false} AllMissing(pass: seq<Schedule>, entries: map<Id, Schedule>)
    requires forall i :: 0 <= i < |pass| ==> pass[i].id !in entries
    ensures Missing(pass, entries) == |pass|
  {
    if pass != [] { AllMissing(pass[1..], entries); }
  }

  lemma AnswerPutsBack(cfg: Config, w: World)
    requires WorldInv(cfg, w) && w.pass != []
    ensures var w' := Step(cfg, w, FireReturned(Crashed));
            && WorldInv(cfg, w') && w'.pass == w.pass[1..]
            && |w'.s.schedules.order| + Missing(w'.pass, w'.s.schedules.entries)
               == |w.s.schedules.order| + Missing(w.pass, w.s.schedules.entries)
  {
    var record := FireEndLog(w.s, w.pass[0], Crashed, w.pass[0].id);
    HeadAnswered(w.pass, w.s.schedules, record);
    AnswerStore(cfg, w, Crashed);
    StepKeeps(cfg, w, FireReturned(Crashed));
  }

  /** Once every timer of the pass is answered, exactly those missing have been added to the store. */
  lemma {:induction false} AnswersPutBack(cfg: Config, w: World, n: nat)
    requires WorldInv(cfg, w) && |w.pass| == n
    ensures |Exec(cfg, w, Answers(n)).s.schedules.order|
            == |w.s.schedules.order| + Missing(w.pass, w.s.schedules.entries)
    decreases n
  {
    if n > 0 {
      AnswerPutsBack(cfg, w);
      AnswersPutBack(cfg, Step(cfg, w, FireReturned(Crashed)), n - 1);
      assert Answers(n) == [FireReturned(Crashed)] + Answers(n - 1);
      assert Answers(n)[1..] == Answers(n - 1);
    }
  }

  // -- the whole run

  /** Every one of `m` functions gets a timer; all come due and go into one pass. */
  function ToPass(m: nat): seq<Event>
    requires m > 0
  {
    Asks(m, 0, m) + [Advance(0.5)] + [Wake]
  }

  /** While the first submit of the pass is out, new timers are asked for until all of the pass are forgotten;
      then the answers come in. */
  function PeakRun(m: nat): seq<Event>
    requires m > 0
  {
    ToPass(m) + Asks(m, m, Limit(m)) + Answers(m)
  }

  lemma PassStarted(cfg: Config, m: nat)
    requires m > 0 && Offers(cfg, m)
    ensures var w := After(cfg, 0.0, ToPass(m));
            && WorldInv(cfg, w) && Full(w, m, m)
            && |w.pass| == m && forall i :: 0 <= i < m ==> w.pass[i].id < m
  {
    InitialInv(cfg, 0.0);
    AsksRun(cfg, Initial(0.0), m, 0, m, Asks(m, 0, m));
    AfterSnoc(cfg, 0.0, Asks(m, 0, m), Advance(0.5));
    AfterSnoc(cfg, 0.0, Asks(m, 0, m) + [Advance(0.5)], Wake);
    AllInOnePass(cfg, After(cfg, 0.0, Asks(m, 0, m)), m);
  }

  lemma PassForgotten(cfg: Config, w: World, m: nat)
    requires m > 0 && Offers(cfg, m) && WorldInv(cfg, w) && Full(w, m, m)
    requires |w.pass| == m && forall i :: 0 <= i < m ==> w.pass[i].id < m
    ensures var w' := Exec(cfg, w, Asks(m, m, Limit(m)));
            && WorldInv(cfg, w') && w'.pass == w.pass && |w'.s.schedules.order| == Limit(m)
            && Missing(w'.pass, w'.s.schedules.entries) == m
  {
    AsksRun(cfg, w, m, m, m + Limit(m), Asks(m, m, Limit(m)));
    AllMissing(w.pass, Exec(cfg, w, Asks(m, m, Limit(m))).s.schedules.entries);
  }

  /** In a house where `m` functions can be timed the store does grow to `m` timers more than an arming
      leaves. */
  lemma PeakOfFunctions(cfg: Config, m: nat)
    requires m > 0 && Offers(cfg, m)
    ensures |After(cfg, 0.0, PeakRun(m)).s.schedules.order| == Limit(m) + m
  {
    PassStarted(cfg, m);
    var w := After(cfg, 0.0, ToPass(m));
    PassForgotten(cfg, w, m);
    AnswersPutBack(cfg, Exec(cfg, w, Asks(m, m, Limit(m))), m);
    ExecConcat(cfg, Initial(0.0), ToPass(m), Asks(m, m, Limit(m)));
    ExecConcat(cfg, Initial(0.0), ToPass(m) + Asks(m, m, Limit(m)), Answers(m));
  }

  function Spas(n: nat): (r: map<Device, set<Capability>>)
    ensures |r| == n && forall d: Device :: (d in r <==> d < n) && (d in r ==> r[d] == {HEATING, FILTER})
  {
    if n == 0 then map[] else Spas(n - 1)[n - 1 := {HEATING, FILTER}]
  }

  /** Both timed functions on each of `n` devices. */
  function House(n: nat): Config { Config(Spas(n), 24.0) }

  /** For every number of devices the bound is reached: no smaller one holds of every house. With a hundred
      devices this run stores four hundred timers. */
  lemma PeakReached(n: nat)
    requires n > 0
    ensures |House(n).capabilities| == n
    ensures |After(House(n), 0.0, PeakRun(2 * n)).s.schedules.order| == Most(House(n))
  {
    forall i: nat | i < 2 * n ensures Admissible(House(n), Ask(i), 1) {
      assert i / 2 in Spas(n);
    }
    PeakOfFunctions(House(n), 2 * n);
  }
}
