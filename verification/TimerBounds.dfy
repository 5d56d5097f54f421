/** How many timers can ever be stored. An arming leaves a bounded store; between armings the outcome of
    a firing may put a forgotten record back, but only for timers of the current pass. */
module TimerBounds {
  import opened Basics
  import opened OrderedDicts
  import opened Schedules
  import opened TimerStore
  import opened ScheduleRuns
  import opened TimerSafety

  /** How many timers of the pass are no longer stored. */
  function Missing(pass: seq<Schedule>, entries: map<Id, Schedule>): (n: nat)
    ensures n <= |pass|
  {
    if pass == [] then 0 else (if pass[0].id in entries then 0 else 1) + Missing(pass[1..], entries)
  }

  lemma {:induction false} MissingAdded(pass: seq<Schedule>, entries: map<Id, Schedule>, id: Id, record: Schedule)
    requires !InPass(pass, id)
    ensures Missing(pass, entries[id := record]) == Missing(pass, entries)
  {
    if pass != [] {
      assert pass[0].id != id by { assert id == pass[0].id ==> InPass(pass, id); }
      assert forall i :: 0 <= i < |pass[1..]| ==> pass[1..][i] == pass[i + 1];
      MissingAdded(pass[1..], entries, id, record);
    }
  }

  lemma {:induction false} MissingSameKeys(pass: seq<Schedule>, a: map<Id, Schedule>, b: map<Id, Schedule>)
    requires a.Keys == b.Keys
    ensures Missing(pass, a) == Missing(pass, b)
  {
    if pass != [] {
      assert pass[0].id in a.Keys <==> pass[0].id in b.Keys;
      MissingSameKeys(pass[1..], a, b);
    }
  }

  lemma {:induction false} NoneMissing(pass: seq<Schedule>, entries: map<Id, Schedule>)
    requires forall i :: 0 <= i < |pass| ==> pass[i].id in entries
    ensures Missing(pass, entries) == 0
  {
    if pass != [] { NoneMissing(pass[1..], entries); }
  }

  function Ids(pass: seq<Schedule>): (ids: seq<Id>)
    ensures |ids| == |pass| && forall i :: 0 <= i < |pass| ==> ids[i] == pass[i].id
  {
    if pass == [] then [] else [pass[0].id] + Ids(pass[1..])
  }

  /** The most timers ever stored: what an arming leaves, and one pass put back. */
  function Most(cfg: Config): nat { Room(cfg) + 2 * |cfg.capabilities| }

  /** The pass holds at most two timers for each device, and the records stored and those that may still
      come back are together no more than the most. */
  ghost predicate Bounded(cfg: Config, w: World) {
    && |w.pass| <= 2 * |cfg.capabilities|
    && |w.s.schedules.order| + Missing(w.pass, w.s.schedules.entries) <= Most(cfg)
  }

  /** Same pass, same keys, same number of records. */
  lemma SameSize(cfg: Config, w: World, w': World)
    requires Bounded(cfg, w) && w'.pass == w.pass && |w'.s.schedules.order| == |w.s.schedules.order|
    requires w'.s.schedules.entries.Keys == w.s.schedules.entries.Keys
    ensures Bounded(cfg, w')
  {
    MissingSameKeys(w.pass, w.s.schedules.entries, w'.s.schedules.entries);
  }

  lemma ArmBounded(cfg: Config, w: World, q: Request, halves: int, command: Option<CommandId>, w': World)
    requires WorldInv(cfg, w) && Bounded(cfg, w) && Admissible(cfg, q, halves)
    requires w'.pass == w.pass && w'.s == Arm(w.s, q, halves, command)
    ensures Bounded(cfg, w')
  {
    StoreIsBounded(cfg, w, q, halves, command);
  }

  lemma CreateBounded(cfg: Config, w: World, q: Request)
    requires WorldInv(cfg, w) && Bounded(cfg, w)
    ensures Bounded(cfg, Step(cfg, w, Create(q)))
  {
    OpenGates(cfg, w.s, q);
    OpenGrows(cfg, w.s, q);
    var (s, opening) := Open(cfg, w.s, q);
    if opening.ArmNow? {
      ArmBounded(cfg, w, q, opening.halves, None, Step(cfg, w, Create(q)));
    } else {
      SameSize(cfg, w, Step(cfg, w, Create(q)));
    }
  }

  lemma StartBounded(cfg: Config, w: World, k: nat, result: SubmitResult)
    requires WorldInv(cfg, w) && Bounded(cfg, w)
    ensures Bounded(cfg, Step(cfg, w, StartReturned(k, result)))
  {
    if k < |w.creating| && AfterStart(result).0.None? {
      var p := w.creating[k];
      ArmBounded(cfg, w, p.q, p.halves, AfterStart(result).1, Step(cfg, w, StartReturned(k, result)));
    }
  }

  lemma CancelBounded(cfg: Config, w: World, actor: Principal, id: Id)
    requires WorldInv(cfg, w) && Bounded(cfg, w)
    ensures Bounded(cfg, Step(cfg, w, CancelRequest(actor, id)))
  {
    if Armed(w.s.schedules, id) { SameSize(cfg, w, Step(cfg, w, CancelRequest(actor, id))); }
  }

  /** A new pass holds armed timers only, all of them stored. */
  lemma WakeBounded(cfg: Config, w: World)
    requires WorldInv(cfg, w) && Bounded(cfg, w)
    ensures Bounded(cfg, Step(cfg, w, Wake))
  {
    if w.pass == [] {
      var due := Due(w.s);
      DueListExactly(w.s);
      forall i | 0 <= i < |due| ensures Armed(w.s.schedules, due[i].id) {
        assert due[i] in due;
      }
      ArmedCount(cfg, w.s, w.pass, Ids(due));
      NoneMissing(due, w.s.schedules.entries);
    }
  }

  /** An outcome puts at most its own record back, which then no longer counts as missing. */
  lemma HeadAnswered(pass: seq<Schedule>, store: Store, record: Schedule)
    requires pass != [] && DistinctIds(pass) && record.id == pass[0].id
    ensures |store.Put(record.id, record).order| + Missing(pass[1..], store.Put(record.id, record).entries)
            == |store.order| + Missing(pass, store.entries)
  {
    PassTail(pass, record.id);
    MissingAdded(pass[1..], store.entries, record.id, record);
  }

  lemma AnswerBounded(cfg: Config, w: World, result: SubmitResult)
    requires WorldInv(cfg, w) && Bounded(cfg, w)
    ensures Bounded(cfg, Step(cfg, w, FireReturned(result)))
  {
    if w.pass != [] {
      var record := FireEndLog(w.s, w.pass[0], result, w.pass[0].id);
      HeadAnswered(w.pass, w.s.schedules, record);
      AnswerStore(cfg, w, result);
    }
  }

  lemma StepBounded(cfg: Config, w: World, e: Event)
    requires WorldInv(cfg, w) && Bounded(cfg, w)
    ensures Bounded(cfg, Step(cfg, w, e))
  {
    match e
    case Advance(_) =>
    case Create(q) => CreateBounded(cfg, w, q);
    case StartReturned(k, result) => StartBounded(cfg, w, k, result);
    case CancelRequest(actor, id) => CancelBounded(cfg, w, actor, id);
    case Wake => WakeBounded(cfg, w);
    case FireReturned(result) => AnswerBounded(cfg, w, result);
  }

  lemma {:induction false} ExecBounded(cfg: Config, w: World, events: seq<Event>)
    requires WorldInv(cfg, w) && Bounded(cfg, w)
    ensures Bounded(cfg, Exec(cfg, w, events))
    decreases |events|
  {
    if events != [] {
      StepKeeps(cfg, w, events[0]);
      StepBounded(cfg, w, events[0]);
      ExecBounded(cfg, Step(cfg, w, events[0]), events[1..]);
    }
  }

  /** No reachable state ever stores more, whatever outcomes put forgotten records back: with a hundred
      devices, four hundred timers. */
  lemma NeverMoreThan(cfg: Config, start: Time, events: seq<Event>)
    ensures |After(cfg, start, events).s.schedules.order| <= Most(cfg)
  {
    InitialInv(cfg, start);
    ExecBounded(cfg, Initial(start), events);
  }
}
